/**
 * The regular expressions of the schedule parser, written out as matchers.
 * None of them carries the `g` flag, so `test`, `exec` and `match` are
 * stateless: each is a leftmost search over the start positions, and at a
 * fixed start position every one of these patterns can match in at most one way.
 */
module Patterns {
  import opened Wrappers
  import opened Text

  // ---------------------------------------------------------------- runs

  /** `SkipWhile` stops exactly where the run of class-`k` characters ends. */
  lemma {:induction false} SkipWhileExact(s: string, i: nat, j: nat, k: CharClass)
    requires i <= j <= |s|
    requires forall m :: i <= m < j ==> InClass(s[m], k)
    requires j == |s| || !InClass(s[j], k)
    ensures SkipWhile(s, i, k) == j
    decreases j - i
  {
    if i < j {
      SkipWhileExact(s, i + 1, j, k);
    }
  }

  lemma {:induction false} SkipBackWhileAtMost(s: string, j: nat, m: nat, k: CharClass)
    requires m <= j <= |s|
    requires forall i :: m <= i < j ==> InClass(s[i], k)
    ensures SkipBackWhile(s, j, k) <= m
    decreases j
  {
    if m < j {
      SkipBackWhileAtMost(s, j - 1, m, k);
    }
  }

  // ---------------------------------------------------------------- line classes

  /** `/^\d+$/` */
  predicate IsClassNumber(line: string) {
    |line| > 0 && AllDigits(line)
  }

  /** `\s*.+$` on the rest of a line: optional whitespace, then at least one character that is not a line terminator. */
  predicate SpacesThenText(t: string) {
    var k := SkipBackWhile(t, |t|, NotTerminator);
    k < |t| && AllSpaces(t[..k])
  }

  /**
   * `/^[A-Z]{2,}\s+\d+[A-Z]*\s*-\s*.+$/`, the course-title line
   * (`CS 346 - Application Development`). Every run is greedy: the class of
   * the character that ends it never belongs to the run, so no backtracking is needed.
   */
  predicate IsCourseTitle(line: string) {
    var u := SkipWhile(line, 0, Upper);
    var w := SkipWhile(line, u, Space);
    var d := SkipWhile(line, w, Digit);
    var a := SkipWhile(line, d, Upper);
    var w2 := SkipWhile(line, a, Space);
    u >= 2 && w > u && d > w && w2 < |line| && line[w2] == '-' && SpacesThenText(line[w2 + 1..])
  }

  /**
   * The course-title pattern read as a regular expression: some way of
   * cutting the line into its parts, each part a run of its character class.
   */
  ghost predicate CourseTitleCut(line: string, i1: nat, i2: nat, i3: nat, i4: nat, i5: nat, j: nat) {
    2 <= i1 < i2 < i3 <= i4 <= i5 < j < |line|
    && (forall k :: 0 <= k < i1 ==> InClass(line[k], Upper))
    && (forall k :: i1 <= k < i2 ==> InClass(line[k], Space))
    && (forall k :: i2 <= k < i3 ==> InClass(line[k], Digit))
    && (forall k :: i3 <= k < i4 ==> InClass(line[k], Upper))
    && (forall k :: i4 <= k < i5 ==> InClass(line[k], Space))
    && line[i5] == '-'
    && (forall k :: i5 < k < j ==> InClass(line[k], Space))
    && (forall k :: j <= k < |line| ==> InClass(line[k], NotTerminator))
  }

  /** The matcher accepts only lines the regular expression accepts. */
  lemma CourseTitleIsCut(line: string)
    requires IsCourseTitle(line)
    ensures exists i1, i2, i3, i4, i5, j :: CourseTitleCut(line, i1, i2, i3, i4, i5, j)
  {
    var u := SkipWhile(line, 0, Upper);
    var w := SkipWhile(line, u, Space);
    var d := SkipWhile(line, w, Digit);
    var a := SkipWhile(line, d, Upper);
    var w2 := SkipWhile(line, a, Space);
    var k := SpacesThenTextCut(line, w2);
    assert CourseTitleCut(line, u, w, d, a, w2, k);
  }

  /** The `\s*.+$` tail after `i` split into its whitespace, up to `j`, and its text. */
  lemma SpacesThenTextCut(line: string, i: nat) returns (j: nat)
    requires i < |line| && SpacesThenText(line[i + 1..])
    ensures i < j < |line|
    ensures forall m :: i < m < j ==> InClass(line[m], Space)
    ensures forall m :: j <= m < |line| ==> InClass(line[m], NotTerminator)
  {
    var t := line[i + 1..];
    var k := SkipBackWhile(t, |t|, NotTerminator);
    assert AllSpaces(t[..k]);
    forall m | i < m < i + 1 + k ensures InClass(line[m], Space) {
      assert line[m] == t[..k][m - i - 1];
    }
    forall m | i + 1 + k <= m < |line| ensures InClass(line[m], NotTerminator) {
      assert line[m] == t[m - i - 1];
    }
    j := i + 1 + k;
  }

  /** Every way of cutting the line into the parts of the pattern is found by the matcher. */
  lemma CutIsCourseTitle(line: string, i1: nat, i2: nat, i3: nat, i4: nat, i5: nat, j: nat)
    requires CourseTitleCut(line, i1, i2, i3, i4, i5, j)
    ensures IsCourseTitle(line)
  {
    SkipWhileExact(line, 0, i1, Upper);
    SkipWhileExact(line, i1, i2, Space);
    SkipWhileExact(line, i2, i3, Digit);
    SkipWhileExact(line, i3, i4, Upper);
    SkipWhileExact(line, i4, i5, Space);
    TailIsSpacesThenText(line, i5, j);
    CourseTitleFromRuns(line, i1, i2, i3, i4, i5);
  }

  /** Where the five greedy runs end is all the matcher looks at before the tail. */
  lemma CourseTitleFromRuns(line: string, i1: nat, i2: nat, i3: nat, i4: nat, i5: nat)
    requires i1 == SkipWhile(line, 0, Upper) && i2 == SkipWhile(line, i1, Space)
    requires i3 == SkipWhile(line, i2, Digit) && i4 == SkipWhile(line, i3, Upper)
    requires i5 == SkipWhile(line, i4, Space)
    requires 2 <= i1 < i2 < i3 && i5 < |line| && line[i5] == '-' && SpacesThenText(line[i5 + 1..])
    ensures IsCourseTitle(line)
  {
  }

  /** Whitespace up to `j` and text from `j` to the end of the line make a `\s*.+$` tail after `i5`. */
  lemma TailIsSpacesThenText(line: string, i5: nat, j: nat)
    requires i5 < j < |line|
    requires forall k :: i5 < k < j ==> InClass(line[k], Space)
    requires forall k :: j <= k < |line| ==> InClass(line[k], NotTerminator)
    ensures SpacesThenText(line[i5 + 1..])
  {
    var t := line[i5 + 1..];
    var m := j - i5 - 1;
    forall x | m <= x < |t| ensures InClass(t[x], NotTerminator) {
      assert t[x] == line[x + i5 + 1];
    }
    SkipBackWhileAtMost(t, |t|, m, NotTerminator);
    var k := SkipBackWhile(t, |t|, NotTerminator);
    forall x | 0 <= x < k ensures IsSpace(t[..k][x]) {
      assert t[..k][x] == line[x + i5 + 1];
      assert InClass(line[x + i5 + 1], Space);
    }
  }

  /** The column names of the schedule table, in order. */
  const HeaderColumns: seq<string> :=
    ["Class Nbr", "Section", "Component", "Days & Times", "Room", "Instructor", "Start/End Date"]

  /** The whole of `s` is `cols` joined by runs of whitespace. */
  predicate ColumnsSeparated(s: string, cols: seq<string>)
    requires |cols| > 0
    decreases |cols|
  {
    var c := cols[0];
    |c| <= |s| && s[..|c|] == c &&
    if |cols| == 1 then |s| == |c|
    else
      var k := SkipWhile(s, |c|, Space);
      k > |c| && ColumnsSeparated(s[k..], cols[1..])
  }

  /** `/^Class Nbr\s+Section\s+Component\s+Days & Times\s+Room\s+Instructor\s+Start\/End Date$/` */
  predicate IsHeader(line: string) {
    ColumnsSeparated(line, HeaderColumns)
  }

  /** Interleaves columns with separators: `cols[0] + seps[0] + cols[1] + … + cols[n-1]`. */
  function Interleave(cols: seq<string>, seps: seq<string>): (r: string)
    requires |cols| > 0 && |seps| == |cols| - 1
    decreases |cols|
  {
    if |cols| == 1 then cols[0] else cols[0] + seps[0] + Interleave(cols[1..], seps[1..])
  }

  /** Every column ends before the whitespace that separates it from the next. */
  predicate NoEdgeSpaces(cols: seq<string>) {
    forall i :: 0 <= i < |cols| ==> |cols[i]| > 0 && !IsSpace(cols[i][0])
  }

  /** Any non-empty whitespace runs between the columns make a header line, and only they do. */
  lemma {:induction false} ColumnsSeparatedInterleave(cols: seq<string>, seps: seq<string>)
    requires |cols| > 0 && |seps| == |cols| - 1 && NoEdgeSpaces(cols)
    requires forall i :: 0 <= i < |seps| ==> |seps[i]| > 0 && AllSpaces(seps[i])
    ensures ColumnsSeparated(Interleave(cols, seps), cols)
    decreases |cols|
  {
    var s := Interleave(cols, seps);
    var c := cols[0];
    if |cols| > 1 {
      var rest := Interleave(cols[1..], seps[1..]);
      assert s == c + seps[0] + rest;
      assert s[..|c|] == c;
      SkipWhileExact(s, |c|, |c| + |seps[0]|, Space);
      assert s[|c| + |seps[0]|..] == rest;
      assert NoEdgeSpaces(cols[1..]) by {
        forall i | 0 <= i < |cols[1..]| ensures |cols[1..][i]| > 0 && !IsSpace(cols[1..][i][0]) {
          assert cols[1..][i] == cols[i + 1];
        }
      }
      ColumnsSeparatedInterleave(cols[1..], seps[1..]);
    }
  }

  lemma {:induction false} ColumnsSeparatedHasSeparators(s: string, cols: seq<string>)
    requires |cols| > 0 && ColumnsSeparated(s, cols)
    ensures exists seps: seq<string> ::
              && |seps| == |cols| - 1
              && (forall i :: 0 <= i < |seps| ==> |seps[i]| > 0 && AllSpaces(seps[i]))
              && s == Interleave(cols, seps)
    decreases |cols|
  {
    var c := cols[0];
    if |cols| == 1 {
      assert s == Interleave(cols, []);
    } else {
      var k := SkipWhile(s, |c|, Space);
      ColumnsSeparatedHasSeparators(s[k..], cols[1..]);
      var seps :| |seps| == |cols| - 2
        && (forall i :: 0 <= i < |seps| ==> |seps[i]| > 0 && AllSpaces(seps[i]))
        && s[k..] == Interleave(cols[1..], seps);
      var all := [s[|c|..k]] + seps;
      assert all[1..] == seps;
      assert s == c + s[|c|..k] + s[k..];
      assert s == Interleave(cols, all);
      assert forall i :: 0 <= i < |all| ==> |all[i]| > 0 && AllSpaces(all[i]) by {
        forall i | 0 <= i < |all| ensures |all[i]| > 0 && AllSpaces(all[i]) {
          if i > 0 {
            assert all[i] == seps[i - 1];
          } else {
            forall m | 0 <= m < k - |c| ensures IsSpace(all[0][m]) {
              assert InClass(s[|c| + m], Space);
            }
          }
        }
      }
    }
  }

  lemma HeaderColumnsHaveNoEdgeSpaces()
    ensures NoEdgeSpaces(HeaderColumns)
  {
  }

  lemma ColumnsSeparatedStart(s: string, cols: seq<string>)
    requires |cols| > 0 && ColumnsSeparated(s, cols)
    ensures |cols[0]| <= |s| && s[..|cols[0]|] == cols[0]
  {
  }

  lemma HeaderStart(line: string)
    requires IsHeader(line)
    ensures |line| >= 2 && line[0] == 'C' && line[1] == 'l'
  {
    var c := HeaderColumns[0];
    assert c == "Class Nbr";
    ColumnsSeparatedStart(line, HeaderColumns);
    assert line[0] == line[..|c|][0] == c[0];
    assert line[1] == line[..|c|][1] == c[1];
  }

  /** A header line is neither a course title nor a class number. */
  lemma HeaderIsNotTitle(line: string)
    requires IsHeader(line)
    ensures !IsCourseTitle(line) && !IsClassNumber(line)
  {
    HeaderStart(line);
    NotTitleWithoutTwoCapitals(line);
  }

  lemma NotTitleWithoutTwoCapitals(line: string)
    requires |line| >= 2 && line[1] == 'l'
    ensures !IsCourseTitle(line) && !IsClassNumber(line)
  {
    if IsUpper(line[0]) {
      SkipWhileExact(line, 0, 1, Upper);
    } else {
      SkipWhileExact(line, 0, 0, Upper);
    }
  }

  /** A class-number line is not a course title. */
  lemma ClassNumberIsNotTitle(line: string)
    requires IsClassNumber(line)
    ensures !IsCourseTitle(line)
  {
    SkipWhileExact(line, 0, 0, Upper);
  }

  // ---------------------------------------------------------------- the term dates

  /** `\d{2}\/\d{2}\/\d{4}` at position `p`. */
  predicate DateTokenAt(s: string, p: nat) {
    p + 10 <= |s|
    && IsDigit(s[p]) && IsDigit(s[p + 1]) && s[p + 2] == '/'
    && IsDigit(s[p + 3]) && IsDigit(s[p + 4]) && s[p + 5] == '/'
    && IsDigit(s[p + 6]) && IsDigit(s[p + 7]) && IsDigit(s[p + 8]) && IsDigit(s[p + 9])
  }

  /** A whole string of the shape `dd/dd/dddd`. */
  predicate IsDateToken(s: string) {
    |s| == 10 && DateTokenAt(s, 0)
  }

  /** The two capture groups of the dates pattern. */
  datatype DateRange = DateRange(first: string, last: string)

  /** `(\d{2}\/\d{2}\/\d{4})\s*-\s*(\d{2}\/\d{2}\/\d{4})` matched at position `p`. */
  function DatesAt(s: string, p: nat): (r: Option<DateRange>)
    ensures r.Some? ==> IsDateToken(r.value.first) && IsDateToken(r.value.last)
  {
    if DateTokenAt(s, p) then
      var k := SkipWhile(s, p + 10, Space);
      if k < |s| && s[k] == '-' then
        var k2 := SkipWhile(s, k + 1, Space);
        if DateTokenAt(s, k2) then Some(DateRange(s[p..p + 10], s[k2..k2 + 10])) else None
      else None
    else None
  }

  /** The leftmost date range starting at or after `p`. */
  function DatesFrom(s: string, p: nat): (r: Option<DateRange>)
    requires p <= |s| + 1
    ensures r.Some? ==> IsDateToken(r.value.first) && IsDateToken(r.value.last)
    decreases |s| + 1 - p
  {
    if p > |s| then None
    else if DatesAt(s, p).Some? then DatesAt(s, p)
    else DatesFrom(s, p + 1)
  }

  /** `datesPattern.test(line)` and `line.match(datesPattern)`. */
  function MatchDates(line: string): (r: Option<DateRange>)
    ensures r.Some? ==> IsDateToken(r.value.first) && IsDateToken(r.value.last)
  {
    DatesFrom(line, 0)
  }

  /** The date search finds nothing exactly when the dates pattern matches at no position. */
  lemma {:induction false} DatesFromNone(s: string, p: nat)
    requires p <= |s| + 1
    ensures DatesFrom(s, p).None? <==> forall i :: p <= i <= |s| ==> DatesAt(s, i).None?
    decreases |s| + 1 - p
  {
    if p <= |s| && DatesAt(s, p).None? {
      DatesFromNone(s, p + 1);
    }
  }

  /** What the date search finds is the match at the leftmost position where the pattern matches. */
  lemma {:induction false} DatesFromLeftmost(s: string, p: nat) returns (i: nat)
    requires p <= |s| + 1 && DatesFrom(s, p).Some?
    ensures p <= i <= |s| && DatesFrom(s, p) == DatesAt(s, i)
    ensures forall j :: p <= j < i ==> DatesAt(s, j).None?
    decreases |s| + 1 - p
  {
    if DatesAt(s, p).Some? {
      i := p;
    } else {
      i := DatesFromLeftmost(s, p + 1);
    }
  }

  predicate HasDates(line: string) {
    MatchDates(line).Some?
  }
}
