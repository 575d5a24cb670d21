/**
 * The JavaScript string primitives the schedule converter relies on:
 * the characters `\s` matches, `String.prototype.trim`, `split(/\r?\n/)`,
 * `parseInt(_, 10)` on digit strings and `Array.prototype.join`.
 * Strings are sequences of Unicode scalar values.
 */
module Text {

  /** WhiteSpace and LineTerminator of ECMAScript: what `\s` matches and what `trim` removes. */
  predicate IsSpace(c: char) {
    c == '\t' || c == '\n' || c == '\U{000B}' || c == '\U{000C}' || c == '\r' || c == ' '
    || c == '\U{00A0}' || c == '\U{1680}' || ('\U{2000}' <= c <= '\U{200A}')
    || c == '\U{2028}' || c == '\U{2029}' || c == '\U{202F}' || c == '\U{205F}'
    || c == '\U{3000}' || c == '\U{FEFF}'
  }

  /** The characters a regular-expression `.` does not match. */
  predicate IsLineTerminator(c: char) {
    c == '\n' || c == '\r' || c == '\U{2028}' || c == '\U{2029}'
  }

  /** `\d`: an ASCII decimal digit. */
  predicate IsDigit(c: char) { '0' <= c <= '9' }

  /** `[A-Z]` */
  predicate IsUpper(c: char) { 'A' <= c <= 'Z' }

  predicate AllSpaces(s: string) { forall i :: 0 <= i < |s| ==> IsSpace(s[i]) }

  predicate AllDigits(s: string) { forall i :: 0 <= i < |s| ==> IsDigit(s[i]) }

  /** The character classes the patterns are made of: `\s`, `\d`, `[A-Z]` and `.`. */
  datatype CharClass = Space | Digit | Upper | NotTerminator

  predicate InClass(c: char, k: CharClass) {
    match k
    case Space => IsSpace(c)
    case Digit => IsDigit(c)
    case Upper => IsUpper(c)
    case NotTerminator => !IsLineTerminator(c)
  }

  /** The first index at or after `i` whose character is not in class `k` (or `|s|`): a greedy `k*`. */
  function SkipWhile(s: string, i: nat, k: CharClass): (j: nat)
    requires i <= |s|
    ensures i <= j <= |s|
    ensures forall m {:trigger InClass(s[m], k)} :: i <= m < j ==> InClass(s[m], k)
    ensures j < |s| ==> !InClass(s[j], k)
    decreases |s| - i
  {
    if i < |s| && InClass(s[i], k) then SkipWhile(s, i + 1, k) else i
  }

  // ---------------------------------------------------------------- trim

  /** The least index at or before `j` such that every character from there to `j` is in class `k`. */
  function SkipBackWhile(s: string, j: nat, k: CharClass): (i: nat)
    requires j <= |s|
    ensures i <= j
    ensures forall m {:trigger InClass(s[m], k)} :: i <= m < j ==> InClass(s[m], k)
    ensures i > 0 ==> !InClass(s[i - 1], k)
  {
    if j > 0 && InClass(s[j - 1], k) then SkipBackWhile(s, j - 1, k) else j
  }

  /** Where the text `trim` keeps begins: after the leading whitespace. */
  function TrimStart(s: string): (a: nat)
    ensures a <= |s| && AllSpaces(s[..a])
    ensures a < |s| ==> !IsSpace(s[a])
  {
    var a := SkipWhile(s, 0, Space);
    forall m | 0 <= m < a ensures IsSpace(s[..a][m]) {
      assert InClass(s[m], Space);
    }
    assert a < |s| ==> !InClass(s[a], Space);
    a
  }

  /** Where the text `trim` keeps ends: before the trailing whitespace, and not before its start. */
  function TrimEnd(s: string): (b: nat)
    ensures TrimStart(s) <= b <= |s| && AllSpaces(s[b..])
    ensures b > TrimStart(s) ==> !IsSpace(s[b - 1])
  {
    var a := TrimStart(s);
    var k := SkipBackWhile(s, |s|, Space);
    var b := if k < a then a else k;
    assert k < a ==> a == |s|;
    forall m | 0 <= m < |s| - b ensures IsSpace(s[b..][m]) {
      assert InClass(s[b + m], Space);
    }
    assert b > a ==> !InClass(s[b - 1], Space);
    b
  }

  /**
   * `String.prototype.trim`: the part of `s` between its leading and its
   * trailing whitespace; it neither starts nor ends with whitespace.
   */
  function Trim(s: string): (r: string)
    ensures |r| == TrimEnd(s) - TrimStart(s)
    ensures r == s[TrimStart(s)..TrimEnd(s)]
    ensures AllSpaces(s[..TrimStart(s)]) && AllSpaces(s[TrimEnd(s)..])
    ensures r == [] || (!IsSpace(r[0]) && !IsSpace(r[|r| - 1]))
  {
    s[TrimStart(s)..TrimEnd(s)]
  }

  lemma TrimIdempotent(s: string)
    ensures Trim(Trim(s)) == Trim(s)
  {
    var r := Trim(s);
    assert SkipWhile(r, 0, Space) == 0;
    assert SkipBackWhile(r, |r|, Space) == |r|;
  }

  // ---------------------------------------------------------------- split and join

  /** The index of the first `c` in `s`, or `|s|` when there is none. */
  function IndexOf(s: string, c: char): (k: nat)
    ensures k <= |s|
    ensures forall i :: 0 <= i < k ==> s[i] != c
    ensures k < |s| ==> s[k] == c
  {
    if |s| == 0 || s[0] == c then 0 else 1 + IndexOf(s[1..], c)
  }

  /** The pieces of `s` between the `c` separators, in order (`s.split(c)`). */
  function Split(s: string, c: char): (r: seq<string>)
    ensures |r| >= 1
    ensures forall i :: 0 <= i < |r| ==> c !in r[i]
    decreases |s|
  {
    var k := IndexOf(s, c);
    if k == |s| then [s] else [s[..k]] + Split(s[k + 1..], c)
  }

  /** Concatenation of sequences is associative. */
  lemma AppendAssoc<T>(x: seq<T>, y: seq<T>, z: seq<T>)
    ensures x + (y + z) == (x + y) + z
  {
  }

  /** `xs.join(sep)` */
  function Join(xs: seq<string>, sep: string): (r: string) {
    if |xs| == 0 then ""
    else if |xs| == 1 then xs[0]
    else xs[0] + sep + Join(xs[1..], sep)
  }

  /** Splitting and joining on the same character are inverse. */
  lemma {:induction false} JoinSplit(s: string, c: char)
    ensures Join(Split(s, c), [c]) == s
    decreases |s|
  {
    var k := IndexOf(s, c);
    if k < |s| {
      var rest := Split(s[k + 1..], c);
      JoinSplit(s[k + 1..], c);
      var pieces := [s[..k]] + rest;
      assert Split(s, c) == pieces;
      assert |rest| >= 1;
      assert pieces[0] == s[..k];
      assert pieces[1..] == rest;
      assert Join(pieces, [c]) == s[..k] + [c] + Join(rest, [c]);
      assert s == s[..k] + [c] + s[k + 1..];
    }
  }

  lemma {:induction false} SplitJoin(xs: seq<string>, c: char)
    requires |xs| >= 1
    requires forall i :: 0 <= i < |xs| ==> c !in xs[i]
    ensures Split(Join(xs, [c]), c) == xs
    decreases |xs|
  {
    if |xs| == 1 {
      assert IndexOf(xs[0], c) == |xs[0]|;
    } else {
      var rest := Join(xs[1..], [c]);
      assert Join(xs, [c]) == xs[0] + [c] + rest;
      SplitCons(xs[0], rest, c);
      SplitJoin(xs[1..], c);
    }
  }

  /** A piece without the separator, the separator, then more: the piece is split off first. */
  lemma SplitCons(a: string, rest: string, c: char)
    requires c !in a
    ensures Split(a + [c] + rest, c) == [a] + Split(rest, c)
  {
    var s := a + [c] + rest;
    assert s == a + ([c] + rest);
    IndexOfPrefix(a, [c] + rest, c);
    assert s[..|a|] == a;
    assert s[|a| + 1..] == rest;
  }

  lemma {:induction false} IndexOfPrefix(a: string, b: string, c: char)
    requires c !in a
    requires |b| > 0 && b[0] == c
    ensures IndexOf(a + b, c) == |a|
    decreases |a|
  {
    if |a| > 0 {
      IndexOfPrefix(a[1..], b, c);
      assert (a + b)[1..] == a[1..] + b;
    }
  }

  /**
   * Drops one trailing `c`: a carriage return before a line feed in
   * `split(/\r?\n/)`, a comma in `replace(/,$/, '')`.
   */
  function DropLast(s: string, c: char): (r: string)
    ensures if |s| > 0 && s[|s| - 1] == c then s == r + [c] else r == s
  {
    if |s| > 0 && s[|s| - 1] == c then s[..|s| - 1] else s
  }

  /**
   * `text.split(/\r?\n/)`: every line feed separates two pieces and takes a
   * carriage return just before it along; the last piece keeps its own.
   */
  function SplitLines(text: string): (r: seq<string>)
    ensures |r| == |Split(text, '\n')|
    ensures forall i :: 0 <= i < |r| ==> '\n' !in r[i]
    ensures forall i :: 0 <= i < |r| - 1 ==>
              var piece := Split(text, '\n')[i];
              if |piece| > 0 && piece[|piece| - 1] == '\r' then piece == r[i] + "\r" else r[i] == piece
    ensures r[|r| - 1] == Split(text, '\n')[|r| - 1]
  {
    var pieces := Split(text, '\n');
    seq(|pieces|, i requires 0 <= i < |pieces| =>
      if i < |pieces| - 1 then DropLast(pieces[i], '\r') else pieces[i])
  }

  /** The lines of the pasted text, trimmed, as the parser sees them. */
  function TrimmedLines(text: string): (r: seq<string>)
    ensures |r| == |SplitLines(text)|
    ensures forall i :: 0 <= i < |r| ==> r[i] == Trim(SplitLines(text)[i])
  {
    var ls := SplitLines(text);
    seq(|ls|, i requires 0 <= i < |ls| => Trim(ls[i]))
  }

  // ---------------------------------------------------------------- numbers

  function Pow10(n: nat): (r: nat)
    ensures r >= 1
  {
    if n == 0 then 1 else 10 * Pow10(n - 1)
  }

  /**
   * `parseInt(s, 10)` for a run of decimal digits; the parser only reads
   * the non-empty fields of a date token, so the empty run's 0 is never used.
   */
  function DigitsValue(s: string): (n: nat)
    requires AllDigits(s)
  {
    if |s| == 0 then 0
    else DigitsValue(s[..|s| - 1]) * 10 + (s[|s| - 1] as int - '0' as int)
  }

  /** `n` digits stand for a number below `10^n`. */
  lemma {:induction false} DigitsValueBound(s: string)
    requires AllDigits(s)
    ensures DigitsValue(s) < Pow10(|s|)
  {
    if |s| > 0 {
      DigitsValueBound(s[..|s| - 1]);
    }
  }
}
