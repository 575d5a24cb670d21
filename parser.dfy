/**
 * `parseCourseComponents`: the pasted schedule, as trimmed lines, becomes
 * the list of class meetings. Outside a table the scanner looks for
 * course-title and header lines; after a header it reads fixed-shape class
 * blocks for as long as each one starts with a class number.
 */
module Parser {
  import opened Wrappers
  import opened Text
  import opened Patterns
  import opened Dates
  import opened Times

  /** `CourseComponent`: one class meeting of a course. */
  datatype CourseComponent = CourseComponent(
    courseName: string,
    component: string,
    section: string,
    days: seq<Day>,
    startTime: string,
    endTime: string,
    room: string,
    instructor: string,
    startDate: CalendarDate,
    endDate: CalendarDate)

  const UnknownCourse: string := "Unknown Course"

  /**
   * A class block the scanner accepted: the class number at line `at`, the
   * date range `range` matched in line `datesAt`, read under the course name
   * `courseName`; `daysTimes` is what its days-and-times line decodes to.
   */
  datatype Block = Block(at: nat, datesAt: nat, courseName: string, daysTimes: DaysTimes, range: DateRange)

  // ---------------------------------------------------------------- blocks

  /** The instructor list of a block: its non-empty lines, each without its trailing comma. */
  function Instructors(ls: seq<string>): (r: seq<string>)
    ensures |r| <= |ls|
  {
    if |ls| == 0 then []
    else Instructors(ls[..|ls| - 1]) + (if ls[|ls| - 1] != "" then [DropLast(ls[|ls| - 1], ',')] else [])
  }

  /** The instructors of two runs of lines, one after the other, are those of each run in order. */
  lemma {:induction false} InstructorsAppend(a: seq<string>, b: seq<string>)
    ensures Instructors(a + b) == Instructors(a) + Instructors(b)
    decreases |b|
  {
    if |b| == 0 {
      assert a + b == a;
    } else {
      var last := if b[|b| - 1] != "" then [DropLast(b[|b| - 1], ',')] else [];
      assert (a + b)[..|a + b| - 1] == a + b[..|b| - 1];
      InstructorsAppend(a, b[..|b| - 1]);
      AppendAssoc(Instructors(a), Instructors(b[..|b| - 1]), last);
    }
  }

  /** One line gives one instructor, without its trailing comma, unless the line is empty. */
  lemma InstructorsOne(l: string)
    ensures Instructors([l]) == if l == "" then [] else [DropLast(l, ',')]
  {
    assert [l][..0] == [];
  }

  /**
   * What the scanner needs to know about one line: which of the line
   * patterns it matches, and what it decodes to as a days-and-times cell.
   */
  datatype LineKind = LineKind(
    title: bool, header: bool, classNumber: bool, tba: bool, dates: Option<DateRange>, daysTimes: DaysTimes)

  function Classify(line: string): (k: LineKind)
    ensures k.dates.Some? ==> |k.dates.value.first| == 10 && |k.dates.value.last| == 10
  {
    LineKind(IsCourseTitle(line), IsHeader(line), IsClassNumber(line), IsTba(line), MatchDates(line), DaysAndTimes(line))
  }

  /** Every date range a line kind holds is made of two ten-character captures. */
  predicate ValidKinds(ks: seq<LineKind>) {
    forall i :: 0 <= i < |ks| && ks[i].dates.Some? ==>
      |ks[i].dates.value.first| == 10 && |ks[i].dates.value.last| == 10
  }

  /** The kinds of all lines, in order. */
  function Kinds(lines: seq<string>): (ks: seq<LineKind>)
    ensures |ks| == |lines|
    ensures ValidKinds(ks)
  {
    if |lines| == 0 then [] else Kinds(lines[..|lines| - 1]) + [Classify(lines[|lines| - 1])]
  }

  lemma {:induction false} KindAt(lines: seq<string>, i: nat)
    requires i < |lines|
    ensures Kinds(lines)[i] == Classify(lines[i])
  {
    if i < |lines| - 1 {
      KindAt(lines[..|lines| - 1], i);
    }
  }

  /**
   * `ks` records the kind of every line. The quantifier is only instantiated
   * where a line is classified, so a proof about the scanner does not see
   * how the patterns are matched.
   */
  predicate Classified(lines: seq<string>, ks: seq<LineKind>) {
    |ks| == |lines| && ValidKinds(ks)
    && forall i {:trigger Classify(lines[i])} :: 0 <= i < |lines| ==> ks[i] == Classify(lines[i])
  }

  lemma KindsClassified(lines: seq<string>)
    ensures Classified(lines, Kinds(lines))
  {
    forall i | 0 <= i < |lines|
      ensures Kinds(lines)[i] == Classify(lines[i])
    {
      KindAt(lines, i);
    }
  }

  // What `ks` records about one line, one field at a time, so that a proof
  // sees only the pattern it needs.

  lemma TitleAt(lines: seq<string>, ks: seq<LineKind>, i: nat)
    requires Classified(lines, ks) && i < |lines|
    ensures ks[i].title == IsCourseTitle(lines[i])
  {
    assert ks[i] == Classify(lines[i]);
  }

  lemma HeaderAt(lines: seq<string>, ks: seq<LineKind>, i: nat)
    requires Classified(lines, ks) && i < |lines|
    ensures ks[i].header == IsHeader(lines[i])
  {
    assert ks[i] == Classify(lines[i]);
  }

  lemma ClassNumberAt(lines: seq<string>, ks: seq<LineKind>, i: nat)
    requires Classified(lines, ks) && i < |lines|
    ensures ks[i].classNumber == IsClassNumber(lines[i])
  {
    assert ks[i] == Classify(lines[i]);
  }

  lemma CellAt(lines: seq<string>, ks: seq<LineKind>, i: nat)
    requires Classified(lines, ks) && i < |lines|
    ensures ks[i].tba == IsTba(lines[i]) && ks[i].daysTimes == DaysAndTimes(lines[i])
  {
    assert ks[i] == Classify(lines[i]);
  }

  lemma DatesAtLine(lines: seq<string>, ks: seq<LineKind>, i: nat)
    requires Classified(lines, ks) && i < |lines|
    ensures ks[i].dates == MatchDates(lines[i])
  {
    assert ks[i] == Classify(lines[i]);
  }

  // The pattern tests of the converter, one method each. A caller sees only
  // that the answer is the one recorded in `ks`, not how a pattern is matched.

  /** `courseNameLinePattern.test(lines[i])` */
  method TestTitle(lines: seq<string>, ghost ks: seq<LineKind>, i: nat) returns (b: bool)
    requires Classified(lines, ks) && i < |lines|
    ensures b == ks[i].title
  {
    assert ks[i] == Classify(lines[i]);
    b := IsCourseTitle(lines[i]);
  }

  /** `headerPattern.test(lines[i])` */
  method TestHeader(lines: seq<string>, ghost ks: seq<LineKind>, i: nat) returns (b: bool)
    requires Classified(lines, ks) && i < |lines|
    ensures b == ks[i].header
  {
    assert ks[i] == Classify(lines[i]);
    b := IsHeader(lines[i]);
  }

  /** `/^\d+$/.test(lines[i])` */
  method TestClassNumber(lines: seq<string>, ghost ks: seq<LineKind>, i: nat) returns (b: bool)
    requires Classified(lines, ks) && i < |lines|
    ensures b == ks[i].classNumber
  {
    assert ks[i] == Classify(lines[i]);
    b := IsClassNumber(lines[i]);
  }

  /** `lines[i].toUpperCase() === 'TBA'` */
  method TestTba(lines: seq<string>, ghost ks: seq<LineKind>, i: nat) returns (b: bool)
    requires Classified(lines, ks) && i < |lines|
    ensures b == ks[i].tba
  {
    assert ks[i] == Classify(lines[i]);
    b := IsTba(lines[i]);
  }

  /** `lines[i].match(datesPattern)`; `datesPattern.test` is whether it matched. */
  method FindDates(lines: seq<string>, ghost ks: seq<LineKind>, i: nat) returns (m: Option<DateRange>)
    requires Classified(lines, ks) && i < |lines|
    ensures m == ks[i].dates
  {
    assert ks[i] == Classify(lines[i]);
    m := MatchDates(lines[i]);
  }

  /** `parseDaysAndTimes(lines[i])` */
  method ReadDaysAndTimes(lines: seq<string>, ghost ks: seq<LineKind>, i: nat) returns (r: DaysTimes)
    requires Classified(lines, ks) && i < |lines|
    ensures r == ks[i].daysTimes
  {
    assert ks[i] == Classify(lines[i]);
    r := ParseDaysAndTimes(lines[i]);
  }

  /** The first line at or after `j` that contains a date range, or the number of lines. */
  function NextDatesLine(ks: seq<LineKind>, j: nat): (q: nat)
    requires j <= |ks|
    ensures j <= q <= |ks|
    ensures q < |ks| ==> ks[q].dates.Some?
    decreases |ks| - j
  {
    if j == |ks| || ks[j].dates.Some? then j else NextDatesLine(ks, j + 1)
  }

  /** A block that yields a record: five lines before the dates line, and two ten-character date captures. */
  predicate IsBlock(lines: seq<string>, b: Block) {
    b.at + 5 <= b.datesAt < |lines| && |b.range.first| == 10 && |b.range.last| == 10
  }

  predicate AllBlocks(lines: seq<string>, bs: seq<Block>) {
    forall k :: 0 <= k < |bs| ==> IsBlock(lines, bs[k])
  }

  /**
   * The record a block describes, as the object literal of the converter
   * builds it: section, component and room are the first, second and fourth
   * lines after the class number, the instructors are joined with `, `, and
   * on a block read from the lines the days, times and dates come from the
   * days-and-times line and the dates line.
   */
  function BlockRecord(lines: seq<string>, b: Block): (c: CourseComponent)
    requires IsBlock(lines, b)
    ensures c.courseName == b.courseName
    ensures c.section == lines[b.at + 1] && c.component == lines[b.at + 2] && c.room == lines[b.at + 4]
    ensures c.instructor == Join(Instructors(lines[b.at + 5..b.datesAt]), ", ")
    ensures ReadFrom(lines, b) ==>
              var dt := DaysAndTimes(lines[b.at + 3]);
              var dr := MatchDates(lines[b.datesAt]).value;
              && c.days == dt.days && c.startTime == dt.startTime && c.endTime == dt.endTime
              && c.startDate == ParseDate(dr.first) && c.endDate == ParseDate(dr.last)
  {
    CourseComponent(
      b.courseName, lines[b.at + 2], lines[b.at + 1], b.daysTimes.days, b.daysTimes.startTime, b.daysTimes.endTime, lines[b.at + 4],
      Join(Instructors(lines[b.at + 5..b.datesAt]), ", "), ParseDate(b.range.first), ParseDate(b.range.last))
  }

  // ---------------------------------------------------------------- the state machine

  /** The scanner outside a table, at line `i`, with `name` the current course name. */
  function ScanOuter(lines: seq<string>, ks: seq<LineKind>, i: nat, name: string): (r: seq<Block>)
    requires i <= |lines| == |ks| && ValidKinds(ks)
    ensures AllBlocks(lines, r)
    decreases |lines| - i, 0
  {
    if i == |lines| then []
    else if ks[i].title then ScanOuter(lines, ks, i + 1, lines[i])
    else if ks[i].header then ScanTable(lines, ks, i + 1, name)
    else ScanOuter(lines, ks, i + 1, name)
  }

  /** The scanner inside a table, expecting a class number at line `i`. */
  function ScanTable(lines: seq<string>, ks: seq<LineKind>, i: nat, name: string): (r: seq<Block>)
    requires i <= |lines| == |ks| && ValidKinds(ks)
    ensures AllBlocks(lines, r)
    decreases |lines| - i, 1
  {
    if i == |lines| then []
    else if !ks[i].classNumber then ScanOuter(lines, ks, i, name)
    else if i + 1 + 4 >= |lines| then ScanOuter(lines, ks, i + 1, name)
    else
      var q := NextDatesLine(ks, i + 5);
      if q == |lines| then []
      else
        var rest := ScanTable(lines, ks, q + 1, name);
        if ks[i + 3].tba then rest
        else [Block(i, q, name, ks[i + 3].daysTimes, ks[q].dates.value)] + rest
  }

  /** The blocks the parser reads from the given lines. */
  function Parse(lines: seq<string>): (r: seq<Block>)
    ensures AllBlocks(lines, r)
  {
    ScanOuter(lines, Kinds(lines), 0, UnknownCourse)
  }

  /**
   * `cs` are the records of the blocks `bs`, one for one and in order. The
   * quantifier is only instantiated where a block's record is mentioned.
   */
  predicate RecordsOf(lines: seq<string>, bs: seq<Block>, cs: seq<CourseComponent>)
    requires AllBlocks(lines, bs)
  {
    |cs| == |bs| && forall k {:trigger BlockRecord(lines, bs[k])} :: 0 <= k < |bs| ==> cs[k] == BlockRecord(lines, bs[k])
  }

  /** The scanner outside a table, one step. */
  lemma ScanOuterStep(lines: seq<string>, ks: seq<LineKind>, i: nat, name: string)
    requires i < |lines| == |ks| && ValidKinds(ks)
    ensures ScanOuter(lines, ks, i, name)
            == if ks[i].title then ScanOuter(lines, ks, i + 1, lines[i])
               else if ks[i].header then ScanTable(lines, ks, i + 1, name)
               else ScanOuter(lines, ks, i + 1, name)
  {
  }

  /** A line without a class number leaves the table and is looked at again outside it. */
  lemma ScanTableLeaves(lines: seq<string>, ks: seq<LineKind>, i: nat, name: string)
    requires i < |lines| == |ks| && ValidKinds(ks) && !ks[i].classNumber
    ensures ScanTable(lines, ks, i, name) == ScanOuter(lines, ks, i, name)
  {
  }

  /** A class number with fewer than five lines after it leaves the table at the next line. */
  lemma ScanTableShort(lines: seq<string>, ks: seq<LineKind>, i: nat, name: string)
    requires i < |lines| == |ks| && ValidKinds(ks) && ks[i].classNumber && i + 5 >= |lines|
    ensures ScanTable(lines, ks, i, name) == ScanOuter(lines, ks, i + 1, name)
  {
  }

  /** A block whose dates line is missing ends the scan. */
  lemma ScanTableNoDates(lines: seq<string>, ks: seq<LineKind>, i: nat, name: string)
    requires i < |lines| == |ks| && ValidKinds(ks) && ks[i].classNumber && i + 5 < |lines|
    requires NextDatesLine(ks, i + 5) == |lines|
    ensures ScanTable(lines, ks, i, name) == []
  {
  }

  /** A complete block contributes itself, unless its days are TBA, and the table goes on. */
  lemma ScanTableBlock(lines: seq<string>, ks: seq<LineKind>, i: nat, q: nat, name: string)
    requires i < |lines| == |ks| && ValidKinds(ks) && ks[i].classNumber && i + 5 < |lines|
    requires q == NextDatesLine(ks, i + 5) < |lines|
    ensures ks[i + 3].tba ==> ScanTable(lines, ks, i, name) == ScanTable(lines, ks, q + 1, name)
    ensures !ks[i + 3].tba ==>
              ScanTable(lines, ks, i, name) == [Block(i, q, name, ks[i + 3].daysTimes, ks[q].dates.value)] + ScanTable(lines, ks, q + 1, name)
  {
  }

  /**
   * Lines 124-132 of the converter: the instructor lines of a block, up to
   * the line that holds its date range.
   */
  method ReadInstructors(lines: seq<string>, ghost ks: seq<LineKind>, first: nat)
    returns (instructors: seq<string>, index: nat)
    requires Classified(lines, ks) && first <= |lines|
    ensures index == NextDatesLine(ks, first)
    ensures instructors == Instructors(lines[first..index])
  {
    instructors := [];
    index := first;
    while index < |lines|
      invariant first <= index <= |lines|
      invariant NextDatesLine(ks, index) == NextDatesLine(ks, first)
      invariant instructors == Instructors(lines[first..index])
      decreases |lines| - index
    {
      var dates := FindDates(lines, ks, index);
      if dates.Some? {
        break;
      }
      var instructorLine := lines[index];
      assert lines[first..index + 1][..index - first] == lines[first..index];
      assert Instructors(lines[first..index + 1]) == Instructors(lines[first..index])
             + (if instructorLine != "" then [DropLast(instructorLine, ',')] else []);
      if instructorLine != "" {
        instructors := instructors + [DropLast(instructorLine, ',')];
      }
      index := index + 1;
    }
  }

  /** The record assembled from the lines of a block, field by field, is the block's record. */
  lemma RecordOfLines(lines: seq<string>, b: Block, instructors: seq<string>, c: CourseComponent)
    requires b.at + 5 <= b.datesAt < |lines|
    requires |b.range.first| == 10 && |b.range.last| == 10
    requires instructors == Instructors(lines[b.at + 5..b.datesAt])
    requires c == CourseComponent(
               b.courseName, lines[b.at + 2], lines[b.at + 1], b.daysTimes.days, b.daysTimes.startTime,
               b.daysTimes.endTime, lines[b.at + 4], Join(instructors, ", "),
               ParseDate(b.range.first), ParseDate(b.range.last))
    ensures IsBlock(lines, b) && c == BlockRecord(lines, b)
  {
  }

  /** How one class entry ends: too few lines, no dates line, a TBA class, or a record. */
  datatype Entry = Short | NoDates | Skipped | Record(component: CourseComponent)

  /**
   * Lines 107-182 of the converter: one class entry, from the line after its
   * class number at `classAt`. `next` is where the table goes on, and `block`
   * is the block the entry stands for when it yields a record. The `else`
   * branch at line 152 that falls back to the current date is unreachable:
   * the instructor loop stops only at a line that contains a date range, or
   * at the end, which leaves the table first.
   */
  method ReadEntry(lines: seq<string>, ghost ks: seq<LineKind>, classAt: nat, name: string)
    returns (entry: Entry, next: nat, ghost block: Block)
    requires Classified(lines, ks) && classAt < |lines|
    ensures entry.Short? <==> classAt + 5 >= |lines|
    ensures entry.NoDates? <==> classAt + 5 < |lines| && NextDatesLine(ks, classAt + 5) == |lines|
    ensures (entry.Skipped? || entry.Record?) ==>
              classAt + 5 < |lines| && next == NextDatesLine(ks, classAt + 5) + 1 <= |lines|
              && (entry.Skipped? <==> ks[classAt + 3].tba)
    ensures entry.Record? ==>
              block == Block(classAt, next - 1, name, ks[classAt + 3].daysTimes, ks[next - 1].dates.value)
              && IsBlock(lines, block) && entry.component == BlockRecord(lines, block)
  {
    var index := classAt + 1;
    next := index;
    block := Block(0, 0, "", DaysTimes([], "", ""), DateRange("", ""));
    if index + 4 >= |lines| {
      return Short, next, block;
    }
    var section := lines[index];
    index := index + 1;
    var component := lines[index];
    index := index + 1;
    var daysTimes := lines[index];
    index := index + 1;
    var room := lines[index];
    index := index + 1;

    var instructors;
    instructors, index := ReadInstructors(lines, ks, index);
    var instructor := Join(instructors, ", ");

    if index >= |lines| {
      return NoDates, index, block;
    }

    var datesMatch := FindDates(lines, ks, index);
    var startDate := ParseDate(datesMatch.value.first);
    var endDate := ParseDate(datesMatch.value.last);

    index := index + 1;
    next := index;

    var parsed := ReadDaysAndTimes(lines, ks, classAt + 3);

    var isTba := TestTba(lines, ks, classAt + 3);
    if isTba {
      return Skipped, next, block;
    }

    var courseComponent := CourseComponent(
      name, component, section, parsed.days, parsed.startTime, parsed.endTime,
      room, instructor, startDate, endDate);
    block := Block(classAt, index - 1, name, parsed, datesMatch.value);
    RecordOfLines(lines, block, instructors, courseComponent);
    entry := Record(courseComponent);
  }

  /**
   * Lines 99-187 of the converter: the class blocks of one table, from the
   * line after its header up to the line the table ends at, `next`.
   */
  method ReadTable(lines: seq<string>, ghost ks: seq<LineKind>, start: nat, name: string)
    returns (components: seq<CourseComponent>, next: nat, ghost blocks: seq<Block>)
    requires Classified(lines, ks) && start <= |lines|
    ensures start <= next <= |lines|
    ensures AllBlocks(lines, blocks)
    ensures blocks + ScanOuter(lines, ks, next, name) == ScanTable(lines, ks, start, name)
    ensures RecordsOf(lines, blocks, components)
  {
    components := [];
    blocks := [];
    var index := start;
    while index < |lines|
      invariant start <= index <= |lines|
      invariant AllBlocks(lines, blocks)
      invariant blocks + ScanTable(lines, ks, index, name) == ScanTable(lines, ks, start, name)
      invariant RecordsOf(lines, blocks, components)
      decreases |lines| - index
    {
      var isClassNumber := TestClassNumber(lines, ks, index);
      if !isClassNumber {
        ScanTableLeaves(lines, ks, index, name);
        break;
      }
      var classAt := index;
      var entry, after, block := ReadEntry(lines, ks, classAt, name);
      match entry
      case Short =>
        ScanTableShort(lines, ks, classAt, name);
        index := classAt + 1;
        break;
      case NoDates =>
        ScanTableNoDates(lines, ks, classAt, name);
        index := |lines|;
        break;
      case Skipped =>
        ScanTableBlock(lines, ks, classAt, after - 1, name);
        index := after;
      case Record(courseComponent) =>
        ScanTableBlock(lines, ks, classAt, after - 1, name);
        assert [block][0] == block;
        RecordsOfAppend(lines, blocks, components, [block], [courseComponent]);
        AppendAssoc(blocks, [block], ScanTable(lines, ks, after, name));
        blocks := blocks + [block];
        components := components + [courseComponent];
        index := after;
    }
    next := index;
  }

  /**
   * Lines 70-195 of the converter: the pasted text is split into trimmed
   * lines, which are then scanned.
   */
  method ParseCourseComponents(text: string) returns (componentsList: seq<CourseComponent>)
    ensures RecordsOf(TrimmedLines(text), Parse(TrimmedLines(text)), componentsList)
  {
    componentsList := ParseLines(TrimmedLines(text));
  }

  /** The scan of `parseCourseComponents` over the trimmed lines, one record per matched row. */
  method ParseLines(lines: seq<string>) returns (componentsList: seq<CourseComponent>)
    ensures RecordsOf(lines, Parse(lines), componentsList)
  {
    ghost var ks := Kinds(lines);
    KindsClassified(lines);
    componentsList := [];
    var currentCourseName := UnknownCourse;
    var index := 0;
    ghost var blocks: seq<Block> := [];
    while index < |lines|
      invariant index <= |lines|
      invariant AllBlocks(lines, blocks)
      invariant blocks + ScanOuter(lines, ks, index, currentCourseName) == Parse(lines)
      invariant RecordsOf(lines, blocks, componentsList)
      decreases |lines| - index
    {
      var line := lines[index];
      ScanOuterStep(lines, ks, index, currentCourseName);
      var isTitle := TestTitle(lines, ks, index);
      if isTitle {
        currentCourseName := line;
        index := index + 1;
        continue;
      }
      var isHeader := TestHeader(lines, ks, index);
      if isHeader {
        var tableComponents;
        ghost var tableBlocks;
        tableComponents, index, tableBlocks := ReadTable(lines, ks, index + 1, currentCourseName);
        RecordsOfAppend(lines, blocks, componentsList, tableBlocks, tableComponents);
        AppendAssoc(blocks, tableBlocks, ScanOuter(lines, ks, index, currentCourseName));
        blocks := blocks + tableBlocks;
        componentsList := componentsList + tableComponents;
      } else {
        index := index + 1;
      }
    }
    assert blocks + [] == blocks;
  }

  /** The records of two lists of blocks, one after the other. */
  lemma RecordsOfAppend(lines: seq<string>, a: seq<Block>, ca: seq<CourseComponent>, b: seq<Block>, cb: seq<CourseComponent>)
    requires AllBlocks(lines, a) && AllBlocks(lines, b)
    requires RecordsOf(lines, a, ca) && RecordsOf(lines, b, cb)
    ensures AllBlocks(lines, a + b)
    ensures RecordsOf(lines, a + b, ca + cb)
  {
    forall k | 0 <= k < |a + b|
      ensures IsBlock(lines, (a + b)[k])
    {
      if k < |a| {
        assert (a + b)[k] == a[k];
      } else {
        assert (a + b)[k] == b[k - |a|];
      }
    }
    forall k | 0 <= k < |a + b|
      ensures (ca + cb)[k] == BlockRecord(lines, (a + b)[k])
    {
      if k < |a| {
        assert (a + b)[k] == a[k];
        assert (ca + cb)[k] == ca[k] == BlockRecord(lines, a[k]);
      } else {
        assert (a + b)[k] == b[k - |a|];
        assert (ca + cb)[k] == cb[k - |a|] == BlockRecord(lines, b[k - |a|]);
      }
    }
  }

  // ---------------------------------------------------------------- what the scanner reads

  /** No line between `j` and the line `NextDatesLine` finds holds a date range. */
  lemma {:induction false} NextDatesLineSkips(ks: seq<LineKind>, j: nat)
    requires j <= |ks|
    ensures forall m :: j <= m < NextDatesLine(ks, j) ==> ks[m].dates.None?
    decreases |ks| - j
  {
    if j < |ks| && ks[j].dates.None? {
      NextDatesLineSkips(ks, j + 1);
    }
  }

  /**
   * A block read by a scan that started at line `from` under the course name
   * `name`: it starts at a class number at or after `from`, its days are not
   * TBA, its dates line is the first one after its room line, and its course
   * name is `name` or a title line the scan passed.
   */
  ghost predicate Placed(lines: seq<string>, ks: seq<LineKind>, b: Block, from: nat, name: string)
    requires |ks| == |lines|
  {
    && from <= b.at && b.at + 5 <= b.datesAt < |ks|
    && ks[b.at].classNumber && !ks[b.at + 3].tba
    && b.datesAt == NextDatesLine(ks, b.at + 5)
    && ks[b.datesAt].dates == Some(b.range)
    && b.daysTimes == ks[b.at + 3].daysTimes
    && (b.courseName == name || exists t :: from <= t < b.at && ks[t].title && b.courseName == lines[t])
  }

  ghost predicate AllPlaced(lines: seq<string>, ks: seq<LineKind>, bs: seq<Block>, from: nat, name: string)
    requires |ks| == |lines|
  {
    forall k :: 0 <= k < |bs| ==> Placed(lines, ks, bs[k], from, name)
  }

  /** Each block ends before the next one starts. */
  predicate InOrder(bs: seq<Block>) {
    forall k :: 0 <= k < |bs| - 1 ==> bs[k].datesAt < bs[k + 1].at
  }

  /** A title line at `i` starts a scan whose blocks carry `lines[i]` or a later title. */
  lemma PlacedAfterTitle(lines: seq<string>, ks: seq<LineKind>, bs: seq<Block>, i: nat, name: string)
    requires i < |lines| == |ks| && ks[i].title
    requires AllPlaced(lines, ks, bs, i + 1, lines[i])
    ensures AllPlaced(lines, ks, bs, i, name)
  {
    forall k | 0 <= k < |bs|
      ensures Placed(lines, ks, bs[k], i, name)
    {
      var b := bs[k];
      if b.courseName == lines[i] {
        assert i <= i < b.at && ks[i].title && b.courseName == lines[i];
      } else {
        var t :| i + 1 <= t < b.at && ks[t].title && b.courseName == lines[t];
        assert i <= t < b.at;
      }
    }
  }

  lemma PlacedLater(lines: seq<string>, ks: seq<LineKind>, bs: seq<Block>, i: nat, j: nat, name: string)
    requires |lines| == |ks| && i <= j
    requires AllPlaced(lines, ks, bs, j, name)
    ensures AllPlaced(lines, ks, bs, i, name)
  {
    forall k | 0 <= k < |bs|
      ensures Placed(lines, ks, bs[k], i, name)
    {
      var b := bs[k];
      if b.courseName != name {
        var t :| j <= t < b.at && ks[t].title && b.courseName == lines[t];
        assert i <= t < b.at;
      }
    }
  }

  lemma PlacedCons(lines: seq<string>, ks: seq<LineKind>, b: Block, bs: seq<Block>, i: nat, name: string)
    requires |lines| == |ks|
    requires Placed(lines, ks, b, i, name) && b.courseName == name
    requires AllPlaced(lines, ks, bs, b.datesAt + 1, name) && InOrder(bs)
    ensures AllPlaced(lines, ks, [b] + bs, i, name) && InOrder([b] + bs)
  {
    PlacedLater(lines, ks, bs, i, b.datesAt + 1, name);
    forall k | 0 <= k < |bs| ensures ([b] + bs)[k + 1] == bs[k] {}
    if |bs| > 0 {
      assert Placed(lines, ks, bs[0], b.datesAt + 1, name);
    }
  }

  /** Every block the outer scanner reads from line `i` on is placed, and they come in order. */
  lemma {:induction false} ScanOuterPlaced(lines: seq<string>, ks: seq<LineKind>, i: nat, name: string)
    requires i <= |lines| == |ks| && ValidKinds(ks)
    ensures AllPlaced(lines, ks, ScanOuter(lines, ks, i, name), i, name)
    ensures InOrder(ScanOuter(lines, ks, i, name))
    decreases |lines| - i, 0
  {
    if i < |lines| {
      if ks[i].title {
        ScanOuterPlaced(lines, ks, i + 1, lines[i]);
        PlacedAfterTitle(lines, ks, ScanOuter(lines, ks, i + 1, lines[i]), i, name);
      } else if ks[i].header {
        ScanTablePlaced(lines, ks, i + 1, name);
        PlacedLater(lines, ks, ScanTable(lines, ks, i + 1, name), i, i + 1, name);
      } else {
        ScanOuterPlaced(lines, ks, i + 1, name);
        PlacedLater(lines, ks, ScanOuter(lines, ks, i + 1, name), i, i + 1, name);
      }
    }
  }

  lemma {:induction false} ScanTablePlaced(lines: seq<string>, ks: seq<LineKind>, i: nat, name: string)
    requires i <= |lines| == |ks| && ValidKinds(ks)
    ensures AllPlaced(lines, ks, ScanTable(lines, ks, i, name), i, name)
    ensures InOrder(ScanTable(lines, ks, i, name))
    decreases |lines| - i, 1
  {
    if i == |lines| {
    } else if !ks[i].classNumber {
      ScanOuterPlaced(lines, ks, i, name);
    } else if i + 5 >= |lines| {
      ScanOuterPlaced(lines, ks, i + 1, name);
      PlacedLater(lines, ks, ScanOuter(lines, ks, i + 1, name), i, i + 1, name);
    } else {
      var q := NextDatesLine(ks, i + 5);
      if q < |lines| {
        var rest := ScanTable(lines, ks, q + 1, name);
        ScanTablePlaced(lines, ks, q + 1, name);
        if ks[i + 3].tba {
          PlacedLater(lines, ks, rest, i, q + 1, name);
        } else {
          var b := Block(i, q, name, ks[i + 3].daysTimes, ks[q].dates.value);
          PlacedCons(lines, ks, b, rest, i, name);
        }
      }
    }
  }

  /** Without a header line the outer scanner reads no block. */
  lemma {:induction false} ScanOuterWithoutHeader(lines: seq<string>, ks: seq<LineKind>, i: nat, name: string)
    requires i <= |lines| == |ks| && ValidKinds(ks)
    requires forall j :: i <= j < |lines| ==> !ks[j].header
    ensures ScanOuter(lines, ks, i, name) == []
    decreases |lines| - i
  {
    if i < |lines| {
      ScanOuterWithoutHeader(lines, ks, i + 1, if ks[i].title then lines[i] else name);
    }
  }

  // ---------------------------------------------------------------- properties of the parser

  /**
   * What a block of the parser says about the lines: a class-number line,
   * then section, component, days-and-times and room lines, the instructor
   * lines, and the first line after them that holds a date range. Its days
   * and times are not TBA, and its course name is "Unknown Course" or a
   * course-title line above the block.
   */
  ghost predicate ReadFrom(lines: seq<string>, b: Block) {
    && b.at + 5 <= b.datesAt < |lines|
    && IsClassNumber(lines[b.at])
    && !IsTba(lines[b.at + 3])
    && b.daysTimes == DaysAndTimes(lines[b.at + 3])
    && (forall j :: b.at + 5 <= j < b.datesAt ==> !HasDates(lines[j]))
    && MatchDates(lines[b.datesAt]) == Some(b.range)
    && (b.courseName == UnknownCourse
        || exists t :: 0 <= t < b.at && IsCourseTitle(lines[t]) && b.courseName == lines[t])
  }

  /** A block placed by a scan from the first line is read from the lines. */
  lemma PlacedIsReadFrom(lines: seq<string>, ks: seq<LineKind>, b: Block)
    requires Classified(lines, ks) && Placed(lines, ks, b, 0, UnknownCourse)
    ensures ReadFrom(lines, b)
  {
    ClassNumberAt(lines, ks, b.at);
    CellAt(lines, ks, b.at + 3);
    DatesAtLine(lines, ks, b.datesAt);
    NextDatesLineSkips(ks, b.at + 5);
    forall j | b.at + 5 <= j < b.datesAt
      ensures !HasDates(lines[j])
    {
      DatesAtLine(lines, ks, j);
    }
    if b.courseName != UnknownCourse {
      var t :| 0 <= t < b.at && ks[t].title && b.courseName == lines[t];
      TitleAt(lines, ks, t);
    }
  }

  /** Every block of the parser is read from the lines, and the blocks do not overlap and come in order. */
  lemma ParsedBlocks(lines: seq<string>)
    ensures forall k :: 0 <= k < |Parse(lines)| ==> ReadFrom(lines, Parse(lines)[k])
    ensures InOrder(Parse(lines))
  {
    var ks := Kinds(lines);
    KindsClassified(lines);
    ScannedBlocks(lines, ks);
  }

  lemma ScannedBlocks(lines: seq<string>, ks: seq<LineKind>)
    requires Classified(lines, ks)
    ensures forall k :: 0 <= k < |ScanOuter(lines, ks, 0, UnknownCourse)| ==>
              ReadFrom(lines, ScanOuter(lines, ks, 0, UnknownCourse)[k])
    ensures InOrder(ScanOuter(lines, ks, 0, UnknownCourse))
  {
    var bs := ScanOuter(lines, ks, 0, UnknownCourse);
    ScanOuterPlaced(lines, ks, 0, UnknownCourse);
    forall k | 0 <= k < |bs| ensures ReadFrom(lines, bs[k]) {
      PlacedIsReadFrom(lines, ks, bs[k]);
    }
  }

  /** Without a header line the parser yields no record. */
  lemma NoHeaderNoRecords(lines: seq<string>)
    requires forall i :: 0 <= i < |lines| ==> !IsHeader(lines[i])
    ensures Parse(lines) == []
  {
    var ks := Kinds(lines);
    KindsClassified(lines);
    forall j | 0 <= j < |lines|
      ensures !ks[j].header
    {
      HeaderAt(lines, ks, j);
    }
    ScanOuterWithoutHeader(lines, ks, 0, UnknownCourse);
  }
}
