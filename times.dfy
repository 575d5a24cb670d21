/**
 * The days-and-times cell of a class and the time strings it yields:
 * `parseDaysAndTimes` and `parseTime` of the converter.
 */
module Times {
  import opened Wrappers
  import opened Text
  import opened Patterns
  import opened Dates

  // ---------------------------------------------------------------- clock patterns

  /** One match of `(\d{1,2}):(\d{2})`, possibly followed by an upper-cased `AM`/`PM`, ending at `end`. */
  datatype ClockMatch = ClockMatch(hours: string, minutes: string, suffix: string, end: nat)

  /** The text a match stands for once written back: `hours:minutesSUFFIX`. */
  function Show(m: ClockMatch): (t: string) {
    m.hours + ":" + m.minutes + m.suffix
  }

  /**
   * `(\d{1,2}):(\d{2})` at position `p`. The hour takes two digits exactly
   * when two digits stand there: with one, the `:` would have to be a digit.
   */
  function ClockAt(s: string, p: nat): (r: Option<ClockMatch>)
    ensures r.Some? ==> 1 <= |r.value.hours| <= 2 && AllDigits(r.value.hours)
                        && |r.value.minutes| == 2 && AllDigits(r.value.minutes)
                        && r.value.suffix == ""
                        && r.value.end == p + |r.value.hours| + 3 <= |s|
                        && s[p..r.value.end] == Show(r.value)
  {
    if p < |s| && IsDigit(s[p]) then
      var c := if p + 1 < |s| && IsDigit(s[p + 1]) then p + 2 else p + 1;
      if c + 3 <= |s| && s[c] == ':' && IsDigit(s[c + 1]) && IsDigit(s[c + 2]) then
        var m := ClockMatch(s[p..c], s[c + 1..c + 3], "", c + 3);
        assert s[p..c + 3] == s[p..c] + ":" + s[c + 1..c + 3];
        Some(m)
      else None
    else None
  }

  /** `(AM|PM)` under the `i` flag at position `e`. */
  predicate MeridiemAt(s: string, e: nat) {
    e + 2 <= |s| && s[e] in "aApP" && s[e + 1] in "mM"
  }

  /** `(\d{1,2}):(\d{2})(AM|PM)` with the `i` flag, at position `p`; the suffix is upper-cased. */
  function Clock12At(s: string, p: nat): (r: Option<ClockMatch>)
    ensures r.Some? ==> ClockAt(s, p).Some? && MeridiemAt(s, ClockAt(s, p).value.end)
                        && r.value.suffix == (if s[ClockAt(s, p).value.end] in "aA" then "AM" else "PM")
                        && r.value.hours == ClockAt(s, p).value.hours
                        && r.value.minutes == ClockAt(s, p).value.minutes
                        && r.value.end == ClockAt(s, p).value.end + 2 <= |s|
  {
    match ClockAt(s, p)
    case None => None
    case Some(m) =>
      if MeridiemAt(s, m.end) then
        Some(m.(suffix := if s[m.end] in "aA" then "AM" else "PM", end := m.end + 2))
      else None
  }

  function ClockWith(s: string, p: nat, twelveHour: bool): (r: Option<ClockMatch>)
    ensures r.Some? ==> r.value.end <= |s| && IsTimeToken(r.value.hours, r.value.minutes, r.value.suffix)
  {
    if twelveHour then Clock12At(s, p) else ClockAt(s, p)
  }

  datatype TimeRange = TimeRange(first: ClockMatch, last: ClockMatch)

  predicate WrittenTime(m: ClockMatch) {
    IsTimeToken(m.hours, m.minutes, m.suffix)
  }

  /** A clock, `\s*-\s*`, and a second clock of the same kind, from position `p`. */
  function RangeAt(s: string, p: nat, twelveHour: bool): (r: Option<TimeRange>)
    ensures r.Some? ==> WrittenTime(r.value.first) && WrittenTime(r.value.last)
  {
    match ClockWith(s, p, twelveHour)
    case None => None
    case Some(a) =>
      var k := SkipWhile(s, a.end, Space);
      if k < |s| && s[k] == '-' then
        var k2 := SkipWhile(s, k + 1, Space);
        match ClockWith(s, k2, twelveHour)
        case None => None
        case Some(b) => Some(TimeRange(a, b))
      else None
  }

  /**
   * `timeRegex12.exec` (with `twelveHour`) or `timeRegex24.exec`: the
   * leftmost time range that starts at or after `p`.
   */
  function RangeFrom(s: string, p: nat, twelveHour: bool): (r: Option<TimeRange>)
    requires p <= |s| + 1
    ensures r.Some? ==> WrittenTime(r.value.first) && WrittenTime(r.value.last)
    decreases |s| + 1 - p
  {
    if p > |s| then None
    else if RangeAt(s, p, twelveHour).Some? then RangeAt(s, p, twelveHour)
    else RangeFrom(s, p + 1, twelveHour)
  }

  /** The leftmost clock (a 12-hour one with `twelveHour`) that starts at or after `p`. */
  function ClockFrom(s: string, p: nat, twelveHour: bool): (r: Option<ClockMatch>)
    requires p <= |s| + 1
    ensures r.Some? ==> IsTimeToken(r.value.hours, r.value.minutes, r.value.suffix)
    decreases |s| + 1 - p
  {
    if p > |s| then None
    else if ClockWith(s, p, twelveHour).Some? then ClockWith(s, p, twelveHour)
    else ClockFrom(s, p + 1, twelveHour)
  }

  /** The clock search finds nothing exactly when no position has a clock. */
  lemma {:induction false} ClockFromNone(s: string, p: nat, twelveHour: bool)
    requires p <= |s| + 1
    ensures ClockFrom(s, p, twelveHour).None? <==> forall i :: p <= i <= |s| ==> ClockWith(s, i, twelveHour).None?
    decreases |s| + 1 - p
  {
    if p <= |s| && ClockWith(s, p, twelveHour).None? {
      ClockFromNone(s, p + 1, twelveHour);
    }
  }

  /** A clock at `p` is the one found when none starts between `q` and `p`. */
  lemma {:induction false} ClockFromAt(s: string, q: nat, p: nat, twelveHour: bool)
    requires q <= p <= |s| && ClockWith(s, p, twelveHour).Some?
    requires forall i :: q <= i < p ==> ClockWith(s, i, twelveHour).None?
    ensures ClockFrom(s, q, twelveHour) == ClockWith(s, p, twelveHour)
    decreases p - q
  {
    if q < p {
      ClockFromAt(s, q + 1, p, twelveHour);
    }
  }

  // ---------------------------------------------------------------- parseTime

  datatype Clock = Clock(hours: nat, minutes: nat)

  /** The 12-hour to 24-hour rule of `parseTime`. */
  function To24(hours: nat, suffix: string): (h: nat)
    ensures h % 12 == hours % 12
    ensures h < 24 || h == hours
    ensures suffix !in {"AM", "PM"} ==> h == hours
  {
    if suffix == "PM" && hours < 12 then hours + 12
    else if suffix == "AM" && hours == 12 then 0
    else hours
  }

  /** On a real 12-hour clock value the rule gives the same time of day on a 24-hour clock. */
  lemma To24IsClockTime(hours: nat, suffix: string)
    requires 1 <= hours <= 12 && suffix in {"AM", "PM"}
    ensures To24(hours, suffix) < 24
    ensures To24(hours, suffix) % 12 == hours % 12
    ensures (To24(hours, suffix) >= 12) == (suffix == "PM")
  {
  }

  /**
   * `parseTime`: the first 12-hour clock anywhere in the string, else the
   * first 24-hour clock; with neither the function throws.
   */
  function ParseTime(timeStr: string): (r: Result<Clock, string>)
    ensures r.Err? ==> r.error == "Invalid time format: " + timeStr
  {
    match ClockFrom(timeStr, 0, true)
    case Some(m) => Ok(Clock(To24(DigitsValue(m.hours), m.suffix), DigitsValue(m.minutes)))
    case None =>
      match ClockFrom(timeStr, 0, false)
      case Some(m) => Ok(Clock(DigitsValue(m.hours), DigitsValue(m.minutes)))
      case None => Err("Invalid time format: " + timeStr)
  }

  /** `parseTime` throws exactly on the strings with no `H:MM` anywhere in them, the empty one among them. */
  lemma ParseTimeFails(timeStr: string)
    ensures ParseTime(timeStr).Err? <==> forall p :: 0 <= p <= |timeStr| ==> ClockAt(timeStr, p).None?
    ensures ParseTime("").Err?
  {
    ClockFromNone(timeStr, 0, true);
    ClockFromNone(timeStr, 0, false);
    forall p | 0 <= p <= |timeStr|
      ensures ClockWith(timeStr, p, false) == ClockAt(timeStr, p)
      ensures ClockAt(timeStr, p).None? ==> ClockWith(timeStr, p, true).None?
    {
    }
    ClockFromNone("", 0, true);
    ClockFromNone("", 0, false);
  }

  /** A written-out time: 1 or 2 hour digits, `:`, 2 minute digits, then nothing, `AM` or `PM`. */
  predicate IsTimeToken(hours: string, minutes: string, suffix: string) {
    1 <= |hours| <= 2 && AllDigits(hours) && |minutes| == 2 && AllDigits(minutes)
    && suffix in {"", "AM", "PM"}
  }

  /** `parseTime` reads back every written-out time: 12-hour ones via `To24`, 24-hour ones unchanged. */
  lemma ParseTimeReadsToken(hours: string, minutes: string, suffix: string)
    requires IsTimeToken(hours, minutes, suffix)
    ensures ParseTime(hours + ":" + minutes + suffix)
            == Ok(Clock(To24(DigitsValue(hours), suffix), DigitsValue(minutes)))
  {
    var t := hours + ":" + minutes + suffix;
    var m := ClockMatch(hours, minutes, "", |hours| + 3);
    assert t[..|hours|] == hours;
    assert t[|hours|] == ':';
    assert t[|hours| + 1..|hours| + 3] == minutes;
    assert ClockAt(t, 0) == Some(m) by {
      assert |hours| == 2 <==> (1 < |t| && IsDigit(t[1]));
    }
    if suffix == "" {
      assert t == Show(m);
      forall p | 0 <= p <= |t| ensures ClockWith(t, p, true).None? {
        Clock12Length(t, p);
      }
      ClockFromNone(t, 0, true);
      ClockFromAt(t, 0, 0, false);
    } else {
      assert t[|hours| + 3..] == suffix;
      assert MeridiemAt(t, |hours| + 3);
      assert Clock12At(t, 0) == Some(m.(suffix := suffix, end := |hours| + 5));
      ClockFromAt(t, 0, 0, true);
    }
  }

  /** A 12-hour clock takes at least six characters. */
  lemma Clock12Length(s: string, p: nat)
    ensures Clock12At(s, p).Some? ==> p + 6 <= |s|
  {
  }

  /** A 24-hour time passes through `parseTime` unchanged. */
  lemma ParseTime24PassesThrough(hours: string, minutes: string)
    requires 1 <= |hours| <= 2 && AllDigits(hours) && |minutes| == 2 && AllDigits(minutes)
    ensures ParseTime(hours + ":" + minutes) == Ok(Clock(DigitsValue(hours), DigitsValue(minutes)))
  {
    assert hours + ":" + minutes == hours + ":" + minutes + "";
    ParseTimeReadsToken(hours, minutes, "");
  }

  // ---------------------------------------------------------------- day letters

  /** The one-letter entries of `dayMap`: `M T W F S`. */
  function LetterDay(c: char): (r: seq<Day>)
    ensures |r| <= 1
    ensures (|r| == 1) == (c in "MTWFS")
  {
    if c == 'M' then [Monday]
    else if c == 'T' then [Tuesday]
    else if c == 'W' then [Wednesday]
    else if c == 'F' then [Friday]
    else if c == 'S' then [Saturday]
    else []
  }

  /** `s.startsWith(prefix, i)` */
  predicate StartsWith(s: string, prefix: string, i: nat) {
    i + |prefix| <= |s| && s[i..i + |prefix|] == prefix
  }

  /** The characters `x` and `y` stand at `i` and `i + 1`. */
  predicate PairAt(s: string, i: nat, x: char, y: char) {
    i + 2 <= |s| && s[i] == x && s[i + 1] == y
  }

  lemma StartsWithPair(s: string, i: nat, x: char, y: char)
    ensures StartsWith(s, [x, y], i) == PairAt(s, i, x, y)
  {
    if PairAt(s, i, x, y) {
      assert s[i..i + 2] == [x, y];
    }
  }

  /**
   * The entry of the day letters at `index` and its width: `Th` and `Su`
   * take two characters; any other character gives its one-letter day, or
   * nothing, and takes one.
   */
  function DayAt(s: string, index: nat): (t: (seq<Day>, nat))
    requires index < |s|
    ensures 1 <= t.1 && index + t.1 <= |s| && |t.0| <= t.1
  {
    if PairAt(s, index, 'T', 'h') then ([Thursday], 2)
    else if PairAt(s, index, 'S', 'u') then ([Sunday], 2)
    else (LetterDay(s[index]), 1)
  }

  /** The days of the letters from `index` on, read left to right entry by entry. */
  function DecodeFrom(s: string, index: nat): (r: seq<Day>)
    requires index <= |s|
    ensures |r| <= |s| - index
    decreases |s| - index, 1
  {
    if index == |s| then [] else DecodeEntry(s, index)
  }

  /** The entry at `index`, then the days of the letters after it. */
  function DecodeEntry(s: string, index: nat): (r: seq<Day>)
    requires index < |s|
    ensures |r| <= |s| - index
    decreases |s| - index, 0
  {
    var t := DayAt(s, index);
    t.0 + DecodeFrom(s, index + t.1)
  }

  /** The day letters, decoded from the start. */
  function DecodeDays(s: string): (r: seq<Day>)
    ensures |r| <= |s|
  {
    DecodeFrom(s, 0)
  }

  /** `a` and `b` do not glue a `T`+`h` or `S`+`u` across their boundary. */
  predicate Separable(a: string, b: string) {
    !(|a| > 0 && |b| > 0 && ((a[|a| - 1] == 'T' && b[0] == 'h') || (a[|a| - 1] == 'S' && b[0] == 'u')))
  }

  /** An entry after a prefix reads as if the prefix were not there. */
  lemma DayAtShift(p: string, b: string, j: nat)
    requires j < |b|
    ensures DayAt(p + b, |p| + j) == DayAt(b, j)
  {
    assert (p + b)[|p| + j] == b[j];
    if j + 1 < |b| {
      assert (p + b)[|p| + j + 1] == b[j + 1];
    }
  }

  /** An entry inside `a` reads the same in `a + b` when no pair is glued across the boundary. */
  lemma DayAtConcat(a: string, b: string, i: nat)
    requires i < |a| && Separable(a, b)
    ensures DayAt(a + b, i) == DayAt(a, i)
  {
    assert (a + b)[i] == a[i];
    if i + 1 < |a| {
      assert (a + b)[i + 1] == a[i + 1];
    }
  }

  /** What follows a prefix decodes as if the prefix were not there. */
  lemma {:induction false} DecodeFromShift(p: string, b: string, j: nat)
    requires j <= |b|
    ensures DecodeFrom(p + b, |p| + j) == DecodeFrom(b, j)
    decreases |b| - j
  {
    if j < |b| {
      var t := DayAt(b, j);
      DayAtShift(p, b, j);
      DecodeFromShift(p, b, j + t.1);
      assert DecodeFrom(p + b, |p| + j) == DecodeEntry(p + b, |p| + j);
      assert DecodeFrom(b, j) == DecodeEntry(b, j);
    }
  }

  /** Decoding `a + b` from inside `a` decodes the rest of `a`, then all of `b`. */
  lemma {:induction false} DecodeFromConcat(a: string, b: string, i: nat)
    requires i <= |a| && Separable(a, b)
    ensures DecodeFrom(a + b, i) == DecodeFrom(a, i) + DecodeFrom(b, 0)
    decreases |a| - i
  {
    if i == |a| {
      DecodeFromShift(a, b, 0);
    } else {
      var t := DayAt(a, i);
      DayAtConcat(a, b, i);
      assert DecodeFrom(a + b, i) == DecodeEntry(a + b, i);
      assert DecodeFrom(a, i) == DecodeEntry(a, i);
      DecodeFromConcat(a, b, i + t.1);
      AppendAssoc(t.0, DecodeFrom(a, i + t.1), DecodeFrom(b, 0));
    }
  }

  /** Decoding goes piece by piece: the days of a concatenation are the days of its pieces, in order. */
  lemma DecodeDaysConcat(a: string, b: string)
    requires Separable(a, b)
    ensures DecodeDays(a + b) == DecodeDays(a) + DecodeDays(b)
  {
    DecodeFromConcat(a, b, 0);
  }

  /** `Th` is Thursday wherever it stands and is never read as `T` followed by a stray `h`. */
  lemma ThursdayAnywhere(a: string, b: string)
    ensures DecodeDays(a + "Th" + b) == DecodeDays(a) + [Thursday] + DecodeDays(b)
  {
    var s := "Th" + b;
    assert a + "Th" + b == a + s;
    assert PairAt(s, 0, 'T', 'h');
    assert DecodeFrom(s, 0) == [Thursday] + DecodeFrom(s, |"Th"| + 0);
    DecodeFromShift("Th", b, 0);
    DecodeDaysConcat(a, s);
    AppendAssoc(DecodeDays(a), [Thursday], DecodeDays(b));
  }

  /** `Su` is Sunday wherever it stands and is never read as Saturday followed by a stray `u`. */
  lemma SundayAnywhere(a: string, b: string)
    ensures DecodeDays(a + "Su" + b) == DecodeDays(a) + [Sunday] + DecodeDays(b)
  {
    var s := "Su" + b;
    assert a + "Su" + b == a + s;
    assert PairAt(s, 0, 'S', 'u');
    assert DecodeFrom(s, 0) == [Sunday] + DecodeFrom(s, |"Su"| + 0);
    DecodeFromShift("Su", b, 0);
    DecodeDaysConcat(a, s);
    AppendAssoc(DecodeDays(a), [Sunday], DecodeDays(b));
  }

  /**
   * A single character contributes its one-letter day, or nothing when it has
   * none, as long as it does not complete or begin a `Th`/`Su`.
   */
  lemma LetterAnywhere(a: string, c: char, b: string)
    requires c != 'h' && c != 'u'
    requires Separable([c], b)
    ensures DecodeDays(a + [c] + b) == DecodeDays(a) + LetterDay(c) + DecodeDays(b)
  {
    var s := [c] + b;
    assert a + [c] + b == a + s;
    assert s[0] == c;
    assert |b| > 0 ==> s[1] == b[0];
    assert DayAt(s, 0) == (LetterDay(c), 1);
    assert DecodeFrom(s, 0) == LetterDay(c) + DecodeFrom(s, |[c]| + 0);
    DecodeFromShift([c], b, 0);
    DecodeDaysConcat(a, s);
    AppendAssoc(DecodeDays(a), LetterDay(c), DecodeDays(b));
  }

  // ---------------------------------------------------------------- parseDaysAndTimes

  datatype DaysTimes = DaysTimes(days: seq<Day>, startTime: string, endTime: string)

  /** `daysTimes.toUpperCase() === 'TBA'`: only `t`, `b`, `a` in either case upper-case to these letters. */
  predicate IsTba(s: string) {
    |s| == 3 && s[0] in "tT" && s[1] in "bB" && s[2] in "aA"
  }

  /** `s.split(c, limit)`: the first `limit` pieces. */
  function SplitLimit(s: string, c: char, limit: nat): (r: seq<string>)
    ensures |r| == if |Split(s, c)| < limit then |Split(s, c)| else limit
    ensures forall i :: 0 <= i < |r| ==> r[i] == Split(s, c)[i]
  {
    var pieces := Split(s, c);
    if |pieces| <= limit then pieces else pieces[..limit]
  }

  /** With a limit of two, the first two pieces are kept and whatever follows the second separator is dropped. */
  lemma SplitLimitTwo(a: string, b: string, rest: string, c: char)
    requires c !in a && c !in b
    ensures SplitLimit(a + [c] + (b + [c] + rest), c, 2) == [a, b]
  {
    SplitCons(a, b + [c] + rest, c);
    SplitCons(b, rest, c);
  }

  /** The two time strings of the time part: 12-hour first, then 24-hour, else both empty. */
  function DecodeTimes(timePart: string): (r: (string, string))
    ensures (r.0 == "") == (r.1 == "")
  {
    match RangeFrom(timePart, 0, true)
    case Some(tr) => (Show(tr.first), Show(tr.last))
    case None =>
      match RangeFrom(timePart, 0, false)
      case Some(tr) => (Show(tr.first), Show(tr.last))
      case None => ("", "")
  }

  /** Both time patterns need a dash, so a time part without one yields no times. */
  lemma {:induction false} RangeNeedsDash(s: string, p: nat, twelveHour: bool)
    requires p <= |s| + 1 && '-' !in s
    ensures RangeFrom(s, p, twelveHour).None?
    decreases |s| + 1 - p
  {
    if p <= |s| {
      RangeNeedsDash(s, p + 1, twelveHour);
    }
  }

  /** With no clock of the kind at or after `p`, no range of that kind is found. */
  lemma {:induction false} RangeFromNoClock(s: string, p: nat, twelveHour: bool)
    requires p <= |s| + 1
    requires forall i :: p <= i <= |s| ==> ClockWith(s, i, twelveHour).None?
    ensures RangeFrom(s, p, twelveHour).None?
    decreases |s| + 1 - p
  {
    if p <= |s| {
      RangeFromNoClock(s, p + 1, twelveHour);
    }
  }

  /** Where the hours, the colon, the minutes and the suffix stand in a written-out time. */
  lemma ShowParts(m: ClockMatch)
    ensures var h := |m.hours|; var t := Show(m);
            |t| == h + 3 + |m.suffix| && t[..h] == m.hours && t[h] == ':'
            && t[h + 1..h + 3] == m.minutes && t[h + 3..] == m.suffix
    requires |m.minutes| == 2
  {
    var h := |m.hours|;
    var t := Show(m);
    assert t == m.hours + ((":" + m.minutes) + m.suffix);
    assert t[h..] == (":" + m.minutes) + m.suffix;
    assert t[h + 1..] == m.minutes + m.suffix;
  }

  /** A slice of a slice is a slice. */
  lemma SliceOfSlice(s: string, i: nat, j: nat, k: nat, l: nat)
    requires i <= j <= |s| && k <= l <= j - i
    ensures s[i..j][k..l] == s[i + k..i + l]
  {
    forall x | 0 <= x < l - k
      ensures s[i..j][k..l][x] == s[i + k..i + l][x]
    {
    }
  }

  /** A written-out time standing at `p`: its hours, colon, minutes and suffix stand there in turn. */
  lemma ShowAt(s: string, p: nat, m: ClockMatch)
    requires |m.minutes| == 2
    requires p + |Show(m)| <= |s| && s[p..p + |Show(m)|] == Show(m)
    ensures var h := |m.hours|;
            s[p..p + h] == m.hours && s[p + h] == ':' && s[p + h + 1..p + h + 3] == m.minutes
            && s[p + h + 3..p + |Show(m)|] == m.suffix
  {
    var t := Show(m);
    var h := |m.hours|;
    var n := |t|;
    ShowParts(m);
    SliceOfSlice(s, p, p + n, 0, h);
    SliceOfSlice(s, p, p + n, h + 1, h + 3);
    SliceOfSlice(s, p, p + n, h + 3, n);
    assert s[p + h] == t[h];
  }

  /** Hours, a colon and two minute digits at `p` are the clock read there. */
  lemma ClockAtParts(s: string, p: nat, hours: string, minutes: string)
    requires 1 <= |hours| <= 2 && AllDigits(hours) && |minutes| == 2 && AllDigits(minutes)
    requires p + |hours| + 3 <= |s| && s[p..p + |hours|] == hours && s[p + |hours|] == ':'
    requires s[p + |hours| + 1..p + |hours| + 3] == minutes
    ensures ClockAt(s, p) == Some(ClockMatch(hours, minutes, "", p + |hours| + 3))
  {
    var h := |hours|;
    assert s[p] == hours[0];
    assert s[p + h + 1] == minutes[0] && s[p + h + 2] == minutes[1];
    assert h == 2 ==> s[p + 1] == hours[1];
  }

  /** A written-out time standing at `p` is the clock read there, with the pattern for its kind. */
  lemma ClockAtToken(s: string, p: nat, m: ClockMatch)
    requires WrittenTime(m)
    requires p + |Show(m)| <= |s| && s[p..p + |Show(m)|] == Show(m)
    ensures ClockWith(s, p, m.suffix != "") == Some(m.(end := p + |Show(m)|))
  {
    var h := |m.hours|;
    ShowAt(s, p, m);
    ClockAtParts(s, p, m.hours, m.minutes);
    if m.suffix != "" {
      assert s[p + h + 3] == m.suffix[0] && s[p + h + 4] == m.suffix[1];
    }
  }

  /** Only letters begin a meridiem, so a 12-hour clock needs a letter after its digits. */
  lemma NoLetterNoClock12(s: string, p: nat)
    requires forall i :: 0 <= i < |s| ==> s[i] !in "aApP"
    ensures Clock12At(s, p).None?
  {
    if ClockAt(s, p).Some? {
      var e := ClockAt(s, p).value.end;
      assert !MeridiemAt(s, e) by {
        if e < |s| {
          assert s[e] !in "aApP";
        }
      }
    }
  }

  /** A clock, a dash right after it and a clock right after the dash are a range at `p`. */
  lemma RangeAtParts(s: string, p: nat, twelveHour: bool, a: ClockMatch, b: ClockMatch)
    requires ClockWith(s, p, twelveHour) == Some(a)
    requires a.end < |s| && s[a.end] == '-'
    requires ClockWith(s, a.end + 1, twelveHour) == Some(b)
    ensures RangeAt(s, p, twelveHour) == Some(TimeRange(a, b))
  {
    ClockStartsWithDigit(s, a.end + 1, twelveHour);
    NoSpaceSkipped(s, a.end);
    NoSpaceSkipped(s, a.end + 1);
  }

  /** Either clock pattern matches only where a digit stands. */
  lemma ClockStartsWithDigit(s: string, p: nat, twelveHour: bool)
    requires ClockWith(s, p, twelveHour).Some?
    ensures p < |s| && IsDigit(s[p])
  {
    assert ClockAt(s, p).Some?;
  }

  /** `\s*` takes nothing in front of a character that is not white space. */
  lemma NoSpaceSkipped(s: string, i: nat)
    requires i < |s| && !IsSpace(s[i])
    ensures SkipWhile(s, i, Space) == i
  {
  }

  /** Two written-out times around a dash form a range of their kind at the start. */
  lemma ShownRangeAt(a: ClockMatch, b: ClockMatch)
    requires WrittenTime(a) && WrittenTime(b)
    requires (a.suffix == "") == (b.suffix == "")
    ensures var e := |Show(a)|;
            RangeFrom(Show(a) + "-" + Show(b), 0, a.suffix != "")
            == Some(TimeRange(a.(end := e), b.(end := e + 1 + |Show(b)|)))
  {
    var x, y := Show(a), Show(b);
    DashSlices(x, y);
    ShownRangeIn(x + "-" + y, |x|, |y|, a, b);
  }

  /** The two sides of `x + "-" + y` are `x` and `y`. */
  lemma DashSlices(x: string, y: string)
    ensures var s := x + "-" + y;
            |s| == |x| + 1 + |y| && s[0..|x|] == x && s[|x|] == '-' && s[|x| + 1..|x| + 1 + |y|] == y
  {
    var s := x + "-" + y;
    assert s[0..|x|] == x;
    assert s[|x| + 1..|x| + 1 + |y|] == y;
  }

  /** A text made of a written time, a dash and a second written time holds that range first. */
  lemma ShownRangeIn(s: string, e: nat, f: nat, a: ClockMatch, b: ClockMatch)
    requires WrittenTime(a) && WrittenTime(b)
    requires (a.suffix == "") == (b.suffix == "")
    requires e == |Show(a)| && f == |Show(b)| && |s| == e + 1 + f
    requires s[0..e] == Show(a) && s[e] == '-' && s[e + 1..e + 1 + f] == Show(b)
    ensures RangeFrom(s, 0, a.suffix != "") == Some(TimeRange(a.(end := e), b.(end := e + 1 + f)))
  {
    TwoClocks(s, e, f, a, b);
    RangeFromParts(s, a.suffix != "", a.(end := e), b.(end := e + 1 + f));
  }

  /** The same text read clock by clock: the first time at the start, the second after the dash. */
  lemma TwoClocks(s: string, e: nat, f: nat, a: ClockMatch, b: ClockMatch)
    requires WrittenTime(a) && WrittenTime(b)
    requires (a.suffix == "") == (b.suffix == "")
    requires e == |Show(a)| && f == |Show(b)| && |s| == e + 1 + f
    requires s[0..e] == Show(a) && s[e + 1..e + 1 + f] == Show(b)
    ensures ClockWith(s, 0, a.suffix != "") == Some(a.(end := e))
    ensures ClockWith(s, e + 1, a.suffix != "") == Some(b.(end := e + 1 + f))
  {
    ClockAtToken(s, 0, a);
    ClockAtToken(s, e + 1, b);
  }

  /** A clock at the start, a dash right after it and a second clock after that make the first range. */
  lemma RangeFromParts(s: string, twelveHour: bool, a: ClockMatch, b: ClockMatch)
    requires ClockWith(s, 0, twelveHour) == Some(a)
    requires a.end < |s| && s[a.end] == '-'
    requires ClockWith(s, a.end + 1, twelveHour) == Some(b)
    ensures RangeFrom(s, 0, twelveHour) == Some(TimeRange(a, b))
  {
    RangeAtParts(s, 0, twelveHour, a, b);
  }

  /** A range of two 24-hour times has no letter, so the 12-hour search finds nothing in it. */
  lemma ShownRange24No12(a: ClockMatch, b: ClockMatch)
    requires WrittenTime(a) && WrittenTime(b) && a.suffix == "" && b.suffix == ""
    ensures RangeFrom(Show(a) + "-" + Show(b), 0, true).None?
  {
    var s := Show(a) + "-" + Show(b);
    var e := |Show(a)|;
    forall i | 0 <= i < |s| ensures s[i] !in "aApP" {
      if i < e {
        assert s[i] == Show(a)[i];
        assert i < |a.hours| ==> Show(a)[i] == a.hours[i];
        assert |a.hours| < i ==> Show(a)[i] == a.minutes[i - |a.hours| - 1];
      } else if i > e {
        assert s[i] == Show(b)[i - e - 1];
        assert i - e - 1 < |b.hours| ==> Show(b)[i - e - 1] == b.hours[i - e - 1];
        assert |b.hours| < i - e - 1 ==> Show(b)[i - e - 1] == b.minutes[i - e - 2 - |b.hours|];
      }
    }
    forall i | 0 <= i <= |s| ensures ClockWith(s, i, true).None? {
      NoLetterNoClock12(s, i);
    }
    RangeFromNoClock(s, 0, true);
  }

  /**
   * A range written without spaces, two 12-hour or two 24-hour times around
   * a dash, is read back as exactly those two times.
   */
  lemma CompactRangeReadsBack(h1: string, m1: string, x1: string, h2: string, m2: string, x2: string)
    requires IsTimeToken(h1, m1, x1) && IsTimeToken(h2, m2, x2)
    requires (x1 == "") == (x2 == "")
    ensures DecodeTimes(h1 + ":" + m1 + x1 + "-" + (h2 + ":" + m2 + x2))
            == (h1 + ":" + m1 + x1, h2 + ":" + m2 + x2)
  {
    var a := ClockMatch(h1, m1, x1, 0);
    var b := ClockMatch(h2, m2, x2, 0);
    assert Show(a) + "-" + Show(b) == h1 + ":" + m1 + x1 + "-" + (h2 + ":" + m2 + x2);
    ShownRangeAt(a, b);
    if x1 == "" {
      ShownRange24No12(a, b);
    }
  }

  /**
   * What `parseDaysAndTimes` returns. The day letters are the text before the
   * first space and the time part is only the text between the first and the
   * second space (`split(' ', 2)`).
   */
  function DaysAndTimes(daysTimes: string): (r: DaysTimes)
    ensures |r.days| <= |daysTimes|
    ensures (r.startTime == "") == (r.endTime == "")
    ensures IsTba(daysTimes) || ' ' !in daysTimes ==> r == DaysTimes([], "", "")
  {
    if IsTba(daysTimes) then DaysTimes([], "", "")
    else
      var parts := SplitLimit(daysTimes, ' ', 2);
      SplitPieces(daysTimes, ' ');
      if |parts| < 2 then DaysTimes([], "", "")
      else
        var times := DecodeTimes(parts[1]);
        DaysTimes(DecodeDays(parts[0]), times.0, times.1)
  }

  /**
   * Days, a space, a time part without a dash, a space and the rest: the days
   * are read and both times are empty, whatever the rest holds. A range
   * written `10:00AM - 10:50AM` is lost this way.
   */
  lemma SpacedDashDropsTimes(d: string, t: string, rest: string)
    requires ' ' !in d && ' ' !in t && '-' !in t
    ensures DaysAndTimes(d + [' '] + (t + [' '] + rest)) == DaysTimes(DecodeDays(d), "", "")
  {
    var s := d + [' '] + (t + [' '] + rest);
    assert s[|d|] == ' ';
    assert !IsTba(s) by {
      if |d| >= 3 {
        assert |s| > 3;
      }
    }
    SplitLimitTwo(d, t, rest, ' ');
    RangeNeedsDash(t, 0, true);
    RangeNeedsDash(t, 0, false);
  }

  /** The first piece of a split is a prefix, and there is a second piece exactly when the separator occurs. */
  lemma SplitPieces(s: string, c: char)
    ensures |Split(s, c)[0]| <= |s| && Split(s, c)[0] == s[..|Split(s, c)[0]|]
    ensures (|Split(s, c)| >= 2) == (c in s)
  {
    var k := IndexOf(s, c);
    if k == |s| {
      assert c !in s;
    } else {
      assert s[k] == c;
    }
  }

  /** The time part contains no space, so a range written with spaces around its dash is lost. */
  lemma TimePartHasNoSpace(daysTimes: string)
    requires !IsTba(daysTimes) && ' ' in daysTimes
    ensures |SplitLimit(daysTimes, ' ', 2)| == 2
    ensures ' ' !in SplitLimit(daysTimes, ' ', 2)[1]
    ensures DaysAndTimes(daysTimes).days == DecodeDays(SplitLimit(daysTimes, ' ', 2)[0])
  {
    SplitPieces(daysTimes, ' ');
  }

  /**
   * Every non-empty time that the decoder gives is one `parseTime` accepts;
   * each is a written-out time, whose value `ShownTimeIsToken` gives.
   */
  lemma DecodedTimesParse(daysTimes: string)
    ensures var r := DaysAndTimes(daysTimes);
            r.startTime != "" ==> ParseTime(r.startTime).Ok? && ParseTime(r.endTime).Ok?
  {
    var r := DaysAndTimes(daysTimes);
    if r.startTime != "" {
      var tp := SplitLimit(daysTimes, ' ', 2)[1];
      var tr: TimeRange;
      if RangeFrom(tp, 0, true).Some? {
        tr := RangeFrom(tp, 0, true).value;
      } else {
        tr := RangeFrom(tp, 0, false).value;
      }
      ShownTimeIsToken(tr.first);
      ShownTimeIsToken(tr.last);
    }
  }

  /** A written-out time reads back as its own hour, through `To24`, and minutes. */
  lemma ShownTimeIsToken(m: ClockMatch)
    requires WrittenTime(m)
    ensures ParseTime(Show(m)) == Ok(Clock(To24(DigitsValue(m.hours), m.suffix), DigitsValue(m.minutes)))
  {
    ParseTimeReadsToken(m.hours, m.minutes, m.suffix);
  }

  /**
   * Lines 206-276 of the converter. The day letters are decoded by the
   * `index` loop of the source; the clock patterns are regular-expression calls.
   */
  method ParseDaysAndTimes(daysTimes: string) returns (r: DaysTimes)
    ensures r == DaysAndTimes(daysTimes)
  {
    if IsTba(daysTimes) {
      return DaysTimes([], "", "");
    }
    var parts := SplitLimit(daysTimes, ' ', 2);
    if |parts| < 2 {
      return DaysTimes([], "", "");
    }
    var days := DecodeDayLetters(parts[0]);
    var times := DecodeTimes(parts[1]);
    r := DaysTimes(days, times.0, times.1);
  }

  /** Lines 234-251 of the converter: the `index` loop over the day letters. */
  method DecodeDayLetters(daysPart: string) returns (days: seq<Day>)
    ensures days == DecodeDays(daysPart)
  {
    days := [];
    var index := 0;
    while index < |daysPart|
      invariant index <= |daysPart|
      invariant days + DecodeFrom(daysPart, index) == DecodeDays(daysPart)
      decreases |daysPart| - index
    {
      StartsWithPair(daysPart, index, 'T', 'h');
      StartsWithPair(daysPart, index, 'S', 'u');
      ghost var t := DayAt(daysPart, index);
      assert DecodeFrom(daysPart, index) == t.0 + DecodeFrom(daysPart, index + t.1);
      AppendAssoc(days, t.0, DecodeFrom(daysPart, index + t.1));
      if StartsWith(daysPart, "Th", index) {
        days := days + [Thursday];
        index := index + 2;
      } else if StartsWith(daysPart, "Su", index) {
        days := days + [Sunday];
        index := index + 2;
      } else {
        days := days + LetterDay(daysPart[index]);
        index := index + 1;
      }
    }
  }
}
