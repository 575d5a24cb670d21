/**
 * `generateICalendar` and `combineDateTime`: the course components become
 * weekly recurring events, one for each day a component meets. The events
 * are the records handed to `calendar.createEvent`, in the order they are
 * created; turning them into ICS text is the calendar library's business.
 */
module Emitter {
  import opened Wrappers
  import opened Dates
  import opened Times
  import opened Parser

  /** A date with a time of day set on it: the day number, then `setHours` and `setMinutes`. */
  datatype DateTime = DateTime(day: int, hours: nat, minutes: nat)

  /** `repeating: { freq: WEEKLY, until }`. */
  datatype Recurrence = Weekly(until: DateTime)

  /** The options of one `calendar.createEvent` call, without its random `uid`. */
  datatype Event = Event(
    start: DateTime,
    end: DateTime,
    summary: string,
    location: string,
    description: string,
    repeating: Recurrence)

  /** `new Date(d)` of a constructed date: its local midnight. */
  function Midnight(d: CalendarDate): (t: DateTime) {
    DateTime(DayNumber(d), 0, 0)
  }

  /**
   * `combineDateTime`: the day `day` at the time `parseTime` reads from
   * `timeStr`, seconds and milliseconds zero. `parseTime` throwing is the error.
   */
  function CombineDateTime(day: int, timeStr: string): (r: Result<DateTime, string>)
    ensures r.Ok? <==> ParseTime(timeStr).Ok?
    ensures r.Ok? ==> r.value == DateTime(day, ParseTime(timeStr).value.hours, ParseTime(timeStr).value.minutes)
    ensures r.Err? ==> r.error == ParseTime(timeStr).error
  {
    match ParseTime(timeStr)
    case Ok(clock) => Ok(DateTime(day, clock.hours, clock.minutes))
    case Err(e) => Err(e)
  }

  function Summary(c: CourseComponent): (s: string) {
    c.courseName + " (" + c.component + ")"
  }

  function Description(c: CourseComponent): (s: string) {
    "Instructor: " + c.instructor + "\nSection: " + c.section
  }

  /**
   * The event created for component `c` on weekday `day`, or the error
   * `parseTime` throws: the start time is combined first, so its error wins.
   */
  function EventFor(c: CourseComponent, day: Day): (r: Result<Event, string>)
    ensures r.Err? ==> ParseTime(c.startTime).Err? || ParseTime(c.endTime).Err?
    ensures r.Err? ==>
              r.error == "Invalid time format: " + (if ParseTime(c.startTime).Err? then c.startTime else c.endTime)
  {
    var first := FirstOnOrAfter(DayNumber(c.startDate), DayOfWeekIndex(day));
    match CombineDateTime(first, c.startTime)
    case Err(e) => Err(e)
    case Ok(start) =>
      match CombineDateTime(first, c.endTime)
      case Err(e) => Err(e)
      case Ok(end) =>
        Ok(Event(start, end, Summary(c), c.room, Description(c), Weekly(Midnight(c.endDate))))
  }

  /** The events of component `c` for the days `ds`, in order; the first error stops the run. */
  function EmitDays(c: CourseComponent, ds: seq<Day>): (r: Result<seq<Event>, string>)
    ensures r.Ok? ==> |r.value| == |ds|
    decreases |ds|, 1
  {
    if |ds| == 0 then Ok([]) else EmitLastDay(c, ds)
  }

  /** The events of the days before the last one, then the event of the last day. */
  function EmitLastDay(c: CourseComponent, ds: seq<Day>): (r: Result<seq<Event>, string>)
    requires |ds| > 0
    ensures r.Ok? ==> |r.value| == |ds|
    decreases |ds|, 0
  {
    match EmitDays(c, ds[..|ds| - 1])
    case Err(e) => Err(e)
    case Ok(events) =>
      match EventFor(c, ds[|ds| - 1])
      case Err(e) => Err(e)
      case Ok(event) => Ok(events + [event])
  }

  /** The events of one component: those of its days. */
  function ComponentEvents(c: CourseComponent): (r: Result<seq<Event>, string>)
    ensures r.Ok? ==> |r.value| == |c.days|
  {
    EmitDays(c, c.days)
  }

  /**
   * Runs `step` on the items in order and concatenates what the runs give;
   * the first error ends the run and is its result, as an exception escaping
   * the loop does.
   */
  function Gather<X>(xs: seq<X>, step: X -> Result<seq<Event>, string>): (r: Result<seq<Event>, string>) {
    if |xs| == 0 then Ok([])
    else
      match Gather(xs[..|xs| - 1], step)
      case Err(e) => Err(e)
      case Ok(events) =>
        match step(xs[|xs| - 1])
        case Err(e) => Err(e)
        case Ok(more) => Ok(events + more)
  }

  /** The events of all components, component by component; the first error stops the run. */
  function EmitAll(cs: seq<CourseComponent>): (r: Result<seq<Event>, string>) {
    Gather(cs, ComponentEvents)
  }

  /**
   * Lines 328-369 of the converter: for each component and each of its
   * days, find the first such weekday of the term, combine it with the start
   * and the end time, and create the event.
   */
  method GenerateICalendar(courseComponents: seq<CourseComponent>) returns (r: Result<seq<Event>, string>)
    ensures r == EmitAll(courseComponents)
  {
    var events: seq<Event> := [];
    var i := 0;
    while i < |courseComponents|
      invariant i <= |courseComponents|
      invariant EmitAll(courseComponents[..i]) == Ok(events)
    {
      var component := courseComponents[i];
      assert courseComponents[..i + 1][..i] == courseComponents[..i];
      var created := CreateEvents(events, component);
      if created.Err? {
        GatherStops(courseComponents, ComponentEvents, i + 1);
        return created;
      }
      events := created.value;
      i := i + 1;
    }
    assert courseComponents[..i] == courseComponents;
    return Ok(events);
  }

  /**
   * Lines 336-364 of the converter, the loop over the days of one component:
   * its events are created after the ones in `events`.
   */
  method CreateEvents(events: seq<Event>, component: CourseComponent) returns (r: Result<seq<Event>, string>)
    ensures EmitDays(component, component.days).Ok? ==> r == Ok(events + EmitDays(component, component.days).value)
    ensures EmitDays(component, component.days).Err? ==> r == EmitDays(component, component.days)
  {
    var added: seq<Event> := [];
    var j := 0;
    assert component.days[..0] == [];
    while j < |component.days|
      invariant j <= |component.days|
      invariant EmitDays(component, component.days[..j]) == Ok(added)
    {
      var day := component.days[j];
      assert component.days[..j + 1][..j] == component.days[..j];
      var firstDate := FirstOccurrence(DayNumber(component.startDate), day);
      FirstOnOrAfterUnique(DayNumber(component.startDate), DayOfWeekIndex(day), firstDate);
      var startDateTime := CombineDateTime(firstDate, component.startTime);
      if startDateTime.Err? {
        EmitDaysStops(component, component.days, j + 1);
        return Err(startDateTime.error);
      }
      var endDateTime := CombineDateTime(firstDate, component.endTime);
      if endDateTime.Err? {
        EmitDaysStops(component, component.days, j + 1);
        return Err(endDateTime.error);
      }
      var event := Event(
        startDateTime.value, endDateTime.value, Summary(component), component.room,
        Description(component), Weekly(Midnight(component.endDate)));
      added := added + [event];
      j := j + 1;
    }
    assert component.days[..j] == component.days;
    return Ok(events + added);
  }

  /** Once the days up to `j` fail, all of them fail with the same error. */
  lemma {:induction false} EmitDaysStops(c: CourseComponent, ds: seq<Day>, j: nat)
    requires j <= |ds| && EmitDays(c, ds[..j]).Err?
    ensures EmitDays(c, ds) == EmitDays(c, ds[..j])
    decreases |ds| - j
  {
    if j < |ds| {
      assert ds[..j + 1][..j] == ds[..j];
      EmitDaysStops(c, ds, j + 1);
    } else {
      assert ds[..j] == ds;
    }
  }

  /** Once the items up to `i` fail, all of them fail with the same error. */
  lemma {:induction false} GatherStops<X>(xs: seq<X>, step: X -> Result<seq<Event>, string>, i: nat)
    requires i <= |xs| && Gather(xs[..i], step).Err?
    ensures Gather(xs, step) == Gather(xs[..i], step)
    decreases |xs| - i
  {
    if i < |xs| {
      assert xs[..i + 1][..i] == xs[..i];
      GatherStops(xs, step, i + 1);
    } else {
      assert xs[..i] == xs;
    }
  }

  /** A successful run succeeds on every prefix of the items, and its events extend the prefix's. */
  lemma {:induction false} GatherPrefix<X>(xs: seq<X>, step: X -> Result<seq<Event>, string>, n: nat)
    requires n <= |xs| && Gather(xs, step).Ok?
    ensures Gather(xs[..n], step).Ok?
    ensures Gather(xs[..n], step).value <= Gather(xs, step).value
    decreases |xs| - n
  {
    if n < |xs| {
      assert xs[..n + 1][..n] == xs[..n];
      GatherPrefix(xs, step, n + 1);
    } else {
      assert xs[..n] == xs;
    }
  }

  /** A run succeeds exactly when every step does. */
  lemma {:induction false} GatherOk<X>(xs: seq<X>, step: X -> Result<seq<Event>, string>)
    ensures Gather(xs, step).Ok? <==> forall i :: 0 <= i < |xs| ==> step(xs[i]).Ok?
  {
    if |xs| > 0 {
      var init := xs[..|xs| - 1];
      GatherOk(init, step);
      assert forall i :: 0 <= i < |init| ==> init[i] == xs[i];
    }
  }

  /** In a successful run the events of item `i` come right after those of the items before it. */
  lemma GatherAt<X>(xs: seq<X>, step: X -> Result<seq<Event>, string>, i: nat)
    requires i < |xs| && Gather(xs, step).Ok?
    ensures Gather(xs[..i], step).Ok? && step(xs[i]).Ok?
    ensures |Gather(xs[..i], step).value| + |step(xs[i]).value| <= |Gather(xs, step).value|
    ensures forall j :: 0 <= j < |step(xs[i]).value| ==>
              |Gather(xs[..i], step).value| + j < |Gather(xs, step).value|
              && Gather(xs, step).value[|Gather(xs[..i], step).value| + j] == step(xs[i]).value[j]
  {
    GatherPrefix(xs, step, i + 1);
    assert xs[..i + 1][..i] == xs[..i];
    var before := Gather(xs[..i], step).value;
    assert Gather(xs[..i + 1], step).value == before + step(xs[i]).value;
  }

  // ---------------------------------------------------------------- what is emitted

  /** The number of (component, day) pairs: the events a successful run creates. */
  function TotalDays(cs: seq<CourseComponent>): (n: nat) {
    if |cs| == 0 then 0 else TotalDays(cs[..|cs| - 1]) + |cs[|cs| - 1].days|
  }

  /** The event of one pair when its times parse; an empty time never does. */
  lemma EventForFields(c: CourseComponent, day: Day)
    ensures EventFor(c, day).Ok? <==> ParseTime(c.startTime).Ok? && ParseTime(c.endTime).Ok?
    ensures EventFor(c, day).Ok? ==>
              var e := EventFor(c, day).value;
              var t := DayNumber(c.startDate);
              && t <= e.start.day < t + 7
              && Weekday(e.start.day) == DayOfWeekIndex(day)
              && (forall k :: t <= k < e.start.day ==> Weekday(k) != DayOfWeekIndex(day))
              && e.end.day == e.start.day
              && e.start.hours == ParseTime(c.startTime).value.hours
              && e.start.minutes == ParseTime(c.startTime).value.minutes
              && e.end.hours == ParseTime(c.endTime).value.hours
              && e.end.minutes == ParseTime(c.endTime).value.minutes
              && e.summary == c.courseName + " (" + c.component + ")"
              && e.location == c.room
              && e.description == "Instructor: " + c.instructor + "\nSection: " + c.section
              && e.repeating == Weekly(DateTime(DayNumber(c.endDate), 0, 0))
  {
  }

  /** The days of one component give one event per day, in order, or fail if one of them fails. */
  lemma {:induction false} EmitDaysEvents(c: CourseComponent, ds: seq<Day>)
    ensures EmitDays(c, ds).Ok? <==> forall j :: 0 <= j < |ds| ==> EventFor(c, ds[j]).Ok?
    ensures EmitDays(c, ds).Ok? ==>
              forall j :: 0 <= j < |ds| ==> EmitDays(c, ds).value[j] == EventFor(c, ds[j]).value
  {
    if |ds| > 0 {
      var init := ds[..|ds| - 1];
      assert EmitDays(c, ds) == EmitLastDay(c, ds);
      EmitDaysEvents(c, init);
      assert forall j :: 0 <= j < |init| ==> init[j] == ds[j];
      if EmitDays(c, init).Ok? && EventFor(c, ds[|ds| - 1]).Ok? {
        var all := EmitDays(c, ds).value;
        assert all == EmitDays(c, init).value + [EventFor(c, ds[|ds| - 1]).value];
      }
    }
  }

  /**
   * Emission succeeds exactly when every component's days do. The events of
   * component `i` then follow those of the components before it: event
   * `TotalDays(cs[..i]) + j` is the one for its `j`-th day.
   */
  lemma {:induction false} EmitAllEvents(cs: seq<CourseComponent>)
    ensures EmitAll(cs).Ok? <==> forall i :: 0 <= i < |cs| ==> ComponentEvents(cs[i]).Ok?
    ensures forall i :: 0 <= i < |cs| ==> TotalDays(cs[..i]) + |cs[i].days| <= TotalDays(cs)
    ensures EmitAll(cs).Ok? ==> |EmitAll(cs).value| == TotalDays(cs)
    ensures EmitAll(cs).Ok? ==>
              forall i, j :: 0 <= i < |cs| && 0 <= j < |cs[i].days| ==>
                EmitAll(cs).value[TotalDays(cs[..i]) + j] == ComponentEvents(cs[i]).value[j]
  {
    EmitAllOk(cs);
    forall i | 0 <= i < |cs| ensures TotalDays(cs[..i]) + |cs[i].days| <= TotalDays(cs) {
      TotalDaysPrefix(cs, i);
    }
    if EmitAll(cs).Ok? {
      EmittedCount(cs);
      forall i, j | 0 <= i < |cs| && 0 <= j < |cs[i].days|
        ensures EmitAll(cs).value[TotalDays(cs[..i]) + j] == ComponentEvents(cs[i]).value[j]
      {
        EmitAllAt(cs, i, j);
      }
    }
  }

  /** The components before `i` and component `i` together meet no more than all of them. */
  lemma TotalDaysPrefix(cs: seq<CourseComponent>, i: nat)
    requires i < |cs|
    ensures TotalDays(cs[..i]) + |cs[i].days| <= TotalDays(cs)
  {
    assert cs[..i + 1][..i] == cs[..i];
    TotalDaysMonotone(cs, i + 1);
  }

  lemma {:induction false} TotalDaysMonotone(cs: seq<CourseComponent>, n: nat)
    requires n <= |cs|
    ensures TotalDays(cs[..n]) <= TotalDays(cs)
    decreases |cs| - n
  {
    if n < |cs| {
      assert cs[..n + 1][..n] == cs[..n];
      TotalDaysMonotone(cs, n + 1);
    } else {
      assert cs[..n] == cs;
    }
  }

  lemma {:induction false} EmitAllOk(cs: seq<CourseComponent>)
    ensures EmitAll(cs).Ok? <==> forall i :: 0 <= i < |cs| ==> ComponentEvents(cs[i]).Ok?
  {
    GatherOk(cs, ComponentEvents);
  }

  lemma {:induction false} EmitAllAt(cs: seq<CourseComponent>, i: nat, j: nat)
    requires EmitAll(cs).Ok? && i < |cs| && j < |cs[i].days|
    ensures |EmitAll(cs).value| == TotalDays(cs) && ComponentEvents(cs[i]).Ok?
    ensures TotalDays(cs[..i]) + j < TotalDays(cs)
    ensures EmitAll(cs).value[TotalDays(cs[..i]) + j] == ComponentEvents(cs[i]).value[j]
  {
    GatherAt(cs, ComponentEvents, i);
    EmittedCount(cs);
    EmittedCount(cs[..i]);
  }

  /** A successful run creates one event per (component, day) pair. */
  lemma {:induction false} EmittedCount(cs: seq<CourseComponent>)
    requires EmitAll(cs).Ok?
    ensures |EmitAll(cs).value| == TotalDays(cs)
  {
    if |cs| > 0 {
      var init := cs[..|cs| - 1];
      EmittedCount(init);
    }
  }

  /**
   * Emission fails exactly when some (component, day) pair has a time
   * `parseTime` rejects; otherwise each pair's event is at its place.
   */
  lemma {:induction false} EmitAllPairs(cs: seq<CourseComponent>)
    ensures EmitAll(cs).Err? <==>
              exists i, j :: 0 <= i < |cs| && 0 <= j < |cs[i].days| && EventFor(cs[i], cs[i].days[j]).Err?
    ensures EmitAll(cs).Ok? ==> |EmitAll(cs).value| == TotalDays(cs)
    ensures forall i :: 0 <= i < |cs| ==> TotalDays(cs[..i]) + |cs[i].days| <= TotalDays(cs)
    ensures EmitAll(cs).Ok? ==>
              forall i, j :: 0 <= i < |cs| && 0 <= j < |cs[i].days| ==>
                EmitAll(cs).value[TotalDays(cs[..i]) + j] == EventFor(cs[i], cs[i].days[j]).value
  {
    EmitAllEvents(cs);
    forall i | 0 <= i < |cs| {
      EmitDaysEvents(cs[i], cs[i].days);
    }
  }

  /** A component that has days but an empty time makes the whole emission fail. */
  lemma EmptyTimeFails(cs: seq<CourseComponent>, i: nat)
    requires i < |cs| && |cs[i].days| > 0 && (cs[i].startTime == "" || cs[i].endTime == "")
    ensures EmitAll(cs).Err?
  {
    ParseTimeFails("");
    EmitAllPairs(cs);
    assert EventFor(cs[i], cs[i].days[0]).Err?;
  }

  /**
   * On the records of a parsed schedule, emission fails exactly when some
   * record has days but no times: the day decoder gives both times or
   * neither, and every time it gives is one `parseTime` reads.
   */
  lemma ParsedEmission(lines: seq<string>, cs: seq<CourseComponent>)
    requires RecordsOf(lines, Parse(lines), cs)
    ensures EmitAll(cs).Err? <==> exists i :: 0 <= i < |cs| && |cs[i].days| > 0 && cs[i].startTime == ""
  {
    var bs := Parse(lines);
    ParsedBlocks(lines);
    EmitAllPairs(cs);
    if EmitAll(cs).Err? {
      var i, j :| 0 <= i < |cs| && 0 <= j < |cs[i].days| && EventFor(cs[i], cs[i].days[j]).Err?;
      assert cs[i] == BlockRecord(lines, bs[i]);
      DecodedTimesParse(lines[bs[i].at + 3]);
    } else {
      forall i | 0 <= i < |cs| && |cs[i].days| > 0
        ensures cs[i].startTime != ""
      {
        if cs[i].startTime == "" {
          EmptyTimeFails(cs, i);
        }
      }
    }
  }
}
