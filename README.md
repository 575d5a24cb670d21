# UWPilot schedule converter, modelled in Dafny

UWPilot turns the text a student copies from the University of Waterloo
Quest "Class Schedule" page into an ICS calendar of weekly recurring class
meetings. All of its logic is in `pages/api/generate-ics.ts`. This project
models that logic and proves properties of the model:

- `parseCourseComponents` scans the pasted lines. Course-title lines set the
  current course name. A column-header line opens a table of class blocks:
  class number, section, component, days and times, room, instructor lines,
  then the line with the term's start and end dates. Each block becomes one
  `CourseComponent` record.
- `parseDaysAndTimes` decodes a cell such as `TTh 2:30PM-3:50PM` into
  weekdays and two time strings.
- `parseDate`, `getDayOfWeekIndex` and `parseTime` are the date and time
  helpers. `combineDateTime` keeps its hour and minute logic only.
- `generateICalendar` creates one event per component and day it meets. The
  event starts on the first such weekday on or after the term's first day,
  and repeats weekly until the term's last day.

The modules follow the structure of the program:

| file | module | what it holds |
|---|---|---|
| `wrappers.dfy` | `Wrappers` | `Option` and `Result` |
| `text.dfy` | `Text` | the JavaScript string primitives used: `\s`, `trim`, `split`, `join`, `parseInt` on digits |
| `patterns.dfy` | `Patterns` | the course-title, header, class-number and dates regular expressions, as matchers |
| `dates.dfy` | `Dates` | weekdays, `new Date(y, m, d)` as a day number, `parseDate`, the first-occurrence loop |
| `times.dfy` | `Times` | `parseTime` and `parseDaysAndTimes` with its day-letter loop |
| `parser.dfy` | `Parser` | `parseCourseComponents`: the nested loops as methods, and a scanner function that specifies them |
| `emitter.dfy` | `Emitter` | `combineDateTime` and `generateICalendar`, building the list of events that `calendar.createEvent` is called with |
| `scenarios.dfy` | `Scenarios` | concrete cells, times and dates, and what the model makes of them |

The model uses these representations:

- A `Date` built by `new Date(year, month, day)` is a day number, computed
  with the ECMAScript `MakeDay` rules. That includes month roll-over and the
  rule that years 0 to 99 mean 1900 to 1999. `getDay()` of day `n` is
  `(n + 4) % 7`, since day 0 (1 January 1970) was a Thursday.
- A date with a time of day set on it is `DateTime(day, hours, minutes)`.
- `parseTime` throwing is the `Err` of a `Result`. An error in any event
  makes the whole of `generateICalendar` an `Err`, as the exception escapes
  its loops.
- Each loop of the source is a Dafny `method` with a `while` loop. It is
  proved equal to a specification function, and the properties are proved
  about that function:
  `Parser.ParseLines` (the loop of `Parser.ParseCourseComponents`) against `Parser.Parse`,
  `Parser.ReadTable` against `Parser.ScanTable`,
  `Parser.ReadInstructors` against `Parser.Instructors`,
  `Times.DecodeDayLetters` against `Times.DecodeDays`,
  `Emitter.CreateEvents` against `Emitter.EmitDays`,
  `Emitter.GenerateICalendar` against `Emitter.EmitAll`, and
  `Dates.FirstOccurrence` against the closed form `Dates.FirstOnOrAfter`.
  All but the last are recursive.
- The body of the table loop of `parseCourseComponents`, which reads one
  class entry, is the method `Parser.ReadEntry`. Its outcome (`Entry`) says
  which of the loop's `break`, `continue` or `push` ends the entry, and
  `Parser.ReadTable` acts on it.

Where the code's names or comments suggest other behaviour, the model
follows the code:

- `split(' ', 2)` keeps only the text between the first and the second
  space as the time part. A range written with spaces around its dash, such
  as `MWF 10:00AM - 10:50AM`, therefore gives the right days but two empty
  times. `TTh 1:00 - 2:20` is lost the same way. Generating the calendar
  then fails, because `parseTime('')` throws (`Times.SpacedDashDropsTimes`,
  `Scenarios.SpacedRange`, `Emitter.ParsedEmission`).
- A class number needs at least five more lines after it to start a block
  (`index + 4 >= lines.length` is tested after `index` has moved past the
  class number).
- After that "not enough lines" `break`, the outer loop goes on at the line
  after the class number, not at the end of the input. After the class-number
  test fails, the outer loop looks at that same line again.
- The recurrence ends at midnight at the start of the term's last day.

## Model

| member | source | states |
|---|---|---|
| Text.Trim | pages/api/generate-ics.ts:72 | `trim` keeps exactly the text between the leading and the trailing whitespace; what it keeps neither starts nor ends with whitespace |
| Text.TrimIdempotent | pages/api/generate-ics.ts:72 | trimming a trimmed line changes nothing |
| Text.Split | pages/api/generate-ics.ts:72 | a split gives at least one piece, and no piece contains the separator |
| Text.JoinSplit | pages/api/generate-ics.ts:72 | joining the pieces of a split with the separator gives back the original string |
| Text.SplitJoin | pages/api/generate-ics.ts:72 | splitting a join of separator-free pieces gives back the pieces |
| Text.DropLast | pages/api/generate-ics.ts:129 | a string ending in the given character loses exactly that one character, and any other string is unchanged; with `,` it is `replace(/,$/, '')`, with `\r` the optional carriage return of `split(/\r?\n/)` at line 72 |
| Text.SplitLines | pages/api/generate-ics.ts:72 | `split(/\r?\n/)` has one piece per line feed plus one; every piece before a line feed loses the carriage return it ends with, if any, and is otherwise unchanged; the last piece is kept as it is |
| Text.TrimmedLines | pages/api/generate-ics.ts:72 | the parser's lines are the pieces of `split(/\r?\n/)`, each trimmed |
| Text.Join | pages/api/generate-ics.ts:134 | `join` with a separator; `Text.JoinSplit` and `Text.SplitJoin` prove it the inverse of `split` |
| Text.DigitsValueBound | pages/api/generate-ics.ts:199-202 | `parseInt` of `n` decimal digits is below `10^n` |
| Patterns.IsClassNumber | pages/api/generate-ics.ts:102 | `/^\d+$/`: a non-empty line of decimal digits; `Patterns.ClassNumberIsNotTitle` proves no such line is a course title |
| Patterns.IsCourseTitle | pages/api/generate-ics.ts:74 | the greedy matcher for the course-title pattern; `Patterns.CourseTitleIsCut` and `Patterns.CutIsCourseTitle` prove it accepts exactly the lines of that pattern |
| Patterns.IsHeader | pages/api/generate-ics.ts:75-76 | the header pattern: the seven column names with whitespace between; `Patterns.ColumnsSeparatedInterleave` and `Patterns.ColumnsSeparatedHasSeparators` prove both directions |
| Patterns.CourseTitleIsCut | pages/api/generate-ics.ts:74 | every line the course-title matcher accepts can be cut into the parts of `^[A-Z]{2,}\s+\d+[A-Z]*\s*-\s*.+$` |
| Patterns.CutIsCourseTitle | pages/api/generate-ics.ts:74 | every line that can be cut into those parts is accepted by the matcher |
| Patterns.ColumnsSeparatedInterleave | pages/api/generate-ics.ts:75-76 | the header columns joined by any non-empty whitespace runs make a header line |
| Patterns.ColumnsSeparatedHasSeparators | pages/api/generate-ics.ts:75-76 | every header line is the header columns joined by non-empty whitespace runs |
| Patterns.HeaderIsNotTitle | pages/api/generate-ics.ts:74-76 | a header line is neither a course title nor a class number |
| Patterns.ClassNumberIsNotTitle | pages/api/generate-ics.ts:74 | a line of digits is never a course title |
| Patterns.DatesAt | pages/api/generate-ics.ts:77 | a dates match at one position captures two `dd/dd/dddd` tokens |
| Patterns.MatchDates | pages/api/generate-ics.ts:77 | both captures of a dates match are `dd/dd/dddd` tokens |
| Patterns.DatesFromNone | pages/api/generate-ics.ts:126 | `datesPattern.test` fails exactly when the pattern matches at no position of the line |
| Patterns.DatesFromLeftmost | pages/api/generate-ics.ts:143 | the captures `match` returns are those of the leftmost position where the pattern matches |
| Dates.DayOfWeekIndex | pages/api/generate-ics.ts:278-289 | `getDayOfWeekIndex` gives a number below 7, and 0 exactly for Sunday |
| Dates.DayAtIndex | pages/api/generate-ics.ts:278-289 | each index below 7 belongs to a day |
| Dates.DayOfWeekIndexBijective | pages/api/generate-ics.ts:278-289 | `getDayOfWeekIndex` is one-to-one, and `DayAtIndex` undoes it |
| Dates.JsDate | pages/api/generate-ics.ts:203 | `new Date(year, month, date)` as a day number, with years 0 to 99 read as 1900 to 1999; `Dates.DayFromYearStep`, `Dates.MonthLength` and `Dates.MakeDayYearRollover` prove its calendar arithmetic |
| Dates.DayFromYearStep | pages/api/generate-ics.ts:203 | the first days of two consecutive years are 365 or, in a leap year, 366 days apart |
| Dates.MonthLength | pages/api/generate-ics.ts:203 | the first days of two consecutive months are that month's length apart, across a year end too |
| Dates.MakeDayYearRollover | pages/api/generate-ics.ts:203 | a month index 12 higher is the same month of the next year |
| Dates.ParseDate | pages/api/generate-ics.ts:197-204 | `parseDate` splits a `dd/mm/yyyy` token at `/` into three digit strings and reads them as day, month and year, with the month made 0-based |
| Dates.ParseDateBounds | pages/api/generate-ics.ts:197-204 | on a token the day is 0 to 99, the 0-based month -1 to 98 and the year 0 to 9999 |
| Dates.DateTokenFields | pages/api/generate-ics.ts:199-202 | the three `/`-separated fields of a token are digit strings whose values are its two-, two- and four-digit groups |
| Dates.SplitDateToken | pages/api/generate-ics.ts:199 | a `dd/mm/yyyy` token splits into its three fields |
| Dates.Weekday | pages/api/generate-ics.ts:340 | `getDay()` of a day number is below 7, counted from Thursday 1 January 1970; `Dates.WeekdayShift` proves that each day added moves it on by one, modulo 7 |
| Dates.WeekdayShift | pages/api/generate-ics.ts:341 | `setDate(getDate() + 1)` moves `getDay()` on by one, modulo 7 |
| Dates.FirstOnOrAfter | pages/api/generate-ics.ts:337-342 | the first day on or after the start with the target weekday is less than a week on, has that weekday, and no earlier day from the start has it |
| Dates.FirstOccurrence | pages/api/generate-ics.ts:337-342 | the loop stops within a week of the start, on the target weekday, and no earlier day from the start has it |
| Dates.FirstOnOrAfterStaysPut | pages/api/generate-ics.ts:340 | a start that already has the target weekday is returned unchanged |
| Dates.FirstOnOrAfterUnique | pages/api/generate-ics.ts:337-342 | those three properties determine the loop's result |
| Times.To24 | pages/api/generate-ics.ts:300-304 | the 12-to-24-hour rule keeps the hour modulo 12, gives an hour below 24 unless it leaves the hour as it is, and ignores any suffix but `AM` or `PM` |
| Times.To24IsClockTime | pages/api/generate-ics.ts:300-304 | on a 12-hour clock value, the rule gives an hour below 24, with the same value modulo 12, that is 12 or more exactly for PM |
| Times.ParseTime | pages/api/generate-ics.ts:291-316 | the error message is `Invalid time format: ` followed by the input |
| Times.ParseTimeFails | pages/api/generate-ics.ts:291-316 | `parseTime` throws exactly when no position of the string starts an `H:MM` or `HH:MM`; in particular on `''` |
| Times.ParseTimeReadsToken | pages/api/generate-ics.ts:291-316 | a written time `H:MM`, `H:MMAM` or `H:MMPM` is read with its hour made 24-hour (`PM` below 12 adds 12, `12AM` is 0) and its minutes unchanged |
| Times.ParseTime24PassesThrough | pages/api/generate-ics.ts:308-313 | a 24-hour time is read with hour and minutes unchanged |
| Times.ClockFromNone | pages/api/generate-ics.ts:295-308 | the leftmost-match search finds nothing exactly when no position matches |
| Times.ClockFromAt | pages/api/generate-ics.ts:295-308 | the search returns the match at the first position that has one |
| Times.Clock12At | pages/api/generate-ics.ts:292 | a 12-hour clock match is a clock match followed by `AM` or `PM` in either case, and its suffix is upper-cased |
| Times.IsTba | pages/api/generate-ics.ts:211 | `toUpperCase() === 'TBA'`: the three letters `t`, `b`, `a` in either case; `Times.DaysAndTimes` turns such a cell into no days and empty times |
| Times.LetterDay | pages/api/generate-ics.ts:224-249 | a single letter gives at most one day, and one exactly for `M`, `T`, `W`, `F`, `S` |
| Times.DecodeDays | pages/api/generate-ics.ts:234-251 | the decoder never gives more days than there are characters |
| Times.DecodeDaysConcat | pages/api/generate-ics.ts:234-251 | the days of two pieces of text, one after the other, are the days of each piece in order, as long as no `Th` or `Su` crosses the boundary; order and duplicates are kept |
| Times.ThursdayAnywhere | pages/api/generate-ics.ts:238-240 | `Th` anywhere gives Thursday and takes both characters, never Tuesday followed by a stray `h` |
| Times.SundayAnywhere | pages/api/generate-ics.ts:241-243 | `Su` anywhere gives Sunday and takes both characters, never Saturday followed by a stray `u` |
| Times.LetterAnywhere | pages/api/generate-ics.ts:244-249 | any other character gives its one-letter day, and an unknown one gives nothing |
| Times.DecodeDayLetters | pages/api/generate-ics.ts:234-251 | the `index` loop with its `startsWith` tests gives exactly the decoded days |
| Times.SplitLimit | pages/api/generate-ics.ts:215 | `split(' ', 2)` gives the first pieces of the full split, at most two |
| Times.SplitLimitTwo | pages/api/generate-ics.ts:215 | with a limit of two, everything after the second space is dropped |
| Times.DecodeTimes | pages/api/generate-ics.ts:253-275 | the two time strings are both empty or both non-empty |
| Times.RangeNeedsDash | pages/api/generate-ics.ts:254-264 | a time part without a `-` matches neither time pattern |
| Times.RangeFromNoClock | pages/api/generate-ics.ts:254-265 | where no clock of a kind starts, no range of that kind is found |
| Times.ClockAtToken | pages/api/generate-ics.ts:254-264 | a written-out time standing in the text is the clock each pattern reads there, digits and suffix unchanged |
| Times.NoLetterNoClock12 | pages/api/generate-ics.ts:254 | text without `a`, `A`, `p` or `P` holds no 12-hour clock |
| Times.ShownRangeAt | pages/api/generate-ics.ts:254-265 | two written-out times of one kind around a dash are the range that pattern finds at the start |
| Times.ShownRange24No12 | pages/api/generate-ics.ts:254-258 | two 24-hour times around a dash do not match the 12-hour pattern |
| Times.CompactRangeReadsBack | pages/api/generate-ics.ts:253-270 | a time part written as two 12-hour or two 24-hour times around a dash, without spaces, gives back exactly those two times |
| Times.DaysAndTimes | pages/api/generate-ics.ts:206-276 | a `TBA` cell, or one without a space, gives no days and empty times; otherwise there are no more days than characters, and both times are empty or both non-empty |
| Times.SpacedDashDropsTimes | pages/api/generate-ics.ts:215-275 | days, a space, a time part without a dash and a space give those days and two empty times, whatever follows |
| Times.TimePartHasNoSpace | pages/api/generate-ics.ts:215-222 | the time part never contains a space, and the days come from the text before the first space |
| Times.DecodedTimesParse | pages/api/generate-ics.ts:253-316 | every non-empty time the decoder gives is one `parseTime` accepts |
| Times.ShownTimeIsToken | pages/api/generate-ics.ts:295-313 | a written-out time reads back with its hour made 24-hour by `To24` and its minutes unchanged |
| Times.ParseDaysAndTimes | pages/api/generate-ics.ts:206-276 | the method gives exactly the result `DaysAndTimes` specifies |
| Parser.InstructorsAppend | pages/api/generate-ics.ts:126-132 | the instructors of two runs of lines, one after the other, are the instructors of each run, in order |
| Parser.InstructorsOne | pages/api/generate-ics.ts:128-130 | an empty line gives no instructor, and any other line gives one, without its trailing comma |
| Parser.ReadInstructors | pages/api/generate-ics.ts:124-132 | the loop stops at the first line from `first` on that contains a date range, or at the end; it collects the non-empty lines before it, each without one trailing comma |
| Parser.ReadEntry | pages/api/generate-ics.ts:107-182 | one class entry: it is short exactly when fewer than five lines follow the class number, it has no dates exactly when no line from the fifth after the class number on holds a date range, it is skipped exactly when its days are TBA, and otherwise its record is the record of the block from the class number to the dates line |
| Parser.ReadTable | pages/api/generate-ics.ts:99-187 | the class blocks of one table: the records are those of the blocks the scanner reads, and the table ends where the scanner leaves it |
| Parser.ParseLines | pages/api/generate-ics.ts:74-192 | the outer loop over the trimmed lines gives, in order, the records of the blocks the scanner `Parse` reads |
| Parser.ParseCourseComponents | pages/api/generate-ics.ts:70-195 | the records, in order, are those of the blocks the scanner `Parse` reads from the trimmed lines |
| Parser.ScanTableLeaves | pages/api/generate-ics.ts:102-105 | a line that is not a class number ends the table, and the outer loop looks at the same line again |
| Parser.ScanTableShort | pages/api/generate-ics.ts:109-113 | a class number with fewer than five lines after it gives no record and ends the table |
| Parser.ScanTableNoDates | pages/api/generate-ics.ts:126-140 | a block with no date range before the end of the input gives no record and ends the parse |
| Parser.ScanTableBlock | pages/api/generate-ics.ts:142-186 | a complete block gives its record unless its days and times are `TBA`, and the table goes on after its dates line |
| Parser.BlockRecord | pages/api/generate-ics.ts:173-184 | the record of a block: the current course name; section, component and room from the first, second and fourth lines after the class number; the instructor lines, each less one trailing comma, joined with `, `; on a block read from the lines, the days and times that line three decodes to and the dates `parseDate` reads from the two captures of the dates line |
| Parser.ParsedBlocks | pages/api/generate-ics.ts:79-186 | every record comes from a class-number line, four fixed lines (section, component, days and times, room), the instructor lines and the first line from the fifth after the class number on that holds a date range; its days are not `TBA`; its course name is `Unknown Course` or an earlier course-title line; the blocks do not overlap and come in input order |
| Parser.NoHeaderNoRecords | pages/api/generate-ics.ts:94 | without a header line there are no records |
| Emitter.CombineDateTime | pages/api/generate-ics.ts:318-326 | the day with the hours and minutes `parseTime` reads, or its error |
| Emitter.EventFor | pages/api/generate-ics.ts:345-346 | an event fails only when a time fails to parse, and then with the message naming the start time if that one fails, else the end time |
| Emitter.EventForFields | pages/api/generate-ics.ts:337-360 | an event exists exactly when both times parse; it starts on the first day with the weekday on or after the term's start, and ends that day; its times are the parsed ones; its summary, location, description and weekly recurrence until the last day are the fixed strings and fields |
| Emitter.EmitDaysEvents | pages/api/generate-ics.ts:336-364 | the days of one component give one event per day, in order, or fail exactly when one of them fails |
| Emitter.EmittedCount | pages/api/generate-ics.ts:335-364 | a successful run creates one event per (component, day) pair |
| Emitter.EmitAllEvents | pages/api/generate-ics.ts:335-364 | emission succeeds exactly when every component's days do; the events of a component follow those of the components before it, in day order |
| Emitter.EmitAllPairs | pages/api/generate-ics.ts:335-364 | emission fails exactly when some (component, day) pair has a time `parseTime` rejects; otherwise there is one event per pair, in component and then day order, each the event of its pair |
| Emitter.EmptyTimeFails | pages/api/generate-ics.ts:315-346 | a component with days but an empty time makes the whole emission fail |
| Emitter.ParsedEmission | pages/api/generate-ics.ts:315-346 | on parsed records, emission fails exactly when some record has days but no times |
| Emitter.CreateEvents | pages/api/generate-ics.ts:336-364 | the loop over one component's days appends exactly that component's events, or stops with the first error |
| Emitter.GenerateICalendar | pages/api/generate-ics.ts:328-366 | the nested loops give exactly the events `EmitAll` specifies, or its first error |
| Scenarios.TuesdayThursday | pages/api/generate-ics.ts:234-251 | `TTh` is Tuesday then Thursday |
| Scenarios.MondayWednesdayFriday | pages/api/generate-ics.ts:234-251 | `MWF` is Monday, Wednesday, Friday |
| Scenarios.SpacedRange | pages/api/generate-ics.ts:215-222 | `MWF 10:00AM - 10:50AM` gives Monday, Wednesday, Friday and two empty times |
| Scenarios.HalfPastMidnight | pages/api/generate-ics.ts:300-305 | `12:30AM` is 0:30 |
| Scenarios.TenToFour | pages/api/generate-ics.ts:300-305 | `3:50PM` is 15:50 |
| Scenarios.EmptyTimeRejected | pages/api/generate-ics.ts:315 | `parseTime('')` fails with `Invalid time format: ` |
| Scenarios.TermStartDay | pages/api/generate-ics.ts:197-204 | `04/09/2024` is 4 September 2024, day 19970 |
| Scenarios.FirstMondayOfTerm | pages/api/generate-ics.ts:337-342 | day 19970 is a Wednesday, and the first Monday from it is five days later |
| Scenarios.TwoInstructors | pages/api/generate-ics.ts:126-134 | the lines `A Lee,`, an empty line and `B Tan` give the instructor field `A Lee, B Tan` |

## Left out

- The HTTP `handler` (lines 27-68): method and body checks, headers, status codes and the `try`/`catch`. A `parseTime` error is the `Err` result instead of a 500 reply.
- `console.log` calls: they are logging only.
- The `ical-generator` library: serialising the calendar to ICS text, and the time zone handling. The model stops at the list of records `createEvent` is called with. The calendar's options at lines 329-332, the name `Course Schedule` and the zone `America/Toronto`, reach only the ICS text, so they are not modelled.
- `uuidv4()`: it is random, so the events carry no `uid`.
- The local time zone, daylight saving time and the America/Toronto zone: a date with a time is a day number with hours and minutes.
- `setHours` and `setMinutes` overflow: the hours `parseTime` gives can be up to 99 (`99:00`), and the minutes up to 99 (`10:75`). They are kept as they are, not carried into the next hour or day.
- `new Date()` at lines 153-154: the current date. That branch cannot be reached (see `Parser.ReadEntry`), so it has no counterpart.
- The regular-expression engine: each pattern is a hand-written matcher. The title and header matchers are proved equal to their patterns.
- `Parser.ParsedBlocks`: states that a record's course name is an earlier course-title line, not that it is the most recent one. Title-shaped lines inside a class block do not change the name, so "most recent title line" is not what the code does either.
- `Dates.ParseDate`: it takes the ten-character captures of the dates pattern, the only strings the parser gives it. `parseInt` on other strings is not modelled.
- `Parser.Instructors`: its own contract only bounds the length. What it gives is stated by `Parser.InstructorsOne` and `Parser.InstructorsAppend`, and `Scenarios.TwoInstructors` applies them to three lines.
- `toUpperCase` is modelled only as far as `TBA` and `AM`/`PM` need it; no other character upper-cases to these letters.
- The React and Next.js components, `app/` and `lib/utils.ts`: these are presentation and browser code. lib/utils.ts is not part of this model.
