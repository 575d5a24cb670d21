/**
 * Concrete inputs of the kind the converter sees in a pasted Quest
 * schedule, and what the model does with them.
 */
module Scenarios {
  import opened Wrappers
  import opened Text
  import opened Dates
  import opened Times
  import opened Parser
  import opened Emitter

  /** `TTh` is Tuesday then Thursday: the `h` belongs to the `T` before it. */
  lemma TuesdayThursday()
    ensures DecodeDays("TTh") == [Tuesday, Thursday]
  {
    ThursdayAnywhere("T", "");
    assert "T" + "Th" + "" == "TTh";
    LetterAnywhere("", 'T', "");
    assert "" + ['T'] + "" == "T";
  }

  /** `MWF` reads one day per letter. */
  lemma MondayWednesdayFriday()
    ensures DecodeDays("MWF") == [Monday, Wednesday, Friday]
  {
    LetterAnywhere("MW", 'F', "");
    assert "MW" + ['F'] + "" == "MWF";
    LetterAnywhere("M", 'W', "");
    assert "M" + ['W'] + "" == "MW";
    LetterAnywhere("", 'M', "");
    assert "" + ['M'] + "" == "M";
  }

  /** Spaces around the dash cut the time part short: the days are kept, both times are empty. */
  lemma SpacedRange(s: string)
    requires s == "MWF 10:00AM - 10:50AM"
    ensures DaysAndTimes(s) == DaysTimes([Monday, Wednesday, Friday], "", "")
  {
    var tail := "10:00AM" + [' '] + "- 10:50AM";
    assert tail == "10:00AM - 10:50AM";
    assert s == "MWF" + [' '] + tail;
    SpacedDashDropsTimes("MWF", "10:00AM", "- 10:50AM");
    MondayWednesdayFriday();
  }

  /** A 12-hour time just after midnight is hour 0. */
  lemma HalfPastMidnight()
    ensures ParseTime("12:30AM") == Ok(Clock(0, 30))
  {
    ParseTimeReadsToken("12", "30", "AM");
    assert "12" + ":" + "30" + "AM" == "12:30AM";
    assert DigitsValue("12") == 12 && DigitsValue("30") == 30;
  }

  /** A 12-hour time after noon gains twelve hours. */
  lemma TenToFour()
    ensures ParseTime("3:50PM") == Ok(Clock(15, 50))
  {
    ParseTimeReadsToken("3", "50", "PM");
    assert "3" + ":" + "50" + "PM" == "3:50PM";
    assert DigitsValue("3") == 3 && DigitsValue("50") == 50;
  }

  /** An empty time string is rejected with the message of `parseTime`. */
  lemma EmptyTimeRejected()
    ensures ParseTime("") == Err("Invalid time format: ")
  {
    ParseTimeFails("");
    assert "Invalid time format: " + "" == "Invalid time format: ";
  }

  /** 4 September 2024 is day 19970 of the epoch. */
  lemma TermStartDay(s: string)
    requires s == "04/09/2024"
    ensures DayNumber(ParseDate(s)) == 19970
  {
    assert s[0] == '0' && s[1] == '4' && s[3] == '0' && s[4] == '9';
    assert s[6] == '2' && s[7] == '0' && s[8] == '2' && s[9] == '4';
    assert ParseDate(s) == CalendarDate(2024, 8, 4);
    assert DayFromYear(2024) == 19723;
  }

  /** Day 19970 is a Wednesday; the following Monday is five days later. */
  lemma FirstMondayOfTerm()
    ensures Weekday(19970) == DayOfWeekIndex(Wednesday)
    ensures FirstOnOrAfter(19970, DayOfWeekIndex(Monday)) == 19975
  {
  }

  /**
   * Two instructor lines around an empty one: the comma after the first is
   * dropped, the empty line gives nobody, and the names are joined with `, `.
   */
  lemma TwoInstructors(ls: seq<string>)
    requires ls == ["A Lee,", "", "B Tan"]
    ensures Join(Instructors(ls), ", ") == "A Lee, B Tan"
  {
    assert ls == [ls[0]] + [ls[1]] + [ls[2]];
    InstructorsAppend([ls[0]] + [ls[1]], [ls[2]]);
    InstructorsAppend([ls[0]], [ls[1]]);
    InstructorsOne(ls[0]);
    InstructorsOne(ls[1]);
    InstructorsOne(ls[2]);
    assert ls[0] == "A Lee" + ",";
    assert Instructors(ls) == ["A Lee", "B Tan"];
  }
}
