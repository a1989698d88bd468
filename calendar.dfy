/** lib/getTime.ts: the 42-cell month grid of the booking calendar, the
    weekday and month labels, and the two half-hour time tables. Days are
    integer day numbers (consecutive days differ by 1); weekdays follow
    day.js `day()`, Sunday = 0 to Saturday = 6. */
module Calendar {

  /** One cell of the grid: its day, whether it belongs to the displayed
      month, and whether it is today (cells of the neighbouring months have
      no `today` flag, which reads as false). */
  datatype DayCell = DayCell(day: int, currentMonth: bool, today: bool)

  const GridSize: int := 42

  /** The weekday of the day `offset` days after a day of weekday `w`. */
  function WeekdayAfter(w: int, offset: int): (r: int)
    ensures 0 <= r < 7
  {
    (w + offset) % 7
  }

  /** `startWeekDay`: how many days of the previous month precede the 1st,
      so that the grid starts on a Monday. */
  function LeadingDays(w: int): (n: int)
    requires 0 <= w < 7
    ensures 0 <= n < 7
    ensures WeekdayAfter(w, -n) == 1
  {
    (w + 6) % 7
  }

  /** `getDays`, given the day number and weekday of the month's 1st, the
      month's length and today's day number (the clock read by the source). */
  method GetDays(firstOfMonth: int, weekdayOfFirst: int, monthLength: int, todayDay: int)
    returns (dateArray: seq<DayCell>)
    requires 0 <= weekdayOfFirst < 7 && 28 <= monthLength <= 31
    ensures |dateArray| == GridSize
    ensures forall j :: 0 <= j < |dateArray| ==>
      dateArray[j].day == firstOfMonth - LeadingDays(weekdayOfFirst) + j
    ensures forall j :: 0 <= j < |dateArray| ==>
      (dateArray[j].currentMonth <==>
        LeadingDays(weekdayOfFirst) <= j < LeadingDays(weekdayOfFirst) + monthLength)
    ensures forall j :: 0 <= j < |dateArray| ==>
      (dateArray[j].today <==> dateArray[j].currentMonth && dateArray[j].day == todayDay)
    ensures WeekdayAfter(weekdayOfFirst, dateArray[0].day - firstOfMonth) == 1
  {
    var startWeekDay := (weekdayOfFirst + 6) % 7;
    dateArray := [];
    // the days of the previous month
    var i := startWeekDay - 1;
    while i >= 0
      invariant -1 <= i < startWeekDay
      invariant |dateArray| == startWeekDay - 1 - i
      invariant forall j :: 0 <= j < |dateArray| ==>
        dateArray[j] == DayCell(firstOfMonth - startWeekDay + j, false, false)
    {
      dateArray := dateArray + [DayCell(firstOfMonth - (i + 1), false, false)];
      i := i - 1;
    }
    // the days of the month
    i := 1;
    while i <= monthLength
      invariant 1 <= i <= monthLength + 1
      invariant |dateArray| == startWeekDay + i - 1
      invariant forall j :: 0 <= j < |dateArray| ==>
        dateArray[j].day == firstOfMonth - startWeekDay + j &&
        (dateArray[j].currentMonth <==> startWeekDay <= j) &&
        (dateArray[j].today <==> dateArray[j].currentMonth && dateArray[j].day == todayDay)
    {
      var currentDate := firstOfMonth + (i - 1);
      dateArray := dateArray + [DayCell(currentDate, true, currentDate == todayDay)];
      i := i + 1;
    }
    // the days of the next month, up to 42 cells
    var forwardDays := GridSize - |dateArray|;
    var lastDateInArray := dateArray[|dateArray| - 1].day;
    i := 1;
    while i <= forwardDays
      invariant 1 <= i <= forwardDays + 1
      invariant |dateArray| == startWeekDay + monthLength + i - 1
      invariant forall j :: 0 <= j < |dateArray| ==>
        dateArray[j].day == firstOfMonth - startWeekDay + j &&
        (dateArray[j].currentMonth <==> startWeekDay <= j < startWeekDay + monthLength) &&
        (dateArray[j].today <==> dateArray[j].currentMonth && dateArray[j].day == todayDay)
    {
      dateArray := dateArray + [DayCell(lastDateInArray + i, false, false)];
      i := i + 1;
    }
  }

  // ---------------------------------------------------------------------
  // Labels

  /** `daysOfTheWeek`: the grid's column headers, Monday first. */
  const DaysOfTheWeek: seq<string> := ["Lu", "Ma", "Mi", "J", "V", "S", "D"]

  /** `months`. */
  const Months: seq<string> := [
    "Ianuarie", "Februarie", "Martie", "Aprilie", "Mai", "Iunie",
    "Iulie", "August", "Septembrie", "Octombrie", "Noiembrie", "Decembrie"]

  lemma LabelTables()
    ensures |DaysOfTheWeek| == 7 && DaysOfTheWeek[0] == "Lu" && DaysOfTheWeek[6] == "D"
    ensures |Months| == 12 && Months[0] == "Ianuarie" && Months[11] == "Decembrie"
  {
  }

  /** The header of the column a day of weekday `d` belongs to. */
  function WeekdayLabel(d: int): string
    requires 0 <= d < 7
  {
    DaysOfTheWeek[(d + 6) % 7]
  }

  /** Cell `j` of the grid lies under header `j % 7`: the header row and the
      grid agree on every weekday. */
  lemma {:induction false} GridColumnLabel(w: int, j: nat)
    requires 0 <= w < 7
    ensures WeekdayLabel(WeekdayAfter(w, j - LeadingDays(w))) == DaysOfTheWeek[j % 7]
  {
    var lead := LeadingDays(w);
    var a := (w + 6) / 7;
    assert w + 6 == 7 * a + lead;
    var b := j / 7;
    assert j == 7 * b + j % 7;
    var d := WeekdayAfter(w, j - lead);
    assert w + (j - lead) == 7 * (a + b - 1) + (j % 7 + 1);
    if j % 7 == 6 {
      assert w + (j - lead) == 7 * (a + b) + 0;
      assert d == 0;
    } else {
      assert d == j % 7 + 1;
    }
  }

  // ---------------------------------------------------------------------
  // Time tables, as minutes after midnight

  /** `new Date(0, 0, 0, h, m)`, kept as its time of day. */
  function Hm(h: int, m: int): int
  {
    60 * h + m
  }

  /** `InstructorsTimes`: every half hour of the day (written as eight
      rows of six so that each display stays small for the verifier). */
  const InstructorsTimes: seq<int> :=
    [Hm(0, 0), Hm(0, 30), Hm(1, 0), Hm(1, 30), Hm(2, 0), Hm(2, 30)] +
    [Hm(3, 0), Hm(3, 30), Hm(4, 0), Hm(4, 30), Hm(5, 0), Hm(5, 30)] +
    [Hm(6, 0), Hm(6, 30), Hm(7, 0), Hm(7, 30), Hm(8, 0), Hm(8, 30)] +
    [Hm(9, 0), Hm(9, 30), Hm(10, 0), Hm(10, 30), Hm(11, 0), Hm(11, 30)] +
    [Hm(12, 0), Hm(12, 30), Hm(13, 0), Hm(13, 30), Hm(14, 0), Hm(14, 30)] +
    [Hm(15, 0), Hm(15, 30), Hm(16, 0), Hm(16, 30), Hm(17, 0), Hm(17, 30)] +
    [Hm(18, 0), Hm(18, 30), Hm(19, 0), Hm(19, 30), Hm(20, 0), Hm(20, 30)] +
    [Hm(21, 0), Hm(21, 30), Hm(22, 0), Hm(22, 30), Hm(23, 0), Hm(23, 30)]

  /** `DemoTimes`: the half hours from 09:00 to 18:00. */
  const DemoTimes: seq<int> := [
    Hm(9, 0), Hm(9, 30), Hm(10, 0), Hm(10, 30), Hm(11, 0), Hm(11, 30),
    Hm(12, 0), Hm(12, 30), Hm(13, 0), Hm(13, 30), Hm(14, 0), Hm(14, 30),
    Hm(15, 0), Hm(15, 30), Hm(16, 0), Hm(16, 30), Hm(17, 0), Hm(17, 30),
    Hm(18, 0)]

  lemma InstructorsTimesHalfHours()
    ensures |InstructorsTimes| == 48
    ensures forall i :: 0 <= i < |InstructorsTimes| ==> InstructorsTimes[i] == 30 * i
  {
    var t := InstructorsTimes;
    assert t[0..6] == seq(6, i => 0 + 30 * i);
    assert t[6..12] == seq(6, i => 180 + 30 * i);
    assert t[12..18] == seq(6, i => 360 + 30 * i);
    assert t[18..24] == seq(6, i => 540 + 30 * i);
    assert t[24..30] == seq(6, i => 720 + 30 * i);
    assert t[30..36] == seq(6, i => 900 + 30 * i);
    assert t[36..42] == seq(6, i => 1080 + 30 * i);
    assert t[42..48] == seq(6, i => 1260 + 30 * i);
    forall i | 0 <= i < |t| ensures t[i] == 30 * i {
      var k := i / 6;
      assert t[i] == t[6 * k..6 * k + 6][i - 6 * k];
    }
  }

  lemma DemoTimesHalfHours()
    ensures |DemoTimes| == 19 && DemoTimes[0] == Hm(9, 0) && DemoTimes[18] == Hm(18, 0)
    ensures forall i :: 0 <= i < |DemoTimes| ==> DemoTimes[i] == Hm(9, 0) + 30 * i
    ensures forall i, j :: 0 <= i < j < |DemoTimes| ==> DemoTimes[i] < DemoTimes[j]
    ensures DemoTimes == InstructorsTimes[18..37]
  {
    InstructorsTimesHalfHours();
  }
}
