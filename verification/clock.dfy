/** Time on a naive local timeline measured in integer seconds since
    1970-01-01 00:00, and the calendar facts the program reads off it. */
module Clock {

  const SecondsPerHour: int := 3600
  const SecondsPerDay: int := 86400

  /** Seconds since local midnight, as a parsed "HH:MM" clock time gives them. */
  type TimeOfDay = s: int | 0 <= s < SecondsPerDay

  /** `replace(minute=0, second=0, microsecond=0)`: the top of the hour containing `t`. */
  function HourStart(t: int): (h: int)
    ensures h % SecondsPerHour == 0
    ensures h <= t < h + SecondsPerHour
  {
    t - t % SecondsPerHour
  }

  /** The top of the hour is the only hour boundary at or before `t` less than an hour away. */
  lemma HourStartUnique(t: int, h: int)
    requires h % SecondsPerHour == 0
    requires h <= t < h + SecondsPerHour
    ensures HourStart(t) == h
  {
    var g := HourStart(t);
    assert g % SecondsPerHour == 0;
    var a, b := h / SecondsPerHour, g / SecondsPerHour;
    assert h == a * SecondsPerHour;
    assert g == b * SecondsPerHour;
    assert (a - b) * SecondsPerHour == h - g;
    assert -SecondsPerHour < h - g < SecondsPerHour;
  }

  /** The local instant of a clock time on a given day (days since 1970-01-01). */
  function LocalInstant(day: int, time: TimeOfDay): (t: int)
    ensures t / SecondsPerDay == day && t % SecondsPerDay == time
  {
    day * SecondsPerDay + time
  }

  /** Whole days elapsed between two instants, floored like Python's `timedelta.days`. */
  function DaysBetween(start: int, now: int): (d: int)
    ensures d * SecondsPerDay <= now - start < (d + 1) * SecondsPerDay
  {
    (now - start) / SecondsPerDay
  }

  const WeekdayNames: seq<string> :=
    ["Monday", "Tuesday", "Wednesday", "Thursday", "Friday", "Saturday", "Sunday"]

  /** `strftime("%A")` of a calendar day; day 0, 1970-01-01, was a Thursday. */
  function WeekdayName(day: int): (name: string)
    ensures name in WeekdayNames
  {
    WeekdayNames[(day + 3) % 7]
  }

  /** Weekday names repeat every seven days and only then. */
  lemma WeekdayPeriod(d: int, e: int)
    ensures WeekdayName(d) == WeekdayName(e) <==> (d - e) % 7 == 0
  {
    var i, j := (d + 3) % 7, (e + 3) % 7;
    assert WeekdayName(d) == WeekdayNames[i] && WeekdayName(e) == WeekdayNames[j];
    assert (d - e) % 7 == 0 <==> i == j;
  }

  /** The weekday after a named weekday, Sunday wrapping round to Monday. */
  function NextWeekday(name: string): string {
    match name
    case "Monday" => "Tuesday"
    case "Tuesday" => "Wednesday"
    case "Wednesday" => "Thursday"
    case "Thursday" => "Friday"
    case "Friday" => "Saturday"
    case "Saturday" => "Sunday"
    case "Sunday" => "Monday"
    case _ => name
  }

  /** 1970-01-01 was a Thursday and each day's name is the next weekday
      after the previous day's, which fixes the name of every day. */
  lemma WeekdaySuccession(d: int)
    ensures WeekdayName(0) == "Thursday"
    ensures WeekdayName(d + 1) == NextWeekday(WeekdayName(d))
  {
    var i := (d + 3) % 7;
    assert (d + 1 + 3) % 7 == if i == 6 then 0 else i + 1;
  }
}
