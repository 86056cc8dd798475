/** The week calculator and the week filter applied to the season schedule. */
module Schedule {
  import opened Clock
  import opened Seqs

  /** One scheduled game: home and away team codes, the date ("YYYY-MM-DD")
      and the Eastern kickoff time ("HH:MM") as the schedule provider gives them. */
  datatype Game = Game(home: string, away: string, date: string, time: string)

  /** A row of the season schedule together with the league week it belongs to. */
  datatype ScheduleRow = ScheduleRow(week: int, game: Game)

  /** 2024-09-05 00:00, the opening day of the 2024 season, in local seconds. */
  const SeasonStart: int := LocalInstant(19971, 0)

  /** The league week of `now`: whole days since `start`, divided by seven,
      floored, plus one. Instants before `start` give week 0 or less. */
  function WeekNumber(start: int, now: int): (w: int)
    ensures 7 * (w - 1) <= DaysBetween(start, now) < 7 * w
  {
    DaysBetween(start, now) / 7 + 1
  }

  /** Any instant of the first seven days is week 1. */
  lemma FirstWeek(start: int, now: int)
    requires start <= now < start + 7 * SecondsPerDay
    ensures WeekNumber(start, now) == 1
  {
    var d := DaysBetween(start, now);
    assert 0 <= d < 7;
  }

  /** A later instant is never in an earlier week. */
  lemma WeekMonotone(start: int, a: int, b: int)
    requires a <= b
    ensures WeekNumber(start, a) <= WeekNumber(start, b)
  {
    var da, db := DaysBetween(start, a), DaysBetween(start, b);
    assert da <= db;
  }

  /** Seven days later is exactly one week later. */
  lemma WeekAdvance(start: int, now: int)
    ensures WeekNumber(start, now + 7 * SecondsPerDay) == WeekNumber(start, now) + 1
  {
    var d := DaysBetween(start, now);
    var e := DaysBetween(start, now + 7 * SecondsPerDay);
    assert e == d + 7 by {
      assert (d + 7) * SecondsPerDay <= now + 7 * SecondsPerDay - start < (d + 8) * SecondsPerDay;
    }
  }

  /** The games of the rows that belong to league week `week`, in row order. */
  function GamesOfWeek(rows: seq<ScheduleRow>, week: int): (games: seq<Game>)
    ensures |games| <= |rows|
    ensures forall g :: g in games <==> exists r :: r in rows && r.week == week && r.game == g
  {
    var kept := Filter(rows, (r: ScheduleRow) => r.week == week);
    var games := seq(|kept|, i requires 0 <= i < |kept| => kept[i].game);
    GamesOfRows(kept, games);
    games
  }

  lemma GamesOfRows(kept: seq<ScheduleRow>, games: seq<Game>)
    requires |games| == |kept|
    requires forall i :: 0 <= i < |kept| ==> games[i] == kept[i].game
    ensures forall g :: g in games <==> exists r :: r in kept && r.game == g
  {
    forall g | exists r :: r in kept && r.game == g
      ensures g in games
    {
      var r :| r in kept && r.game == g;
      var i :| 0 <= i < |kept| && kept[i] == r;
      assert games[i] == g;
    }
  }

  /** A single row yields its game exactly when it belongs to the week. */
  lemma GamesOfWeekSingle(row: ScheduleRow, week: int)
    ensures GamesOfWeek([row], week) == if row.week == week then [row.game] else []
  {
    assert Filter([row], (r: ScheduleRow) => r.week == week)
      == (if row.week == week then [row] else []) + Filter([row][1..], (r: ScheduleRow) => r.week == week);
  }

  /** The week filter keeps row order and duplicates: filtering a split
      schedule is filtering its parts and concatenating. */
  lemma GamesOfWeekConcat(a: seq<ScheduleRow>, b: seq<ScheduleRow>, week: int)
    ensures GamesOfWeek(a + b, week) == GamesOfWeek(a, week) + GamesOfWeek(b, week)
  {
    var p := (r: ScheduleRow) => r.week == week;
    FilterConcat(a, b, p);
    var ka, kb := Filter(a, p), Filter(b, p);
    var x, y, z := GamesOfWeek(a + b, week), GamesOfWeek(a, week), GamesOfWeek(b, week);
    assert |x| == |y| + |z|;
    forall i | 0 <= i < |x| ensures x[i] == (y + z)[i] {
      if i < |ka| {
        assert (ka + kb)[i] == ka[i];
      } else {
        assert (ka + kb)[i] == kb[i - |ka|];
      }
    }
  }

  /** `gen_data`: the games of the schedule rows whose week is the current week, in schedule order. */
  function ThisWeeksGames(rows: seq<ScheduleRow>, now: int): (games: seq<Game>)
    ensures games == GamesOfWeek(rows, WeekNumber(SeasonStart, now))
    ensures |games| <= |rows|
    ensures forall g :: g in games <==>
      exists r :: r in rows && r.week == WeekNumber(SeasonStart, now) && r.game == g
  {
    GamesOfWeek(rows, WeekNumber(SeasonStart, now))
  }
}
