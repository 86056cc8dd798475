/** The report generator: one titled weather report per game of the week
    that is played on the requested weekday and whose processing succeeds. */
module Reporting {
  import opened Wrappers
  import opened Seqs
  import opened Clock
  import opened Schedule
  import opened Aligner

  /** The title line: it opens with the home team's code and closes with a newline. */
  function Header(g: Game): (h: string)
    ensures |g.home| < |h| && h[..|g.home|] == g.home && h[|h| - 1] == '\n'
    ensures |h| == |g.home| + |g.away| + 27
  {
    g.home + "(H) vs " + g.away + "(A) weather report:\n"
  }

  /** Piece by piece, the title labels the home team `(H)` and the away
      team `(A)`: after the home code comes "(H) vs ", then the away code,
      then "(A) weather report:" and the newline. */
  lemma HeaderLayout(g: Game)
    ensures var h, n := Header(g), |g.home| + 7;
      && h[n - 7..n] == "(H) vs "
      && h[n..n + |g.away|] == g.away
      && h[n + |g.away|..] == "(A) weather report:\n"
  {
  }

  /** When neither team code holds a '(' the title names both teams
      unambiguously: equal titles come from the same home and away teams. */
  lemma HeaderDeterminesTeams(g: Game, g': Game)
    requires '(' !in g.home && '(' !in g.away && '(' !in g'.home && '(' !in g'.away
    requires Header(g) == Header(g')
    ensures g.home == g'.home && g.away == g'.away
  {
    var h := Header(g);
    var x, y := g.home, g'.home;
    assert h[|x|] == '(' && h[|y|] == '(';
    assert |x| == |y|;
    assert x == h[..|x|] == y;
    var a, b := g.away, g'.away;
    var k := |x| + 7;
    assert h[k + |a|] == '(' && h[k + |b|] == '(';
    assert |a| == |b|;
    assert a == h[k..k + |a|] == b;
  }

  /** One pass of the loop body for game `g`: `Failure` is an exception the
      loop catches, `Success(None)` a game on another weekday, and
      `Success(Some(report))` a report to keep. */
  function Process(g: Game, day: string, env: Env): (r: Result<Option<string>, GameError>)
    ensures r == Success(None) <==> exists d :: env.parseDate(g.date) == Some(d) && WeekdayName(d) != day
    ensures r.Success? && r.value.Some? ==>
      && (exists d :: env.parseDate(g.date) == Some(d) && WeekdayName(d) == day)
      && (exists body :: GameWeather(g.home, g.date, g.time, env) == Success(body) && r.value.value == Header(g) + body)
    ensures env.parseDate(g.date).None? ==> r == Failure(BadDate(g.date))
    ensures (exists d :: env.parseDate(g.date) == Some(d) && WeekdayName(d) == day) ==>
      (r.Success? <==> GameWeather(g.home, g.date, g.time, env).Success?)
    ensures forall b :: ((exists d :: env.parseDate(g.date) == Some(d) && WeekdayName(d) == day)
      && GameWeather(g.home, g.date, g.time, env) == Success(b)) ==> r == Success(Some(Header(g) + b))
    ensures forall err :: ((exists d :: env.parseDate(g.date) == Some(d) && WeekdayName(d) == day)
      && GameWeather(g.home, g.date, g.time, env) == Failure(err)) ==> r == Failure(err)
  {
    match env.parseDate(g.date)
    case None => Failure(BadDate(g.date))
    case Some(d) =>
      if WeekdayName(d) != day then Success(None)
      else
        match GameWeather(g.home, g.date, g.time, env)
        case Failure(err) => Failure(err)
        case Success(body) => Success(Some(Header(g) + body))
  }

  /** The game yields a report. */
  predicate Delivered(g: Game, day: string, env: Env) {
    Process(g, day, env).Success? && Process(g, day, env).value.Some?
  }

  function ReportOf(g: Game, day: string, env: Env): string
    requires Delivered(g, day, env)
  {
    Process(g, day, env).value.value
  }

  /** What one game adds to the list: its report, or nothing. */
  function Contribution(g: Game, day: string, env: Env): seq<string> {
    if Delivered(g, day, env) then [ReportOf(g, day, env)] else []
  }

  /** The reports of `gen_reports`, built game by game in schedule order. */
  function Reports(games: seq<Game>, day: string, env: Env): (rs: seq<string>)
    ensures |rs| <= |games|
    decreases |games|
  {
    if |games| == 0 then []
    else Reports(games[..|games| - 1], day, env) + Contribution(games[|games| - 1], day, env)
  }

  /** The games that yield a report, in schedule order. */
  function DeliveredGames(games: seq<Game>, day: string, env: Env): seq<Game> {
    Filter(games, g => Delivered(g, day, env))
  }

  /** Reports of a split schedule are the reports of its parts, concatenated. */
  lemma {:induction false} ReportsConcat(a: seq<Game>, b: seq<Game>, day: string, env: Env)
    ensures Reports(a + b, day, env) == Reports(a, day, env) + Reports(b, day, env)
    decreases |b|
  {
    if |b| == 0 {
      assert a + b == a;
    } else {
      var b' := b[..|b| - 1];
      assert (a + b)[..|a + b| - 1] == a + b';
      ReportsConcat(a, b', day, env);
    }
  }

  /** A game affects only its own slot of the output: the games before and
      after it contribute the same reports whatever it does. */
  lemma ReportsIsolation(before: seq<Game>, g: Game, after: seq<Game>, day: string, env: Env)
    ensures Reports(before + [g] + after, day, env)
      == Reports(before, day, env) + Contribution(g, day, env) + Reports(after, day, env)
  {
    ReportsConcat(before + [g], after, day, env);
    assert (before + [g])[..|before + [g]| - 1] == before;
  }

  /** A game whose processing fails is dropped as if it were not scheduled. */
  lemma FailingGameDropped(before: seq<Game>, g: Game, after: seq<Game>, day: string, env: Env)
    requires Process(g, day, env).Failure?
    ensures Reports(before + [g] + after, day, env) == Reports(before + after, day, env)
  {
    ReportsIsolation(before, g, after, day, env);
    ReportsConcat(before, after, day, env);
  }

  /** Exactly one report per delivering game, in schedule order, each being
      that game's report. */
  lemma {:induction false} ReportsSpec(games: seq<Game>, day: string, env: Env)
    ensures var k := DeliveredGames(games, day, env);
      var rs := Reports(games, day, env);
      |rs| == |k| && forall i :: 0 <= i < |k| ==> Delivered(k[i], day, env) && rs[i] == ReportOf(k[i], day, env)
    decreases |games|
  {
    if |games| > 0 {
      var init, last := games[..|games| - 1], games[|games| - 1];
      assert games == init + [last];
      ReportsSpec(init, day, env);
      FilterSnoc(init, last, g => Delivered(g, day, env));
    }
  }

  /** The loop of `gen_reports`: try each game in turn, skip the ones that
      raise, keep the reports of games on the requested weekday. */
  method GenReports(games: seq<Game>, day: string, env: Env) returns (reports: seq<string>)
    ensures var k := DeliveredGames(games, day, env);
      |reports| == |k| && forall i :: 0 <= i < |k| ==> Delivered(k[i], day, env) && reports[i] == ReportOf(k[i], day, env)
  {
    reports := [];
    for i := 0 to |games|
      invariant reports == Reports(games[..i], day, env)
    {
      assert games[..i + 1][..i] == games[..i];
      match Process(games[i], day, env)
      case Failure(_) =>
      case Success(None) =>
      case Success(Some(report)) =>
        reports := reports + [report];
    }
    assert games[..|games|] == games;
    ReportsSpec(games, day, env);
  }

  /** `gen_reports(day)` over the schedule rows of the season at instant `now`. */
  function WeeklyReports(rows: seq<ScheduleRow>, now: int, day: string, env: Env): (rs: seq<string>)
    ensures var k := DeliveredGames(ThisWeeksGames(rows, now), day, env);
      |rs| == |k| && forall i :: 0 <= i < |k| ==> Delivered(k[i], day, env) && rs[i] == ReportOf(k[i], day, env)
    ensures forall s :: s in rs <==>
      exists g :: g in ThisWeeksGames(rows, now) && Delivered(g, day, env) && s == ReportOf(g, day, env)
  {
    var games := ThisWeeksGames(rows, now);
    ReportsSpec(games, day, env);
    Reports(games, day, env)
  }
}
