/** The game-weather aligner: picks the forecast entries falling in a game's
    four-hour window and renders one numbered line per entry. */
module Aligner {
  import opened Wrappers
  import opened Seqs
  import opened Decimal
  import opened Clock
  import opened Venues

  /** The primary condition of a forecast entry (`weather[0]`); either key may be absent. */
  datatype Condition = Condition(main: Option<string>, description: Option<string>)

  /** One entry of the provider's hourly series: a unix timestamp (UTC seconds),
      the optional Kelvin temperature and precipitation probability, and the
      list of conditions, of which only the first is read. */
  datatype Hourly = Hourly(dt: int, temp: Option<real>, pop: Option<real>, weather: seq<Condition>)

  datatype Category = Snow | Rain

  /** One report line: the running line number, the rendered numerics, the
      category and the description. */
  datatype Line = Line(quarter: nat, fahrenheit: int, percent: int, category: Category, description: string)

  /** The floating-point conversions the program applies: Kelvin to rounded
      Fahrenheit, and a probability to a truncated percentage. */
  datatype Numerics = Numerics(fahrenheit: real -> int, percent: real -> int)

  /** The decoded reply of the forecast service; its "hourly" key may be absent,
      as in an error reply. */
  datatype Reply = Reply(hourly: Option<seq<Hourly>>)

  /** Everything outside the program's own logic that one game's report depends on. */
  datatype Env = Env(
    fetch: Coord -> Option<Reply>,          // the forecast service; `None` for a failed call or an undecodable reply
    parseDate: string -> Option<int>,       // "YYYY-MM-DD" to days since 1970-01-01
    parseTime: string -> Option<TimeOfDay>, // "HH:MM" to seconds since midnight
    utcOffset: int,                         // Eastern time minus UTC, in seconds
    numerics: Numerics)

  /** The reasons a game's report cannot be produced. */
  datatype GameError =
    | UnknownTeam(team: string)
    | FetchFailed(team: string)
    | NoHourly(team: string)
    | BadDate(date: string)
    | BadTime(time: string)
    | NoConditions(dt: int)
    | NoTemperature(dt: int)

  const NoMatchMessage: string := "No matching weather data found for the specified game hours."
  const NoDescription: string := "No description available"

  /** The four hour-starts covered by a game kicking off at local instant `kickoff`. */
  function Targets(kickoff: int): (ts: seq<int>)
    ensures |ts| == 4
    ensures ts[0] == HourStart(kickoff)
    ensures forall i :: 0 < i < 4 ==> ts[i] == ts[i - 1] + SecondsPerHour
  {
    var h := HourStart(kickoff);
    [h, h + SecondsPerHour, h + 2 * SecondsPerHour, h + 3 * SecondsPerHour]
  }

  /** The targets are exactly the hour boundaries in the four hours starting
      at the kickoff hour. */
  lemma TargetMembership(kickoff: int, t: int)
    ensures t in Targets(kickoff) <==>
      t % SecondsPerHour == 0 && HourStart(kickoff) <= t < HourStart(kickoff) + 4 * SecondsPerHour
  {
    var h := HourStart(kickoff);
    var ts := Targets(kickoff);
    if t % SecondsPerHour == 0 && h <= t < h + 4 * SecondsPerHour {
      var k := (t - h) / SecondsPerHour;
      assert t - h == k * SecondsPerHour;
      assert 0 <= k < 4;
      assert t == ts[k];
    }
  }

  /** The targets depend on the kickoff hour only: every minute of that hour
      gives the same four instants. */
  lemma TargetsIgnoreMinutes(day: int, a: TimeOfDay, b: TimeOfDay)
    requires a / SecondsPerHour == b / SecondsPerHour
    ensures Targets(LocalInstant(day, a)) == Targets(LocalInstant(day, b))
    ensures Targets(LocalInstant(day, a))[0] == LocalInstant(day, (a / SecondsPerHour) * SecondsPerHour)
  {
    var h := LocalInstant(day, (a / SecondsPerHour) * SecondsPerHour);
    assert h % SecondsPerHour == 0 by {
      assert h == (day * 24 + a / SecondsPerHour) * SecondsPerHour;
    }
    HourStartUnique(LocalInstant(day, a), h);
    HourStartUnique(LocalInstant(day, b), h);
  }

  /** The Eastern local instant of a forecast entry. */
  function LocalTime(e: Hourly, utcOffset: int): int {
    e.dt + utcOffset
  }

  /** The test of the loop: the entry's truncated local hour is one of the targets. */
  predicate Matches(e: Hourly, kickoff: int, utcOffset: int) {
    HourStart(LocalTime(e, utcOffset)) in Targets(kickoff)
  }

  /** An entry matches exactly when its local time lies in the four hours
      starting at the top of the kickoff hour. */
  lemma MatchWindow(e: Hourly, kickoff: int, utcOffset: int)
    ensures Matches(e, kickoff, utcOffset) <==>
      HourStart(kickoff) <= LocalTime(e, utcOffset) < HourStart(kickoff) + 4 * SecondsPerHour
  {
    var t := LocalTime(e, utcOffset);
    TargetMembership(kickoff, HourStart(t));
  }

  /** The matching entries, in forecast order. */
  function Matched(es: seq<Hourly>, kickoff: int, utcOffset: int): seq<Hourly> {
    Filter(es, e => Matches(e, kickoff, utcOffset))
  }

  lemma MatchedUnfold(es: seq<Hourly>, kickoff: int, utcOffset: int)
    requires |es| > 0
    ensures Matched(es, kickoff, utcOffset) ==
      (if Matches(es[0], kickoff, utcOffset) then [es[0]] else []) + Matched(es[1..], kickoff, utcOffset)
  {
  }

  /** A matching entry can be rendered: it has a first condition and a temperature. */
  predicate Renderable(e: Hourly) {
    |e.weather| > 0 && e.temp.Some?
  }

  /** The exception a matching entry that cannot be rendered raises: indexing
      an empty condition list comes before subtracting from a missing temperature. */
  function EntryError(e: Hourly): GameError
    requires !Renderable(e)
  {
    if |e.weather| == 0 then NoConditions(e.dt) else NoTemperature(e.dt)
  }

  /** "snow" exactly for the condition "Snow"; every other condition, or none, is "rain". */
  function CategoryOf(main: Option<string>): (c: Category)
    ensures CategoryName(c) == "snow" <==> main == Some("Snow")
    ensures CategoryName(c) == "rain" <==> main != Some("Snow")
  {
    if main == Some("Snow") then Snow else Rain
  }

  /** The line for a matching entry numbered `quarter`. A missing probability counts as 0. */
  function MakeLine(e: Hourly, quarter: nat, num: Numerics): (l: Line)
    requires Renderable(e)
    ensures l.quarter == quarter
    ensures l.fahrenheit == num.fahrenheit(e.temp.value)
    ensures e.pop.None? ==> l.percent == 0
    ensures e.pop.Some? ==> l.percent == num.percent(e.pop.value)
    ensures l.category == Snow <==> e.weather[0].main == Some("Snow")
    ensures e.weather[0].description.None? ==> l.description == NoDescription
    ensures e.weather[0].description.Some? ==> l.description == e.weather[0].description.value
  {
    var c := e.weather[0];
    var pct := match e.pop case Some(p) => num.percent(p) case None => 0;
    Line(quarter, num.fahrenheit(e.temp.value), pct, CategoryOf(c.main), c.description.GetOr(NoDescription))
  }

  /** The aligner's outcome over the matching entries: it fails exactly when a
      matching entry cannot be rendered; otherwise it yields the message iff
      nothing matched, and else one text line per matching entry. */
  lemma GameTextSpec(es: seq<Hourly>, kickoff: int, utcOffset: int, num: Numerics)
    ensures var m := Matched(es, kickoff, utcOffset);
      var r := GameText(es, kickoff, utcOffset, num);
      && (r.Success? <==> forall j :: 0 <= j < |m| ==> Renderable(m[j]))
      && (r.Success? ==> (r.value == NoMatchMessage <==> |m| == 0))
      && ((r.Success? && |m| > 0 && forall j :: 0 <= j < |m| ==> '\n' !in m[j].weather[0].description.GetOr(NoDescription))
            ==> Occurrences(r.value, '\n') == |m|)
  {
    var m := Matched(es, kickoff, utcOffset);
    AlignSucceedsIffRenderable(es, kickoff, utcOffset, num, 1);
    var a := Align(es, kickoff, utcOffset, num);
    if a.Success? {
      AlignLinesNumbered(es, kickoff, utcOffset, num, 1);
      BodyIsMessageIffNoLines(a.value);
      if |m| > 0 && (forall j :: 0 <= j < |m| ==> '\n' !in m[j].weather[0].description.GetOr(NoDescription)) {
        forall l | l in a.value ensures '\n' !in l.description {
          var j :| 0 <= j < |a.value| && a.value[j] == l;
        }
        JoinLineCount(a.value);
      }
    }
  }

  function Prepend(acc: seq<Line>, r: Result<seq<Line>, GameError>): Result<seq<Line>, GameError> {
    match r
    case Success(rest) => Success(acc + rest)
    case Failure(err) => Failure(err)
  }

  /** The loop over the forecast from line number `quarter` on: each matching
      entry becomes the next numbered line; the first matching entry that
      cannot be rendered aborts with its error. */
  function AlignFrom(es: seq<Hourly>, kickoff: int, utcOffset: int, num: Numerics, quarter: nat): (r: Result<seq<Line>, GameError>)
    ensures r.Success? ==> |r.value| <= |es| && forall j :: 0 <= j < |r.value| ==> r.value[j].quarter == quarter + j
    decreases |es|
  {
    if |es| == 0 then Success([])
    else
      var e := es[0];
      if !Matches(e, kickoff, utcOffset) then AlignFrom(es[1..], kickoff, utcOffset, num, quarter)
      else if !Renderable(e) then Failure(EntryError(e))
      else Prepend([MakeLine(e, quarter, num)], AlignFrom(es[1..], kickoff, utcOffset, num, quarter + 1))
  }

  /** The loop succeeds exactly when every matching entry can be rendered. */
  lemma {:induction false} AlignSucceedsIffRenderable(es: seq<Hourly>, kickoff: int, utcOffset: int, num: Numerics, quarter: nat)
    ensures var m := Matched(es, kickoff, utcOffset);
      AlignFrom(es, kickoff, utcOffset, num, quarter).Success? <==> forall j :: 0 <= j < |m| ==> Renderable(m[j])
    decreases |es|
  {
    if |es| > 0 {
      MatchedUnfold(es, kickoff, utcOffset);
      var m := Matched(es, kickoff, utcOffset);
      var m' := Matched(es[1..], kickoff, utcOffset);
      if !Matches(es[0], kickoff, utcOffset) {
        assert m == m';
        AlignSucceedsIffRenderable(es[1..], kickoff, utcOffset, num, quarter);
      } else {
        assert m == [es[0]] + m';
        assert m[0] == es[0];
        AlignSucceedsIffRenderable(es[1..], kickoff, utcOffset, num, quarter + 1);
        assert forall j :: 1 <= j < |m| ==> m[j] == m'[j - 1];
        assert forall j :: 0 <= j < |m'| ==> m'[j] == m[j + 1];
        assert (forall j :: 0 <= j < |m| ==> Renderable(m[j])) <==>
          Renderable(es[0]) && forall j :: 0 <= j < |m'| ==> Renderable(m'[j]);
      }
    }
  }

  /** On success the lines are the matching entries in forecast order,
      numbered consecutively from `quarter`. */
  lemma {:induction false} AlignLinesNumbered(es: seq<Hourly>, kickoff: int, utcOffset: int, num: Numerics, quarter: nat)
    requires AlignFrom(es, kickoff, utcOffset, num, quarter).Success?
    ensures var m := Matched(es, kickoff, utcOffset);
      var lines := AlignFrom(es, kickoff, utcOffset, num, quarter).value;
      |lines| == |m| && forall j :: 0 <= j < |m| ==> Renderable(m[j]) && lines[j] == MakeLine(m[j], quarter + j, num)
    decreases |es|
  {
    if |es| > 0 {
      MatchedUnfold(es, kickoff, utcOffset);
      var m := Matched(es, kickoff, utcOffset);
      var m' := Matched(es[1..], kickoff, utcOffset);
      if !Matches(es[0], kickoff, utcOffset) {
        assert m == m';
        AlignLinesNumbered(es[1..], kickoff, utcOffset, num, quarter);
      } else {
        assert m == [es[0]] + m';
        AlignLinesNumbered(es[1..], kickoff, utcOffset, num, quarter + 1);
        assert forall j :: 1 <= j < |m| ==> m[j] == m'[j - 1];
      }
    }
  }

  /** A failure carries the error of the first matching entry that cannot be rendered. */
  lemma {:induction false} AlignFailsAtFirstBad(es: seq<Hourly>, kickoff: int, utcOffset: int, num: Numerics, quarter: nat)
    requires AlignFrom(es, kickoff, utcOffset, num, quarter).Failure?
    ensures var m := Matched(es, kickoff, utcOffset);
      exists j :: (0 <= j < |m| && !Renderable(m[j])
        && AlignFrom(es, kickoff, utcOffset, num, quarter).error == EntryError(m[j])
        && forall i :: 0 <= i < j ==> Renderable(m[i]))
    decreases |es|
  {
    MatchedUnfold(es, kickoff, utcOffset);
    var m := Matched(es, kickoff, utcOffset);
    var m' := Matched(es[1..], kickoff, utcOffset);
    if !Matches(es[0], kickoff, utcOffset) {
      assert m == m';
      AlignFailsAtFirstBad(es[1..], kickoff, utcOffset, num, quarter);
    } else {
      assert m == [es[0]] + m';
      if Renderable(es[0]) {
        AlignFailsAtFirstBad(es[1..], kickoff, utcOffset, num, quarter + 1);
        var r' := AlignFrom(es[1..], kickoff, utcOffset, num, quarter + 1);
        var j :| 0 <= j < |m'| && !Renderable(m'[j]) && r'.error == EntryError(m'[j])
          && forall i :: 0 <= i < j ==> Renderable(m'[i]);
        assert m[j + 1] == m'[j];
        assert forall i :: 1 <= i < j + 1 ==> m[i] == m'[i - 1];
      } else {
        assert m[0] == es[0];
      }
    }
  }

  /** The aligner over a whole forecast, numbering lines from 1. */
  function Align(es: seq<Hourly>, kickoff: int, utcOffset: int, num: Numerics): (r: Result<seq<Line>, GameError>)
    ensures r.Success? ==> |r.value| <= |es| && forall j :: 0 <= j < |r.value| ==> r.value[j].quarter == j + 1
  {
    AlignFrom(es, kickoff, utcOffset, num, 1)
  }

  /** Line numbers run 1..k without gaps, k is the number of matching entries,
      and the i-th line belongs to the i-th matching entry in forecast order. */
  lemma AlignNumbering(es: seq<Hourly>, kickoff: int, utcOffset: int, num: Numerics)
    requires Align(es, kickoff, utcOffset, num).Success?
    ensures var lines := Align(es, kickoff, utcOffset, num).value;
      && |lines| == |Matched(es, kickoff, utcOffset)|
      && (forall j :: 0 <= j < |lines| ==> lines[j].quarter == j + 1)
      && (forall j :: 0 <= j < |lines| ==>
            var e := Matched(es, kickoff, utcOffset)[j];
            Renderable(e) && (lines[j].category == Snow <==> e.weather[0].main == Some("Snow")))
  {
    AlignLinesNumbered(es, kickoff, utcOffset, num, 1);
  }

  /** Entries outside the game window have no influence on the lines. */
  lemma AlignIgnoresNonMatching(es: seq<Hourly>, e: Hourly, kickoff: int, utcOffset: int, num: Numerics, quarter: nat)
    requires !Matches(e, kickoff, utcOffset)
    ensures AlignFrom([e] + es, kickoff, utcOffset, num, quarter) == AlignFrom(es, kickoff, utcOffset, num, quarter)
  {
    assert ([e] + es)[1..] == es;
  }

  function CategoryName(c: Category): string {
    match c
    case Snow => "snow"
    case Rain => "rain"
  }

  /** `Q{n}: {temp}°F, {pct}% {category}, {description}` */
  function RenderLine(l: Line): (s: string)
    ensures |s| > 0 && s[0] == 'Q'
  {
    "Q" + IntToString(l.quarter) + ": " + IntToString(l.fahrenheit) + "°F, "
      + IntToString(l.percent) + "% " + CategoryName(l.category) + ", " + l.description
  }

  /** The lines, each followed by a newline. */
  function Join(lines: seq<Line>): (s: string)
    ensures |lines| == 0 <==> |s| == 0
    ensures |lines| > 0 ==> s[|s| - 1] == '\n'
  {
    if |lines| == 0 then ""
    else Join(lines[..|lines| - 1]) + RenderLine(lines[|lines| - 1]) + "\n"
  }

  /** The text returned for a game: the joined lines, or the fixed message when there are none. */
  function Body(lines: seq<Line>): string {
    if |lines| == 0 then NoMatchMessage else Join(lines)
  }

  /** The fixed message appears exactly when no line was produced; it cannot
      be mistaken for report lines, which all end in a newline. */
  lemma BodyIsMessageIffNoLines(lines: seq<Line>)
    ensures Body(lines) == NoMatchMessage <==> |lines| == 0
  {
    if |lines| > 0 {
      var s := Join(lines);
      assert s[|s| - 1] == '\n';
      assert NoMatchMessage[|NoMatchMessage| - 1] == '.';
    }
  }

  /** Number of occurrences of `c` in `s`. */
  function Occurrences(s: string, c: char): nat {
    if |s| == 0 then 0
    else Occurrences(s[..|s| - 1], c) + (if s[|s| - 1] == c then 1 else 0)
  }

  lemma {:induction false} OccurrencesConcat(a: string, b: string, c: char)
    ensures Occurrences(a + b, c) == Occurrences(a, c) + Occurrences(b, c)
    decreases |b|
  {
    if |b| == 0 {
      assert a + b == a;
    } else {
      assert (a + b)[..|a + b| - 1] == a + b[..|b| - 1];
      OccurrencesConcat(a, b[..|b| - 1], c);
    }
  }

  lemma {:induction false} OccurrencesAbsent(s: string, c: char)
    requires c !in s
    ensures Occurrences(s, c) == 0
    decreases |s|
  {
    if |s| > 0 {
      assert c !in s[..|s| - 1];
      OccurrencesAbsent(s[..|s| - 1], c);
    }
  }

  /** A rendered line holds no line break of its own unless its description does. */
  lemma RenderLineIsOneLine(l: Line)
    requires '\n' !in l.description
    ensures '\n' !in RenderLine(l)
  {
  }

  /** The text holds exactly one line per report line, provided the
      descriptions carry no line breaks. */
  lemma {:induction false} JoinLineCount(lines: seq<Line>)
    requires forall l :: l in lines ==> '\n' !in l.description
    ensures Occurrences(Join(lines), '\n') == |lines|
    decreases |lines|
  {
    if |lines| > 0 {
      var init, last := lines[..|lines| - 1], lines[|lines| - 1];
      JoinLineCount(init);
      RenderLineIsOneLine(last);
      OccurrencesAbsent(RenderLine(last), '\n');
      OccurrencesConcat(Join(init), RenderLine(last), '\n');
      OccurrencesConcat(Join(init) + RenderLine(last), "\n", '\n');
      assert Occurrences("\n", '\n') == 1 by {
        assert "\n"[..0] == "";
      }
    }
  }

  /** The aligner's text for a forecast, or the error of the first bad matching entry. */
  function GameText(es: seq<Hourly>, kickoff: int, utcOffset: int, num: Numerics): (r: Result<string, GameError>)
    ensures r.Failure? <==> Align(es, kickoff, utcOffset, num).Failure?
    ensures r.Failure? ==> r.error == Align(es, kickoff, utcOffset, num).error
    ensures r.Success? ==> r.value == NoMatchMessage || (|r.value| > 0 && r.value[|r.value| - 1] == '\n')
  {
    match Align(es, kickoff, utcOffset, num)
    case Success(lines) => Success(Body(lines))
    case Failure(err) => Failure(err)
  }

  lemma PrependNil(r: Result<seq<Line>, GameError>)
    ensures Prepend([], r) == r
  {
    if r.Success? {
      assert [] + r.value == r.value;
    }
  }

  lemma PrependSnoc(acc: seq<Line>, l: Line, r: Result<seq<Line>, GameError>)
    ensures Prepend(acc, Prepend([l], r)) == Prepend(acc + [l], r)
  {
    if r.Success? {
      assert acc + ([l] + r.value) == (acc + [l]) + r.value;
    }
  }

  /** One step of the loop, seen from the suffix of the forecast still to walk. */
  lemma AlignStep(es: seq<Hourly>, i: nat, kickoff: int, utcOffset: int, num: Numerics, quarter: nat)
    requires i < |es|
    ensures AlignFrom(es[i..], kickoff, utcOffset, num, quarter) ==
      if !Matches(es[i], kickoff, utcOffset) then AlignFrom(es[i + 1..], kickoff, utcOffset, num, quarter)
      else if !Renderable(es[i]) then Failure(EntryError(es[i]))
      else Prepend([MakeLine(es[i], quarter, num)], AlignFrom(es[i + 1..], kickoff, utcOffset, num, quarter + 1))
  {
    assert es[i..][1..] == es[i + 1..];
  }

  lemma JoinSnoc(acc: seq<Line>, l: Line)
    ensures Join(acc + [l]) == Join(acc) + RenderLine(l) + "\n"
  {
    assert (acc + [l])[..|acc|] == acc;
  }

  /** The loop of `get_game_weather` as written: walk the forecast in order,
      test each truncated hour against the targets, append a numbered line
      for each match and finally substitute the message for an empty text. */
  method BuildGameText(es: seq<Hourly>, kickoff: int, utcOffset: int, num: Numerics) returns (r: Result<string, GameError>)
    ensures r == GameText(es, kickoff, utcOffset, num)
  {
    var text := "";
    var idx: nat := 1;
    ghost var acc: seq<Line> := [];
    assert es[0..] == es;
    PrependNil(Align(es, kickoff, utcOffset, num));
    for i := 0 to |es|
      invariant idx == |acc| + 1
      invariant text == Join(acc)
      invariant Align(es, kickoff, utcOffset, num) == Prepend(acc, AlignFrom(es[i..], kickoff, utcOffset, num, idx))
    {
      AlignStep(es, i, kickoff, utcOffset, num, idx);
      var e := es[i];
      if Matches(e, kickoff, utcOffset) {
        if |e.weather| == 0 {
          return Failure(NoConditions(e.dt));
        }
        var category := CategoryOf(e.weather[0].main);
        if e.temp.None? {
          return Failure(NoTemperature(e.dt));
        }
        var pct := if e.pop.Some? then num.percent(e.pop.value) else 0;
        var description := e.weather[0].description.GetOr(NoDescription);
        var line := Line(idx, num.fahrenheit(e.temp.value), pct, category, description);
        assert line == MakeLine(e, idx, num);
        JoinSnoc(acc, line);
        PrependSnoc(acc, line, AlignFrom(es[i + 1..], kickoff, utcOffset, num, idx + 1));
        text := text + RenderLine(line) + "\n";
        acc := acc + [line];
        idx := idx + 1;
      }
    }
    assert es[|es|..] == [];
    assert acc + [] == acc;
    if text == "" {
      r := Success(NoMatchMessage);
    } else {
      r := Success(text);
    }
  }

  /** `get_game_weather(team, date, time)`: look up the stadium, fetch its
      forecast, place the kickoff on the Eastern timeline, read the hourly
      series and align. Each step's failure is reported in that order. */
  function GameWeather(team: string, date: string, time: string, env: Env): (r: Result<string, GameError>)
    ensures Lookup(team).None? ==> r == Failure(UnknownTeam(team))
    ensures Lookup(team).Some? && env.fetch(Lookup(team).value).None? ==> r == Failure(FetchFailed(team))
    ensures (Lookup(team).Some? && env.fetch(Lookup(team).value).Some? && env.parseDate(date).None?)
      ==> r == Failure(BadDate(date))
    ensures (Lookup(team).Some? && env.fetch(Lookup(team).value).Some? && env.parseDate(date).Some?
      && env.parseTime(time).None?) ==> r == Failure(BadTime(time))
    ensures (Lookup(team).Some? && env.fetch(Lookup(team).value).Some? && env.parseDate(date).Some?
      && env.parseTime(time).Some? && env.fetch(Lookup(team).value).value.hourly.None?)
      ==> r == Failure(NoHourly(team))
    ensures (Lookup(team).Some? && env.fetch(Lookup(team).value).Some? && env.parseDate(date).Some?
      && env.parseTime(time).Some? && env.fetch(Lookup(team).value).value.hourly.Some?)
      ==> r == GameText(env.fetch(Lookup(team).value).value.hourly.value,
                        LocalInstant(env.parseDate(date).value, env.parseTime(time).value),
                        env.utcOffset, env.numerics)
    ensures r.Success? ==> exists es, day, tod ::
      && Lookup(team).Some? && env.fetch(Lookup(team).value) == Some(Reply(Some(es)))
      && env.parseDate(date) == Some(day) && env.parseTime(time) == Some(tod)
      && GameText(es, LocalInstant(day, tod), env.utcOffset, env.numerics) == r
  {
    match Lookup(team)
    case None => Failure(UnknownTeam(team))
    case Some(coord) =>
      match env.fetch(coord)
      case None => Failure(FetchFailed(team))
      case Some(reply) =>
        match env.parseDate(date)
        case None => Failure(BadDate(date))
        case Some(day) =>
          match env.parseTime(time)
          case None => Failure(BadTime(time))
          case Some(tod) =>
            match reply.hourly
            case None => Failure(NoHourly(team))
            case Some(es) => GameText(es, LocalInstant(day, tod), env.utcOffset, env.numerics)
  }
}
