/** Worked cases of the model on concrete inputs: the 2024 season opener,
    a three-game slate in which one game's forecast cannot be fetched, and
    particular entries of the stadium table. */
module Scenarios {
  import opened Wrappers
  import opened Clock
  import opened Venues
  import opened Schedule
  import opened Aligner
  import opened Reporting

  /** Eastern Daylight Time, four hours behind UTC. */
  const Edt: int := -4 * SecondsPerHour

  /** 2024-09-05 is day 19971. */
  const OpenerDay: int := 19971

  /** Kickoff "2024-09-05 20:15" covers 20:00, 21:00, 22:00 and 23:00 that day;
      an entry at 21:32 Eastern is kept and one at 19:50 is not. */
  lemma OpenerWindow()
    ensures Targets(LocalInstant(OpenerDay, 20 * 3600 + 15 * 60)) ==
      [LocalInstant(OpenerDay, 20 * 3600), LocalInstant(OpenerDay, 21 * 3600),
       LocalInstant(OpenerDay, 22 * 3600), LocalInstant(OpenerDay, 23 * 3600)]
    ensures forall e: Hourly :: e.dt == LocalInstant(OpenerDay, 21 * 3600 + 32 * 60) - Edt ==>
      Matches(e, LocalInstant(OpenerDay, 20 * 3600 + 15 * 60), Edt)
    ensures forall e: Hourly :: e.dt == LocalInstant(OpenerDay, 19 * 3600 + 50 * 60) - Edt ==>
      !Matches(e, LocalInstant(OpenerDay, 20 * 3600 + 15 * 60), Edt)
  {
  }

  /** The opener was a Thursday, and week 1 ran until the following Wednesday. */
  lemma OpenerCalendar()
    ensures WeekdayName(OpenerDay) == "Thursday"
    ensures WeekNumber(SeasonStart, LocalInstant(OpenerDay + 6, 23 * 3600)) == 1
    ensures WeekNumber(SeasonStart, LocalInstant(OpenerDay + 7, 0)) == 2
  {
  }

  /** Only the exact condition "Snow" is reported as snow. */
  lemma SnowIsCaseSensitive()
    ensures CategoryName(CategoryOf(Some("Snow"))) == "snow"
    ensures CategoryOf(Some("snow")) == Rain && CategoryOf(Some("Sleet")) == Rain
    ensures CategoryOf(Some("Hail")) == Rain && CategoryOf(Some("Thunderstorm")) == Rain
    ensures CategoryOf(None) == Rain
  {
  }

  /** Three Thursday games, the second of which cannot fetch its forecast:
      exactly the first and the third produce reports, in that order. */
  lemma OneFailingGameOfThree(env: Env, a: Game, b: Game, c: Game)
    requires env.parseDate(a.date) == Some(OpenerDay) && env.parseTime(a.time).Some?
    requires env.parseDate(b.date) == Some(OpenerDay)
    requires env.parseDate(c.date) == Some(OpenerDay) && env.parseTime(c.time).Some?
    requires Lookup(a.home).Some? && Lookup(b.home).Some? && Lookup(c.home).Some?
    requires env.fetch(Lookup(a.home).value) == Some(Reply(Some([])))
    requires env.fetch(Lookup(b.home).value) == None
    requires env.fetch(Lookup(c.home).value) == Some(Reply(Some([])))
    ensures Reports([a, b, c], "Thursday", env) ==
      [Header(a) + NoMatchMessage, Header(c) + NoMatchMessage]
  {
    assert WeekdayName(OpenerDay) == "Thursday";
    var tod := env.parseTime(a.time).value;
    assert GameText([], LocalInstant(OpenerDay, tod), env.utcOffset, env.numerics) == Success(NoMatchMessage);
    tod := env.parseTime(c.time).value;
    assert GameText([], LocalInstant(OpenerDay, tod), env.utcOffset, env.numerics) == Success(NoMatchMessage);
    assert Contribution(a, "Thursday", env) == [Header(a) + NoMatchMessage];
    assert Contribution(b, "Thursday", env) == [];
    assert Contribution(c, "Thursday", env) == [Header(c) + NoMatchMessage];
    assert [a, b, c][..2] == [a, b];
    assert [a, b][..1] == [a];
    assert [a][..0] == [];
    assert Reports([a], "Thursday", env) == [Header(a) + NoMatchMessage];
    assert Reports([a, b], "Thursday", env) == [Header(a) + NoMatchMessage];
  }

  /** Teams sharing a stadium share its coordinates. */
  lemma SharedStadiums()
    ensures Lookup("NYG") == Lookup("NYJ") && Lookup("NYG").Some?
    ensures Lookup("LA") == Lookup("LAC") && Lookup("LA").Some?
  {
  }

  /** Codes the registry does not list fail the lookup, among them the
      Raiders' former "OAK" and the Rams' "LAR". */
  lemma RetiredCodesFail()
    ensures Lookup("OAK").None? && Lookup("LAR").None? && Lookup("").None?
  {
  }
}
