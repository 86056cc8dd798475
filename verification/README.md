# NFL weather bot — a Dafny model of its report logic

The bot looks up the current week of the 2024 NFL season, takes that week's
games, and keeps the games played on a requested weekday. For each one it
fetches the hourly forecast at the home team's stadium. It keeps the
forecast entries that fall in the game's four-hour window and writes one
`Q{n}: …` line per kept entry. Each report starts with a
`{home}(H) vs {away}(A) weather report:` header.

The model covers three parts:

- the week calculator;
- the game-weather aligner, which picks the target hours, matches and numbers
  the entries, chooses snow or rain, renders the lines and returns the fixed
  "no data" message when nothing matches;
- the report generator, which filters by weekday, adds the header and drops
  any game whose processing fails.

Modules:

- `Wrappers` — `Option` and `Result`. A missing dictionary key is modelled as
  `None` and a raised exception as `Failure`.
- `Seqs` — order-preserving `Filter`.
- `Decimal` — how Python's f-string prints an `int`, with its read-back.
- `Clock` — integer seconds on a local timeline, hour truncation, whole days
  elapsed, weekday names.
- `Venues` — the stadium table and its lookup, which can fail.
- `Schedule` — games, the week number and the filter to this week's games.
- `Aligner` — `get_game_weather`.
- `Reporting` — `gen_reports`.
- `Scenarios` — the season opener, a three-game slate with one failing
  game, and facts about particular entries of the stadium table, worked
  through on concrete inputs.

Time is measured in integer seconds. A forecast entry's `dt` is a UTC unix
timestamp, and the Eastern offset is a fixed parameter (`Env.utcOffset`).
Hour truncation is `t - t % 3600`. Dafny's `%` is Euclidean, so this equals
Python's floor for any instant. A game's kickoff is `day * 86400 + timeOfDay`
on the local timeline. The collaborators the program calls are fields of
`Aligner.Env`:

- the forecast service (`fetch`, returns `None` for a failed call and
  otherwise the decoded reply, whose `"hourly"` series may be absent);
- `strptime` for dates and for times (`parseDate`, `parseTime`);
- the two floating-point conversions (`numerics`).

The weekday of a date is computed from its day number: day 0, 1970-01-01,
was a Thursday.

Per-game failures, each of which makes `gen_reports` skip the game:

- an unparsable date or time;
- a home team missing from the stadium table;
- a failed forecast fetch;
- a reply without an `"hourly"` series, which is read only after the kickoff
  is parsed;
- a matching forecast entry whose `weather` list is empty, because
  `hourly['weather'][0]` raises;
- a matching entry without `temp`, because `"N/A" - 273.15` raises.

A missing `pop` reads as 0 %. A missing `main` reads as rain, and a missing
`description` as "No description available".

## Model

| member | source | states |
|---|---|---|
| Clock.DaysBetween | app.py:70 | whole days elapsed, floored like `timedelta.days`: `d*86400 <= now-start < (d+1)*86400`, negative before the start |
| Schedule.WeekNumber | app.py:69-71 | the week `w` is the unique integer with `7(w-1) <= days < 7w`, i.e. `days // 7 + 1` |
| Schedule.FirstWeek | app.py:69-71 | every instant in the first seven days after the start is week 1 |
| Schedule.WeekMonotone | app.py:69-71 | the week number never decreases as the current instant advances |
| Schedule.WeekAdvance | app.py:69-71 | seven days later is exactly one week later |
| Schedule.GamesOfWeek | app.py:90-95 | a game is returned iff some row of that week carries it; no more games than rows |
| Schedule.GamesOfWeekSingle | app.py:90-95 | one row yields its game iff its week is the requested week, and nothing otherwise |
| Schedule.GamesOfWeekConcat | app.py:90-95 | filtering a split schedule is filtering the parts and concatenating, so row order and duplicates are kept |
| Schedule.ThisWeeksGames | app.py:87-96 | the week filter at the current week number: exactly `GamesOfWeek` at that week, so rows keep their order and duplicates; a game is returned iff a row of the current week carries it |
| Clock.HourStart | app.py:109 | the truncation is an hour boundary at or before `t` and less than an hour before it |
| Clock.HourStartUnique | app.py:119 | that boundary is unique, so truncation is determined by the hour alone |
| Clock.LocalInstant | app.py:105 | the kickoff instant falls on the game's day at its clock time (`t / 86400 == day`, `t % 86400 == time`) |
| Clock.WeekdayName | app.py:157 | `strftime("%A")` always yields one of the seven English weekday names |
| Clock.WeekdayPeriod | app.py:157 | two days share a weekday name iff they are a multiple of seven days apart |
| Clock.WeekdaySuccession | app.py:157 | 1970-01-01 is named Thursday and every day is named the weekday after the previous day's name, Sunday wrapping to Monday |
| Venues.Lookup | app.py:75-76 | the lookup succeeds exactly for the team codes listed in the stadium table |
| Aligner.Targets | app.py:108-110 | four targets: the first is the kickoff's hour start, each next one an hour later |
| Aligner.TargetMembership | app.py:108-110 | `t` is a target iff it is an hour boundary within four hours of the kickoff's hour start |
| Aligner.TargetsIgnoreMinutes | app.py:105-110 | kickoffs in the same clock hour give the same targets, starting at that hour with minute 0 |
| Aligner.MatchWindow | app.py:116-122 | an entry matches iff its Eastern time lies in the four hours starting at the kickoff's hour start |
| Aligner.CategoryOf | app.py:124-127 | the word is "snow" iff the main condition is exactly "Snow", and "rain" for every other value or none |
| Aligner.MakeLine | app.py:124-136 | a line carries its number, the converted temperature, the percentage (0 when `pop` is absent), the category and the description (the default text when absent) |
| Aligner.AlignFrom | app.py:114-138 | on success at most one line per entry, numbered consecutively from the starting counter |
| Aligner.Align | app.py:114-138 | on success the line numbers are 1, 2, … in order |
| Aligner.AlignSucceedsIffRenderable | app.py:116-133 | the loop succeeds iff every matching entry has a first condition and a temperature |
| Aligner.AlignLinesNumbered | app.py:114-138 | on success the lines are the matching entries in forecast order, numbered consecutively from the starting counter |
| Aligner.AlignFailsAtFirstBad | app.py:122-133 | a failure carries the error of the first matching entry that cannot be rendered |
| Aligner.AlignNumbering | app.py:114-137 | line numbers are exactly 1..k, k is the number of matching entries, and a line says snow iff its entry's main condition is exactly "Snow" |
| Aligner.AlignIgnoresNonMatching | app.py:116-122 | an entry outside the window changes neither the lines nor their numbering |
| Aligner.RenderLine | app.py:136 | a rendered line is non-empty and starts with `Q` |
| Aligner.Join | app.py:138 | the joined text is empty iff there are no lines, and otherwise ends with a newline |
| Aligner.BodyIsMessageIffNoLines | app.py:141-145 | the result is the fixed "No matching weather data…" message iff no line was produced |
| Aligner.JoinLineCount | app.py:138 | when descriptions hold no line breaks, the text has exactly one newline per line |
| Aligner.GameTextSpec | app.py:113-145 | the aligner fails iff a matching entry cannot be rendered; on success the text is the message iff nothing matched, and otherwise, when descriptions hold no line breaks, has one line per matching entry |
| Aligner.BuildGameText | app.py:112-145 | the loop as written (running counter, string accumulator, empty-text check) returns exactly the aligner's result |
| Aligner.GameWeather | app.py:74-116 | failures in source order: unknown team (`UnknownTeam`), failed fetch (`FetchFailed`), unparsable date (`BadDate`) or time (`BadTime`), reply without "hourly" (`NoHourly`); when all succeed, the result is exactly the aligner's outcome for the fetched series and the Eastern kickoff |
| Aligner.GameText | app.py:113-145 | fails exactly when the aligner fails, with its error; on success the text is the message or ends with a newline |
| Decimal.IntToString | app.py:136 | the printed integer starts with '-' iff it is negative, every other character is a digit, and there is no leading zero except for 0 itself |
| Decimal.NatRoundTrip | app.py:136 | reading back the printed digits of a natural number gives the number |
| Decimal.IntRoundTrip | app.py:136 | every printed integer parses back to itself |
| Reporting.Header | app.py:161 | the title opens with the home team's code, ends with a newline, and is 27 characters longer than the two codes together |
| Reporting.HeaderLayout | app.py:161 | the home code is followed by "(H) vs ", then the away code, then "(A) weather report:" and a newline, so the home team carries the (H) label and the away team the (A) label |
| Reporting.HeaderDeterminesTeams | app.py:161 | when no code contains '(', equal titles name the same home and away teams, so the title recovers both teams |
| Reporting.Process | app.py:152-166 | a bad date fails; another weekday gives no report; on the requested weekday the game fails iff the aligner fails (with its error) and otherwise yields the header followed by the aligner's text for the home team |
| Reporting.Reports | app.py:151-167 | never more reports than games |
| Reporting.ReportsConcat | app.py:151-167 | the reports of two consecutive stretches of the schedule are the two lists concatenated |
| Reporting.ReportsIsolation | app.py:151-167 | a game changes only its own slot of the output, whatever the games around it do |
| Reporting.FailingGameDropped | app.py:164-166 | a game whose processing fails leaves the output as if it were not scheduled |
| Reporting.ReportsSpec | app.py:151-167 | exactly one report per game that is on the weekday and processes successfully, in schedule order |
| Reporting.GenReports | app.py:148-167 | the loop with its per-game catch returns exactly those reports, in schedule order |
| Reporting.WeeklyReports | app.py:148-149 | exactly one report per delivered game of the current week, in schedule order |
| Scenarios.OpenerWindow | app.py:105-122 | kickoff 2024-09-05 20:15 targets 20:00–23:00; 21:32 Eastern is kept, 19:50 is not |
| Scenarios.OpenerCalendar | app.py:69-71 | 2024-09-05 is a Thursday; the following Wednesday is still week 1 and the Thursday after is week 2 |
| Scenarios.SnowIsCaseSensitive | app.py:124-127 | only "Snow" maps to snow; "snow", "Sleet", "Hail", "Thunderstorm" and a missing value map to rain |
| Scenarios.OneFailingGameOfThree | app.py:151-167 | three Thursday games with the middle fetch failing give exactly the first and third reports |
| Scenarios.SharedStadiums | app.py:31-49 | NYG and NYJ (and LA and LAC) are listed with the same coordinates |
| Scenarios.RetiredCodesFail | app.py:19-52 | codes not in the table, such as OAK or LAR, fail the lookup |

## Left out

- The HTTP call to the forecast service (app.py:78-80) is network I/O. It is the parameter `Env.fetch`, a fixed function of the coordinates, so two games at one stadium (equal coordinates) see the same reply.
- Schedule download through `nfl_data_py` and `datetime.now()` (app.py:84-89) are an external library and the clock. The schedule rows and the current instant are inputs.
- Twitter client setup, posting and `lambda_handler` (app.py:57-66, 177-186) are a foreign API and the entry point.
- Credentials from environment variables and the module-level run (app.py:9-16, 171-174) are configuration and side effects.
- pytz time zones are not modelled: Eastern is a fixed UTC offset. DST changes, `localize`, and the way `+ timedelta` keeps a stale offset across a DST change are left out.
- `strptime` parsing is left out. Date and time parsing are the parameters `Env.parseDate` and `Env.parseTime`, and a date string is assumed to parse the same way both times it is read (app.py:105, 154). `strftime("%A")` is modelled by `Clock.WeekdayName` in the C locale's English names.
- A forecast entry without a `weather` key is not representable: `Hourly.weather` is always a list. In the source that entry raises `KeyError` at app.py:124; the model covers the empty list, which raises `IndexError`. Either way the game is skipped, and only the error value differs.
- The Kelvin→Fahrenheit conversion with half-to-even `round` and the `int(pop*100)` truncation (app.py:131-136) are floating-point arithmetic. They are the parameters `Env.numerics.fahrenheit` and `Env.numerics.percent`; only "a missing `pop` gives 0" is stated.
- A forecast entry without `dt` is not modelled: every entry carries a timestamp. Non-numeric `temp` or `pop` values are not modelled either.
- The coordinate values in the stadium table are copied as given. Nothing is stated about them beyond which team codes are present and which teams share a stadium.
- The error printout of the `except` branch (app.py:165) is logging. The error value is kept in `Reporting.Process`'s result but not printed.
- Aligner.RenderLine: its contract states only that a line starts with `Q`. The full line format is its definition, and the properties that matter (numbering, category, line count) are stated about the lines it renders.
