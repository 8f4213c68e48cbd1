# ClipsHomeGame-Ping in Dafny

A model of the two pieces of logic in the Clippers home-game widget:

- The browser widget (`app.js`) loads `data/games.json` and keeps the home games that have not tipped off yet. It shows the first of them as the next game, with a live countdown, and lists the rest under "Upcoming Home Games (n)". Each countdown tick breaks the time left into days, hours, minutes and seconds. It writes the text `"{d}d {h}h {m}m {s}s"` (with no day part when no whole day is left), and only when that text changed. A single module-level interval handle is cleared before every new countdown starts.
- The data script (`scripts/fetch_games.mjs`) finds the team among the API's teams by abbreviation `LAC` or by a case-insensitive "Clippers" in the full name. It then turns the team's games into home-game records with fixed defaults for missing fields, sorted by tip-off instant.

Modules:

| file | module | models |
|---|---|---|
| `wrappers.dfy` | `Wrappers` | `Option` (a missing JSON field), `Result` (a thrown error) |
| `games.dfy` | `Games` | the home-game record and its tip-off instant |
| `decimal.dfy` | `Decimal` | `${n}` for a non-negative integer, and reading it back |
| `countdown.dfy` | `Countdown` | the tick arithmetic and text, and the `Widget` class (countdown element plus interval handle) |
| `fetch_games.dfy` | `FetchGames` | the team lookup and `toHomeGames` |
| `schedule.dfy` | `Schedule` | `main`: the upcoming filter, next game, future list and region visibility |

Representation choices:

- Instants are integer milliseconds since the epoch.
- A calendar day `"YYYY-MM-DD"` is its day number since the epoch. So `new Date("YYYY-MM-DD")` and `new Date("YYYY-MM-DDT00:00:00Z")` both denote `day * 86400000`, which is midnight UTC.
- An ISO `datetime` string is the instant it denotes. A missing, `null` or empty one is `None`, which is how `g.datetime || …` treats it.
- The page's DOM is the `Page` record: the hidden flags, the `game-today` marker and the texts.
- The countdown element and the interval handle are the fields of the `Countdown.Widget` class.
- The event loop's registered intervals are the `live` set. The browser only promises that an interval handle is a positive integer. The model numbers handles 1, 2, 3, … in turn; all that matters is that a handle is positive (so truthy) and never reused (`Valid`, and `old(live) !! live` in `Start`).
- The current time is a parameter, which stands in for `getNow`. `main` and each tick read the clock separately, so `Schedule.LoadPage` takes main's reading `now` and the first tick's own reading `tickNow`.
- The Pacific-time helpers `isSameDayPT` and `fmtDateTime` are function parameters of `Schedule.Render`.

`app.js` has no terminal state: once the tip-off has passed, the interval keeps ticking and shows `0h 0m 0s` (`Countdown.PastTargetShowsZero`).

## Model

| member | source | states |
|---|---|---|
| `Decimal.Show` | app.js:75 | `${n}` is a non-empty string of digits whose first digit is `0` only for zero |
| `Decimal.ValueShow` | app.js:75 | reading the digits back gives the number: the rendering loses nothing |
| `Decimal.ShowInjective` | app.js:75 | different numbers render differently |
| `Decimal.SplitNumeral` | app.js:75 | a rendered number followed by a unit letter splits back into the number and the rest |
| `Countdown.Left` | app.js:62-64 | the time left is `target - now` when that is not negative, and 0 once the target has passed |
| `Countdown.Remaining` | app.js:62-72 | the displayed clock breaks the clamped time down: whole days, hours < 24, minutes < 60, seconds < 60, under a second left over |
| `Countdown.BreakdownUnique` | app.js:66-72 | a number of milliseconds has exactly one such breakdown, so the days component is unbounded and the others are forced |
| `Countdown.Breakdown` | app.js:62-72 | the successive floor-divide-and-subtract of a tick yields that unique breakdown of the clamped difference |
| `Countdown.Text` | app.js:74-75 | the tick's text `"{d}d {h}h {m}m {s}s"` without the day part when no whole day is left; its properties are stated by `DayPartIffDays` and `TextInjective` |
| `Countdown.DayPartIffDays` | app.js:74-75 | the text has a day part exactly when at least one whole day is left |
| `Countdown.TextInjective` | app.js:74-75 | two clocks with the same text are the same clock |
| `Countdown.TextChangesIffClockChanges` | app.js:77-82 | two ticks of one countdown show different texts exactly when the displayed clock differs, so the write-if-changed test fires on every change and only then |
| `Countdown.PastTargetShowsZero` | app.js:64 | once `now` reaches the target every component is 0 and the text is `0h 0m 0s` |
| `Countdown.OneOfEach` | app.js:66-75 | 90,061,000 ms left is shown as `1d 1h 1m 1s` |
| `Countdown.Widget.constructor` | app.js:42 | the page starts with no handle and no registered interval |
| `Countdown.Widget.AtMostOneActive` | app.js:42-49 | at most one interval is registered, and none exactly when the handle is null |
| `Countdown.Widget.Clear` | app.js:44-49 | `clearCountdown` cancels the handle's interval and leaves the handle null and nothing registered |
| `Countdown.Widget.Tick` | app.js:60-83 | after a tick the element shows the text for the time left; the animation restarts exactly when the text changed, so an unchanged text leaves everything as it was |
| `Countdown.Widget.Start` | app.js:56-87 | `startCountdown` cancels every earlier interval, ticks once at once, and leaves exactly one new interval registered toward the new target |
| `FetchGames.FindClippersId` | scripts/fetch_games.mjs:15-17 | returns the id of the first team with abbreviation `LAC` or a case-insensitive "Clippers" in its name; fails with "Clippers team not found" exactly when there is none |
| `FetchGames.IsClippers` | scripts/fetch_games.mjs:15 | the `find` predicate: abbreviation `LAC`, or "Clippers" in the full name in any letter case; used by `FindClippersId` and `ClippersRecognised` |
| `FetchGames.ClippersRecognised` | scripts/fetch_games.mjs:15 | examples: "Los Angeles Clippers" and "LA CLIPPERS" are recognised, and a one-team list returns that team's id |
| `FetchGames.ClippersIgnoresCase` | scripts/fetch_games.mjs:15 | for every name, changing the letter case of the full name does not change whether the team is recognised |
| `FetchGames.OrDefault` | scripts/fetch_games.mjs:47-50 | a missing or empty string field falls back to the default; a non-empty one is kept |
| `FetchGames.ToHomeGame` | scripts/fetch_games.mjs:44-53 | `id`, `date`, `season`, `status` and `datetime` are copied; the tip-off instant is `datetime` or midnight UTC of `date`; the visitor's full name, the visitor's abbreviation and the home team's full name are kept when present and non-empty, and otherwise become `TBD`, `TBD` and `Los Angeles Clippers` |
| `FetchGames.KeepHome` | scripts/fetch_games.mjs:43 | keeps exactly the games whose home team has the given id |
| `FetchGames.KeepHomeAppend` | scripts/fetch_games.mjs:43 | the filter distributes over concatenation, so it keeps the input order |
| `FetchGames.KeepHomeMultiplicity` | scripts/fetch_games.mjs:43 | the filter keeps every copy of a home game and no copy of any other game |
| `FetchGames.MapToHome` | scripts/fetch_games.mjs:44-53 | maps each game, position by position, to its record |
| `FetchGames.Insert` | scripts/fetch_games.mjs:54 | one insertion step of the stable sort; stated by `InsertKeepsGames`, `InsertSorted` and `InsertStable` |
| `FetchGames.SortByInstant` | scripts/fetch_games.mjs:54 | the `.sort(...)` by tip-off instant; stated by `SortKeepsGames`, `SortSorts` and `SortStable` |
| `FetchGames.InsertKeepsGames` | scripts/fetch_games.mjs:54 | inserting adds exactly the one game to the multiset |
| `FetchGames.InsertSorted` | scripts/fetch_games.mjs:54 | inserting into a sorted list keeps it sorted by instant |
| `FetchGames.InsertStable` | scripts/fetch_games.mjs:54 | an inserted game goes in front of the games already there with its instant |
| `FetchGames.SortKeepsGames` | scripts/fetch_games.mjs:54 | the sort is a permutation |
| `FetchGames.SortSorts` | scripts/fetch_games.mjs:54 | the sort orders ascending by tip-off instant |
| `FetchGames.SortStable` | scripts/fetch_games.mjs:54 | games with equal instants keep their input order, as in a stable `Array.prototype.sort` |
| `FetchGames.ToHomeGames` | scripts/fetch_games.mjs:41-55 | `toHomeGames` as filter, map, sort; stated by `HomeGamesAreTheHostedGames`, `HomeGamesSorted` and `HomeGamesStable` |
| `FetchGames.HomeGamesAreTheHostedGames` | scripts/fetch_games.mjs:41-54 | a record is in the output exactly when it is the record of an input game hosted by `teamId` |
| `FetchGames.HomeGamesSorted` | scripts/fetch_games.mjs:42-54 | the output is sorted ascending by instant and is a permutation of the mapped filtered games; with `KeepHomeMultiplicity`, it holds one record per copy of each home game of the input |
| `FetchGames.HomeGamesStable` | scripts/fetch_games.mjs:54 | home games with the same instant appear in the order of the mapped filtered games, which `KeepHomeAppend` ties to the API's order |
| `Schedule.GamesOf` | app.js:98 | `data.homeGames || []`: a missing list is the empty list; used by `Render` |
| `Schedule.Upcoming` | app.js:98-101 | keeps exactly the games whose instant is at or after `now` |
| `Schedule.UpcomingAppend` | app.js:98-101 | the filter distributes over concatenation, so it keeps input order |
| `Schedule.UpcomingSorted` | app.js:98-101 | filtering a sorted schedule leaves it sorted |
| `Schedule.FirstUpcomingIsSoonest` | app.js:98-110 | on a sorted schedule the first upcoming game has the earliest instant among the games at or after `now` |
| `Schedule.DistinctIdsUpcoming` | app.js:98-101 | filtering keeps game ids distinct |
| `Schedule.FutureTitle` | app.js:133 | the heading `Upcoming Home Games (n)`; `NextThenFuture` and `ThreeUpcoming` state which `n` it shows |
| `Schedule.Items` | app.js:136-144 | one list entry per game, with its opponent and its formatted tip-off |
| `Schedule.Render` | app.js:89-153 | the game region is hidden exactly when loading failed or no game is at or after `now`; a hidden game region also hides the list, shows no next game and starts no countdown, and an empty schedule removes `game-today` and changes nothing else on the page; otherwise the countdown targets the next game, which is an input game not yet tipped off, the opponent text is `{opponent} @ Clippers`, `game-today` is set exactly when the tip-off is on today's Pacific date, and the label is "TODAY" then and the formatted tip-off otherwise; the list is hidden exactly when it is empty, and a hidden list keeps its previous title and entries; a failed load hides both regions and changes nothing else |
| `Schedule.LoadPage` | app.js:95-126 | the page is `Render`'s, filtered with main's clock reading; when a next game is shown, the widget's single interval counts down toward its tip-off and the first tick shows the time left at that tick's own clock reading; otherwise the widget is untouched |
| `Schedule.NextThenFuture` | app.js:110-147 | the next game followed by the list is exactly the upcoming games; the count is one less than the upcoming games; the list is hidden exactly when at most one game is upcoming; otherwise the title and entries are those of `upcoming.slice(1)` |
| `Schedule.FutureNeverRepeatsNext` | app.js:128-129 | with distinct game ids, the list never contains the next game |
| `Schedule.ThreeUpcoming` | app.js:128-133 | with three upcoming games the second and third are listed under "Upcoming Home Games (2)" |
| `Schedule.ShowsSoonestHomeGame` | app.js:98-110 | on a file written by `toHomeGames`, a next game is shown exactly when some home game is at or after `now`, and it is the soonest such game |

## Left out

- Date parsing (`new Date(...)`) is not modelled: a `date` is a day number and a `datetime` is the instant it denotes. An unparseable date (`NaN`) is left out, and so are the comparisons and texts it would produce.
- `isSameDayPT` and `fmtDateTime` depend on `Intl.DateTimeFormat` and the America/Los_Angeles zone rules. They are function parameters of `Schedule.Render`, which only picks the "TODAY" branch or the formatted branch.
- `getNow` and its `window.DEV_OVERRIDE_NOW` override are the `now` parameter.
- `fetch`, the response check and JSON parsing in `main` become the single `LoadFailed` outcome. That outcome hides both regions. An exception thrown later in `main`, after the page has been partly updated, is not modelled.
- `data.homeGames` holding something truthy that is not an array (which would throw) is not modelled; a missing `homeGames` is the empty list.
- The real timer is not modelled: `setInterval` and `clearInterval` are the `live` set and the handle counter. The callback the event loop runs every second is `Countdown.Widget.Tick`. Time-driven scheduling is not modelled.
- DOM element creation (`createElement`, `innerHTML`) is not modelled: the list is the `futureItems` sequence of `Page`. The `pop` class toggle and the reflow are the `pops` counter.
- Countdown arithmetic is exact integer arithmetic. The source's IEEE doubles agree with it whenever `target - now` is at most 2^53 (about 9.007e15 ms, some 285,000 years), which always holds when `now` is the real clock. Larger differences, reachable only through `window.DEV_OVERRIDE_NOW`, round in the source and are not modelled. Exponential notation from `${n}` starts only at 1e21, far above any day count.
- `getAllGames` pagination, the `/teams` request in `getClippersId` with its `teams failed: ${r.status}` error, the API key check and the writing of `data/games.json` are network, environment and file-system plumbing. `FindClippersId` starts from the team list the request returns.
- Case-insensitive matching uses ASCII letter case. For the all-ASCII pattern `/Clippers/i` this is exact, because a non-unicode regex never folds a non-ASCII character to an ASCII one.
- A `full_name` missing from a `/teams` entry would be matched as the text "undefined". The model's `Team` always carries a name.
