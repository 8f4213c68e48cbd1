/**
 * The home-game record that the data script writes into `data/games.json` and
 * that the widget reads back, and the instant a game tips off.
 *
 * Instants are integer milliseconds since the Unix epoch. A calendar day
 * `"YYYY-MM-DD"` is represented by its day number since the epoch, so that
 * both `new Date("YYYY-MM-DD")` and `new Date("YYYY-MM-DDT00:00:00Z")` denote
 * `day * MsPerDay`. An ISO `datetime` string is represented by the instant it
 * denotes; a missing, `null` or empty one is `None`.
 */
module Games {
  import opened Wrappers

  const MsPerDay: int := 86400000

  /** One entry of `homeGames`. */
  datatype HomeGame = HomeGame(
    id: int,
    date: int,                // calendar day, as a day number
    datetime: Option<int>,    // precise tip-off instant, when known
    opponent: string,
    opponentAbbr: string,
    homeTeam: string,
    season: int,
    status: string)

  /** The tip-off instant: `datetime` when present, else midnight UTC of `date`. */
  function Instant(g: HomeGame): int
  {
    match g.datetime
    case Some(t) => t
    case None => g.date * MsPerDay
  }

  /** Ascending by tip-off instant (ties allowed). */
  predicate SortedByInstant(s: seq<HomeGame>)
  {
    forall i, j :: 0 <= i < j < |s| ==> Instant(s[i]) <= Instant(s[j])
  }
}
