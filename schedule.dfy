/**
 * The widget's page load (`main`): keep the games that have not tipped off,
 * show the first as the next game with a countdown toward it, and list the
 * rest under "Upcoming Home Games". The time-zone helpers (same day in
 * Pacific time, and the date-and-time label) are passed in as functions.
 */
module Schedule {
  import opened Wrappers
  import opened Games
  import opened Decimal
  import Countdown
  import FetchGames

  /** One line of the upcoming-games list: opponent and formatted tip-off. */
  datatype FutureItem = FutureItem(opponent: string, when: string)

  /** What `main` writes on the page. */
  datatype Page = Page(
    gameHidden: bool,        // the next-game region carries `hidden`
    futureHidden: bool,      // the upcoming-list region carries `hidden`
    gameToday: bool,         // the body carries `game-today`
    opponentText: string,
    datetimeText: string,
    futureTitle: string,
    futureItems: seq<FutureItem>)

  /** The schedule request: failed (network, status or JSON), or the parsed `homeGames` field. */
  datatype Outcome = LoadFailed | Loaded(homeGames: Option<seq<HomeGame>>)

  /** The page after loading, with the selection that produced it. */
  datatype View = View(
    page: Page,
    next: Option<HomeGame>,
    future: seq<HomeGame>,
    futureCount: nat,
    countdown: Option<int>)   // the target of the countdown started, if one was

  /** `data.homeGames || []`. */
  function GamesOf(homeGames: Option<seq<HomeGame>>): seq<HomeGame>
  {
    match homeGames
    case Some(s) => s
    case None => []
  }

  /** The games that have not tipped off by `now`, in the order given. */
  function Upcoming(games: seq<HomeGame>, now: int): (u: seq<HomeGame>)
    ensures forall g :: g in u <==> g in games && Instant(g) >= now
    ensures |u| <= |games|
  {
    if games == [] then []
    else (if Instant(games[0]) >= now then [games[0]] else []) + Upcoming(games[1..], now)
  }

  /** The list entries for `games`, each labelled with its formatted tip-off. */
  function Items(games: seq<HomeGame>, format: int -> string): (r: seq<FutureItem>)
    ensures |r| == |games|
    ensures forall i :: 0 <= i < |games| ==> r[i] == FutureItem(games[i].opponent, format(Instant(games[i])))
  {
    if games == [] then [] else [FutureItem(games[0].opponent, format(Instant(games[0])))] + Items(games[1..], format)
  }

  /** The heading of the upcoming-games list for `n` games. */
  function FutureTitle(n: nat): string
  {
    "Upcoming Home Games (" + Show(n) + ")"
  }

  /**
   * `main` once the request has settled: the page it leaves and the
   * countdown it starts.
   */
  function Render(before: Page, outcome: Outcome, now: int,
                  sameDayPT: (int, int) -> bool, format: int -> string): (v: View)
    ensures v.page.gameHidden <==>
      outcome.LoadFailed? || forall g :: g in GamesOf(outcome.homeGames) ==> Instant(g) < now
    ensures v.page.gameHidden ==> v.page.futureHidden && v.next == None && v.countdown == None
    ensures !v.page.gameHidden ==> v.next.Some? && v.countdown == Some(Instant(v.next.value))
    ensures v.next.Some? ==> v.next.value in GamesOf(outcome.homeGames) && Instant(v.next.value) >= now
    ensures v.page.futureHidden <==> v.future == []
    ensures v.futureCount == |v.future|
    ensures outcome.Loaded? && v.page.gameHidden ==> !v.page.gameToday
    ensures outcome.LoadFailed? ==> v.page == before.(gameHidden := true, futureHidden := true)
    ensures outcome.Loaded? && v.next == None ==>
      v.page == before.(gameHidden := true, futureHidden := true, gameToday := false)
    ensures v.next.Some? && v.future == [] ==>
      v.page.futureTitle == before.futureTitle && v.page.futureItems == before.futureItems
    ensures v.next.Some? ==>
      && v.page.opponentText == v.next.value.opponent + " @ Clippers"
      && v.page.gameToday == sameDayPT(now, Instant(v.next.value))
      && v.page.datetimeText == (if v.page.gameToday then "TODAY" else format(Instant(v.next.value)))
  {
    match outcome
    case LoadFailed =>
      View(before.(gameHidden := true, futureHidden := true), None, [], 0, None)
    case Loaded(homeGames) =>
      var upcoming := Upcoming(GamesOf(homeGames), now);
      if upcoming == [] then
        View(before.(gameHidden := true, futureHidden := true, gameToday := false), None, [], 0, None)
      else
        var next := upcoming[0];
        var tip := Instant(next);
        var today := sameDayPT(now, tip);
        var shown := before.(
          opponentText := next.opponent + " @ Clippers",
          datetimeText := if today then "TODAY" else format(tip),
          gameToday := today,
          gameHidden := false);
        var future := upcoming[1..];
        if future == [] then
          View(shown.(futureHidden := true), Some(next), future, 0, Some(tip))
        else
          View(shown.(futureHidden := false, futureTitle := FutureTitle(|future|),
                      futureItems := Items(future, format)),
               Some(next), future, |future|, Some(tip))
  }

  /**
   * `main` with the countdown it starts: the page is `Render`'s, and when a
   * next game is shown the widget counts down to its tip-off. `now` is the
   * clock reading `main` filters with; `tickNow` is the separate reading the
   * first tick takes (usually later, but a wall clock may step back).
   */
  method LoadPage(w: Countdown.Widget, before: Page, outcome: Outcome, now: int, tickNow: int,
                  sameDayPT: (int, int) -> bool, format: int -> string) returns (v: View)
    requires w.Valid()
    modifies w
    ensures v == Render(before, outcome, now, sameDayPT, format)
    ensures w.Valid()
    ensures v.countdown.None? ==> unchanged(w)
    ensures v.countdown.Some? ==>
      && w.target == v.countdown.value
      && w.handle == Some(old(w.nextHandle)) && w.live == {old(w.nextHandle)}
      && w.text == Countdown.Text(Countdown.Remaining(w.target, tickNow))
  {
    v := Render(before, outcome, now, sameDayPT, format);
    if v.countdown.Some? {
      w.Start(v.countdown.value, tickNow);
    }
  }

  // Selection properties

  /** The filter keeps input order: it distributes over concatenation. */
  lemma {:induction false} UpcomingAppend(a: seq<HomeGame>, b: seq<HomeGame>, now: int)
    ensures Upcoming(a + b, now) == Upcoming(a, now) + Upcoming(b, now)
  {
    if a == [] {
      assert a + b == b;
    } else {
      var head := if Instant(a[0]) >= now then [a[0]] else [];
      calc {
        Upcoming(a + b, now);
        { assert (a + b)[0] == a[0] && (a + b)[1..] == a[1..] + b; }
        head + Upcoming(a[1..] + b, now);
        { UpcomingAppend(a[1..], b, now); }
        head + (Upcoming(a[1..], now) + Upcoming(b, now));
      }
    }
  }

  /** A sorted schedule stays sorted after filtering. */
  lemma {:induction false} UpcomingSorted(games: seq<HomeGame>, now: int)
    requires SortedByInstant(games)
    ensures SortedByInstant(Upcoming(games, now))
  {
    if games != [] {
      UpcomingSorted(games[1..], now);
      var rest := Upcoming(games[1..], now);
      forall g | g in rest ensures Instant(games[0]) <= Instant(g) {
        var i :| 1 <= i < |games| && games[i] == g;
      }
    }
  }

  /** On a sorted schedule the first upcoming game is the soonest one at or after `now`. */
  lemma {:induction false} FirstUpcomingIsSoonest(games: seq<HomeGame>, now: int)
    requires SortedByInstant(games)
    requires Upcoming(games, now) != []
    ensures forall g :: g in games && Instant(g) >= now ==> Instant(Upcoming(games, now)[0]) <= Instant(g)
  {
    if Instant(games[0]) < now {
      FirstUpcomingIsSoonest(games[1..], now);
      forall g | g in games && Instant(g) >= now ensures g in games[1..] {
        var i :| 0 <= i < |games| && games[i] == g;
        assert i != 0;
      }
    }
  }

  /**
   * With games loaded, the next game is the first upcoming one and the list
   * holds all the others in order: never the next game's position again, and
   * hidden exactly when there is nothing after the next game.
   */
  lemma NextThenFuture(before: Page, homeGames: Option<seq<HomeGame>>, now: int,
                       sameDayPT: (int, int) -> bool, format: int -> string)
    ensures var u := Upcoming(GamesOf(homeGames), now);
            var v := Render(before, Loaded(homeGames), now, sameDayPT, format);
            && (u == [] <==> v.next == None)
            && (u != [] ==> u == [v.next.value] + v.future && v.futureCount == |u| - 1)
            && (v.page.futureHidden <==> |u| <= 1)
            && (|u| > 1 ==> v.page.futureTitle == FutureTitle(|u| - 1)
                            && v.page.futureItems == Items(u[1..], format))
  {
    var u := Upcoming(GamesOf(homeGames), now);
    if u != [] {
      assert u == [u[0]] + u[1..];
    }
  }

  /** No two games share an id. */
  predicate DistinctIds(games: seq<HomeGame>)
  {
    forall i, j :: 0 <= i < j < |games| ==> games[i].id != games[j].id
  }

  /** When game ids are distinct the next game never reappears in the list. */
  lemma FutureNeverRepeatsNext(before: Page, homeGames: Option<seq<HomeGame>>, now: int,
                               sameDayPT: (int, int) -> bool, format: int -> string)
    requires DistinctIds(GamesOf(homeGames))
    ensures var v := Render(before, Loaded(homeGames), now, sameDayPT, format);
            v.next.Some? ==> forall g :: g in v.future ==> g.id != v.next.value.id
  {
    var u := Upcoming(GamesOf(homeGames), now);
    DistinctIdsUpcoming(GamesOf(homeGames), now);
    NextThenFuture(before, homeGames, now, sameDayPT, format);
    if u != [] {
      forall g | g in u[1..] ensures g.id != u[0].id {
        var i :| 0 <= i < |u| - 1 && u[1..][i] == g;
        assert u[i + 1] == g;
      }
    }
  }

  /** Filtering keeps ids distinct. */
  lemma {:induction false} DistinctIdsUpcoming(games: seq<HomeGame>, now: int)
    requires DistinctIds(games)
    ensures DistinctIds(Upcoming(games, now))
  {
    if games != [] {
      var u, rest := Upcoming(games, now), Upcoming(games[1..], now);
      assert DistinctIds(games[1..]) by {
        forall i, j | 0 <= i < j < |games| - 1 ensures games[1..][i].id != games[1..][j].id {
          assert games[1..][i] == games[i + 1] && games[1..][j] == games[j + 1];
        }
      }
      DistinctIdsUpcoming(games[1..], now);
      if Instant(games[0]) >= now {
        forall i, j | 0 <= i < j < |u| ensures u[i].id != u[j].id {
          assert u[j] == rest[j - 1] && u[j] in rest;
          var k :| 1 <= k < |games| && games[k] == u[j];
          if i > 0 {
            assert u[i] == rest[i - 1];
          }
        }
      } else {
        assert u == rest;
      }
    }
  }

  /** Three upcoming games: the second and third are listed, under a count of 2. */
  lemma ThreeUpcoming(before: Page, homeGames: Option<seq<HomeGame>>, now: int,
                      sameDayPT: (int, int) -> bool, format: int -> string,
                      a: HomeGame, b: HomeGame, c: HomeGame)
    requires Upcoming(GamesOf(homeGames), now) == [a, b, c]
    ensures var v := Render(before, Loaded(homeGames), now, sameDayPT, format);
            && v.next == Some(a) && v.future == [b, c] && !v.page.futureHidden
            && v.page.futureTitle == "Upcoming Home Games (2)"
  {
  }

  /**
   * End to end: on the file the data script writes, the game the widget
   * shows next is the team's soonest home game that has not tipped off.
   */
  lemma ShowsSoonestHomeGame(raw: seq<FetchGames.RawGame>, teamId: int, before: Page, now: int,
                             sameDayPT: (int, int) -> bool, format: int -> string)
    ensures var v := Render(before, Loaded(Some(FetchGames.ToHomeGames(raw, teamId))), now, sameDayPT, format);
            && (v.next.Some? <==> exists g :: g in raw && FetchGames.IsHome(g, teamId)
                                            && Instant(FetchGames.ToHomeGame(g)) >= now)
            && (v.next.Some? ==> forall g :: g in raw && FetchGames.IsHome(g, teamId)
                                            && Instant(FetchGames.ToHomeGame(g)) >= now
                                            ==> Instant(v.next.value) <= Instant(FetchGames.ToHomeGame(g)))
  {
    var home := FetchGames.ToHomeGames(raw, teamId);
    FetchGames.HomeGamesAreTheHostedGames(raw, teamId);
    FetchGames.HomeGamesSorted(raw, teamId);
    var v := Render(before, Loaded(Some(home)), now, sameDayPT, format);
    if v.next.Some? {
      FirstUpcomingIsSoonest(home, now);
      forall g | g in raw && FetchGames.IsHome(g, teamId) && Instant(FetchGames.ToHomeGame(g)) >= now
        ensures Instant(v.next.value) <= Instant(FetchGames.ToHomeGame(g))
      {
        assert FetchGames.ToHomeGame(g) in home;
      }
    }
    if exists g :: g in raw && FetchGames.IsHome(g, teamId) && Instant(FetchGames.ToHomeGame(g)) >= now {
      var g :| g in raw && FetchGames.IsHome(g, teamId) && Instant(FetchGames.ToHomeGame(g)) >= now;
      assert FetchGames.ToHomeGame(g) in home;
    }
  }
}
