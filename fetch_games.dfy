/**
 * The data script's pure part: finding the Clippers among the API's teams,
 * and turning the team's games into the sorted list of home games that the
 * widget reads.
 */
module FetchGames {
  import opened Wrappers
  import opened Games

  /** A team as listed by the `/teams` endpoint. */
  datatype Team = Team(id: int, abbreviation: string, fullName: string)

  /** A team as embedded in a game; its name fields may be missing. */
  datatype TeamRef = TeamRef(id: int, fullName: Option<string>, abbreviation: Option<string>)

  /** A game as returned by the `/games` endpoint. */
  datatype RawGame = RawGame(
    id: int,
    date: int,
    datetime: Option<int>,
    homeTeam: Option<TeamRef>,
    visitorTeam: Option<TeamRef>,
    season: int,
    status: string)

  // ---------------------------------------------------------------------
  // Team lookup

  /** ASCII upper case, the canonical form a case-insensitive match compares. */
  function Upper(c: char): char
  {
    if 'a' <= c <= 'z' then (c as int - 32) as char else c
  }

  /** `p` occurs in `s` at position `i`, ignoring case. */
  predicate MatchesAt(s: string, p: string, i: nat)
  {
    i + |p| <= |s| && forall j :: 0 <= j < |p| ==> Upper(s[i + j]) == Upper(p[j])
  }

  /** `/p/i.test(s)` for a pattern of plain letters. */
  predicate ContainsIgnoringCase(s: string, p: string)
  {
    exists i: nat :: i <= |s| && MatchesAt(s, p, i)
  }

  /** The test the script applies to each team. */
  predicate IsClippers(t: Team)
  {
    t.abbreviation == "LAC" || ContainsIgnoringCase(t.fullName, "Clippers")
  }

  /** `getClippersId` after the request: the id of the first matching team, or the script's error. */
  function FindClippersId(teams: seq<Team>): (r: Result<int>)
    ensures r.Ok? <==> exists k :: 0 <= k < |teams| && IsClippers(teams[k])
    ensures r.Err? ==> r.message == "Clippers team not found"
    ensures r.Ok? ==> exists k :: 0 <= k < |teams| && IsClippers(teams[k]) && teams[k].id == r.value
                                && forall j :: 0 <= j < k ==> !IsClippers(teams[j])
  {
    if teams == [] then Err("Clippers team not found")
    else if IsClippers(teams[0]) then Ok(teams[0].id)
    else
      var r := FindClippersId(teams[1..]);
      assert forall k :: 1 <= k < |teams| ==> teams[k] == teams[1..][k - 1];
      if r.Ok? then
        assert exists k :: 1 <= k < |teams| && IsClippers(teams[k]) && teams[k].id == r.value
                         && forall j :: 0 <= j < k ==> !IsClippers(teams[j]);
        r
      else r
  }

  /** The team's own listing is recognised whatever the case of its name. */
  lemma ClippersRecognised(id: int, abbreviation: string)
    ensures IsClippers(Team(id, abbreviation, "Los Angeles Clippers"))
    ensures IsClippers(Team(id, abbreviation, "LA CLIPPERS"))
    ensures FindClippersId([Team(id, abbreviation, "Los Angeles Clippers")]) == Ok(id)
  {
    assert MatchesAt("Los Angeles Clippers", "Clippers", 12);
    assert MatchesAt("LA CLIPPERS", "Clippers", 3);
  }

  /** Recognition ignores letter case: a name that differs only in case is judged alike. */
  lemma ClippersIgnoresCase(t: Team, name: string)
    requires |name| == |t.fullName|
    requires forall i :: 0 <= i < |name| ==> Upper(name[i]) == Upper(t.fullName[i])
    ensures IsClippers(t) <==> IsClippers(t.(fullName := name))
  {
    if ContainsIgnoringCase(t.fullName, "Clippers") {
      var i: nat :| i <= |t.fullName| && MatchesAt(t.fullName, "Clippers", i);
      assert MatchesAt(name, "Clippers", i);
    }
    if ContainsIgnoringCase(name, "Clippers") {
      var i: nat :| i <= |name| && MatchesAt(name, "Clippers", i);
      assert MatchesAt(t.fullName, "Clippers", i);
    }
  }

  // ---------------------------------------------------------------------
  // Home games

  /** `s || d` for a string field: a missing or empty string gives `d`. */
  function OrDefault(s: Option<string>, d: string): (r: string)
    ensures s.Some? && s.value != "" ==> r == s.value
    ensures s == None || s == Some("") ==> r == d
  {
    if s.Some? && s.value != "" then s.value else d
  }

  /** The game is played at home by team `teamId` (`g.home_team?.id === teamId`). */
  predicate IsHome(g: RawGame, teamId: int)
  {
    g.homeTeam.Some? && g.homeTeam.value.id == teamId
  }

  /** The visitor's full name, or `'TBD'`. */
  function OpponentName(g: RawGame): string
  {
    if g.visitorTeam.Some? then OrDefault(g.visitorTeam.value.fullName, "TBD") else "TBD"
  }

  /** The visitor's abbreviation, or `'TBD'`. */
  function OpponentAbbr(g: RawGame): string
  {
    if g.visitorTeam.Some? then OrDefault(g.visitorTeam.value.abbreviation, "TBD") else "TBD"
  }

  /** The home team's full name, or `'Los Angeles Clippers'`. */
  function HomeName(g: RawGame): string
  {
    if g.homeTeam.Some? then OrDefault(g.homeTeam.value.fullName, "Los Angeles Clippers")
    else "Los Angeles Clippers"
  }

  /** The record written for one game. */
  function ToHomeGame(g: RawGame): (h: HomeGame)
    ensures h.id == g.id && h.date == g.date && h.season == g.season && h.status == g.status
    ensures h.datetime == g.datetime
    ensures Instant(h) == (if g.datetime.Some? then g.datetime.value else g.date * MsPerDay)
    ensures h.opponent != "" && h.opponentAbbr != "" && h.homeTeam != ""
    ensures g.visitorTeam.Some? && g.visitorTeam.value.fullName.Some? && g.visitorTeam.value.fullName.value != ""
            ==> h.opponent == g.visitorTeam.value.fullName.value
    ensures !(g.visitorTeam.Some? && g.visitorTeam.value.fullName.Some? && g.visitorTeam.value.fullName.value != "")
            ==> h.opponent == "TBD"
    ensures g.visitorTeam.Some? && g.visitorTeam.value.abbreviation.Some? && g.visitorTeam.value.abbreviation.value != ""
            ==> h.opponentAbbr == g.visitorTeam.value.abbreviation.value
    ensures !(g.visitorTeam.Some? && g.visitorTeam.value.abbreviation.Some? && g.visitorTeam.value.abbreviation.value != "")
            ==> h.opponentAbbr == "TBD"
    ensures g.homeTeam.Some? && g.homeTeam.value.fullName.Some? && g.homeTeam.value.fullName.value != ""
            ==> h.homeTeam == g.homeTeam.value.fullName.value
    ensures !(g.homeTeam.Some? && g.homeTeam.value.fullName.Some? && g.homeTeam.value.fullName.value != "")
            ==> h.homeTeam == "Los Angeles Clippers"
  {
    HomeGame(g.id, g.date, g.datetime, OpponentName(g), OpponentAbbr(g), HomeName(g), g.season, g.status)
  }

  /** `.filter(g => g.home_team?.id === teamId)`. */
  function KeepHome(games: seq<RawGame>, teamId: int): (r: seq<RawGame>)
    ensures forall g :: g in r <==> g in games && IsHome(g, teamId)
    ensures |r| <= |games|
  {
    if games == [] then []
    else (if IsHome(games[0], teamId) then [games[0]] else []) + KeepHome(games[1..], teamId)
  }

  /** The filter keeps input order: it distributes over concatenation. */
  lemma {:induction false} KeepHomeAppend(a: seq<RawGame>, b: seq<RawGame>, teamId: int)
    ensures KeepHome(a + b, teamId) == KeepHome(a, teamId) + KeepHome(b, teamId)
  {
    if a == [] {
      assert a + b == b;
    } else {
      assert (a + b)[0] == a[0] && (a + b)[1..] == a[1..] + b;
      KeepHomeAppend(a[1..], b, teamId);
    }
  }

  /** The filter keeps every copy of a home game and no copy of any other game. */
  lemma {:induction false} KeepHomeMultiplicity(games: seq<RawGame>, teamId: int, g: RawGame)
    ensures multiset(KeepHome(games, teamId))[g] == if IsHome(g, teamId) then multiset(games)[g] else 0
  {
    if games != [] {
      KeepHomeMultiplicity(games[1..], teamId, g);
      assert games == [games[0]] + games[1..];
    }
  }

  /** `.map(...)` with `ToHomeGame`. */
  function MapToHome(games: seq<RawGame>): (r: seq<HomeGame>)
    ensures |r| == |games|
    ensures forall i :: 0 <= i < |games| ==> r[i] == ToHomeGame(games[i])
  {
    if games == [] then [] else [ToHomeGame(games[0])] + MapToHome(games[1..])
  }

  /**
   * Inserts `h` into sorted `s` in front of the first game that tips off no
   * earlier: a game inserted this way goes before the games with its own instant.
   */
  function Insert(h: HomeGame, s: seq<HomeGame>): seq<HomeGame>
  {
    if s == [] then [h]
    else if Instant(h) <= Instant(s[0]) then [h] + s
    else [s[0]] + Insert(h, s[1..])
  }

  /** Stable sort by tip-off instant, the `.sort(...)` step. */
  function SortByInstant(s: seq<HomeGame>): seq<HomeGame>
  {
    if s == [] then [] else Insert(s[0], SortByInstant(s[1..]))
  }

  /** `toHomeGames(games, teamId)`. */
  function ToHomeGames(games: seq<RawGame>, teamId: int): seq<HomeGame>
  {
    SortByInstant(MapToHome(KeepHome(games, teamId)))
  }

  /** The games of `s` that tip off at instant `t`, in order. */
  function AtInstant(s: seq<HomeGame>, t: int): seq<HomeGame>
  {
    if s == [] then [] else (if Instant(s[0]) == t then [s[0]] else []) + AtInstant(s[1..], t)
  }

  // Sorting lemmas

  lemma {:induction false} InsertKeepsGames(h: HomeGame, s: seq<HomeGame>)
    ensures multiset(Insert(h, s)) == multiset(s) + multiset{h}
    decreases |s|
  {
    if s != [] && Instant(h) > Instant(s[0]) {
      InsertKeepsGames(h, s[1..]);
      assert s == [s[0]] + s[1..];
    }
  }

  lemma {:induction false} InsertSorted(h: HomeGame, s: seq<HomeGame>)
    requires SortedByInstant(s)
    ensures SortedByInstant(Insert(h, s))
    decreases |s|
  {
    if s != [] && Instant(h) > Instant(s[0]) {
      InsertSorted(h, s[1..]);
      InsertKeepsGames(h, s[1..]);
      var rest := Insert(h, s[1..]);
      forall x | x in rest ensures Instant(s[0]) <= Instant(x) {
        assert x in multiset(rest);
      }
    }
  }

  /** Among the games with `h`'s instant, an inserted `h` comes first. */
  lemma {:induction false} InsertStable(h: HomeGame, s: seq<HomeGame>, t: int)
    ensures AtInstant(Insert(h, s), t) == (if Instant(h) == t then [h] else []) + AtInstant(s, t)
    decreases |s|
  {
    var here := if Instant(h) == t then [h] else [];
    if s == [] {
    } else if Instant(h) <= Instant(s[0]) {
      assert ([h] + s)[0] == h && ([h] + s)[1..] == s;
    } else {
      var first := if Instant(s[0]) == t then [s[0]] else [];
      var r := [s[0]] + Insert(h, s[1..]);
      assert r[0] == s[0] && r[1..] == Insert(h, s[1..]);
      calc {
        AtInstant(r, t);
        first + AtInstant(Insert(h, s[1..]), t);
        { InsertStable(h, s[1..], t); }
        first + (here + AtInstant(s[1..], t));
        { assert first == [] || here == []; }
        here + (first + AtInstant(s[1..], t));
        here + AtInstant(s, t);
      }
    }
  }

  /** The sort is a permutation. */
  lemma {:induction false} SortKeepsGames(s: seq<HomeGame>)
    ensures multiset(SortByInstant(s)) == multiset(s)
  {
    if s != [] {
      SortKeepsGames(s[1..]);
      InsertKeepsGames(s[0], SortByInstant(s[1..]));
      assert s == [s[0]] + s[1..];
    }
  }

  /** The sort orders by instant. */
  lemma {:induction false} SortSorts(s: seq<HomeGame>)
    ensures SortedByInstant(SortByInstant(s))
  {
    if s != [] {
      SortSorts(s[1..]);
      InsertSorted(s[0], SortByInstant(s[1..]));
    }
  }

  /** The sort is stable: games with equal instants keep their input order. */
  lemma {:induction false} SortStable(s: seq<HomeGame>, t: int)
    ensures AtInstant(SortByInstant(s), t) == AtInstant(s, t)
  {
    if s != [] {
      SortStable(s[1..], t);
      InsertStable(s[0], SortByInstant(s[1..]), t);
    }
  }

  // Properties of toHomeGames

  /**
   * The output holds exactly the records of the games the team hosts: every
   * output game comes from a game whose home team is `teamId`, and every such
   * game is in the output.
   */
  lemma HomeGamesAreTheHostedGames(games: seq<RawGame>, teamId: int)
    ensures forall h :: h in ToHomeGames(games, teamId) <==>
      exists g :: g in games && IsHome(g, teamId) && h == ToHomeGame(g)
  {
    var kept := KeepHome(games, teamId);
    var mapped := MapToHome(kept);
    SortKeepsGames(mapped);
    forall h ensures h in ToHomeGames(games, teamId) <==> h in mapped {
      assert h in ToHomeGames(games, teamId) <==> h in multiset(ToHomeGames(games, teamId));
    }
    forall h | h in mapped ensures exists g :: g in games && IsHome(g, teamId) && h == ToHomeGame(g) {
      var i :| 0 <= i < |mapped| && mapped[i] == h;
      assert kept[i] in kept;
    }
    forall g | g in games && IsHome(g, teamId) ensures ToHomeGame(g) in mapped {
      var i :| 0 <= i < |kept| && kept[i] == g;
      assert mapped[i] == ToHomeGame(g);
    }
  }

  /** The output is sorted by tip-off instant and is a permutation of the mapped home games. */
  lemma HomeGamesSorted(games: seq<RawGame>, teamId: int)
    ensures SortedByInstant(ToHomeGames(games, teamId))
    ensures multiset(ToHomeGames(games, teamId)) == multiset(MapToHome(KeepHome(games, teamId)))
    ensures |ToHomeGames(games, teamId)| == |KeepHome(games, teamId)|
  {
    SortSorts(MapToHome(KeepHome(games, teamId)));
    SortKeepsGames(MapToHome(KeepHome(games, teamId)));
    assert |ToHomeGames(games, teamId)| == |multiset(ToHomeGames(games, teamId))|;
  }

  /** Home games with the same tip-off instant keep the API's order. */
  lemma HomeGamesStable(games: seq<RawGame>, teamId: int, t: int)
    ensures AtInstant(ToHomeGames(games, teamId), t) == AtInstant(MapToHome(KeepHome(games, teamId)), t)
  {
    SortStable(MapToHome(KeepHome(games, teamId)), t);
  }
}
