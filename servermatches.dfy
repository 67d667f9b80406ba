/**
 * The `/api/matches` handler of backend/server.js: the tournament logo map
 * built from the events directory, the id, logo and date each match is given,
 * and the `status` and `date` query filters.
 */
module ServerMatches {
  import opened Wrappers
  import opened Text
  import opened Seqs
  import opened ServerHelpers
  import LogoMapping

  /**
   * A match segment of the upstream API. A missing field is `None`; the handler
   * writes `id`, `tournament_logo` and `date` itself.
   */
  datatype Match = Match(
    id: Option<string>,
    matchPage: Option<string>,
    team1: Option<string>,
    team2: Option<string>,
    tournamentName: Option<string>,
    timeCompleted: Option<string>,
    timeUntilMatch: Option<string>,
    date: Option<string>,
    tournamentLogo: Option<string>)

  // ---------------------------------------------------------------- logo map

  /** The map key of a logo file: its name with the first ".png" removed, lower-cased. */
  function LogoKey(file: string): string {
    LogoMapping.Key(file)
  }

  /**
   * A `reduce` into an object: each file stored under `key(file)`, a later file
   * replacing an earlier one with the same key.
   */
  function KeyedMap(files: seq<string>, key: string -> string): (m: map<string, string>)
    ensures forall k :: k in m ==> m[k] in files && key(m[k]) == k
    ensures forall i :: 0 <= i < |files| ==> key(files[i]) in m
  {
    if files == [] then map[]
    else
      var last := files[|files| - 1];
      KeyedMap(files[..|files| - 1], key)[key(last) := last]
  }

  /** `files[i]` is the last of `files` whose key is `k`. */
  predicate LastWithKey(files: seq<string>, key: string -> string, k: string, i: int) {
    0 <= i < |files| && key(files[i]) == k
    && forall j :: i < j < |files| ==> key(files[j]) != k
  }

  /** Each key maps to the last file that has that key. */
  lemma {:induction false} KeyedMapKeepsLast(files: seq<string>, key: string -> string, k: string)
    requires k in KeyedMap(files, key)
    ensures exists i :: LastWithKey(files, key, k, i) && KeyedMap(files, key)[k] == files[i]
  {
    var n := |files|;
    var last := files[n - 1];
    var init := files[..n - 1];
    assert KeyedMap(files, key) == KeyedMap(init, key)[key(last) := last];
    if key(last) == k {
      assert LastWithKey(files, key, k, n - 1);
    } else {
      KeyedMapKeepsLast(init, key, k);
      var i :| LastWithKey(init, key, k, i) && KeyedMap(init, key)[k] == init[i];
      assert files[i] == init[i];
      forall j | i < j < n ensures key(files[j]) != k {
        if j < n - 1 {
          assert files[j] == init[j];
        }
      }
      assert LastWithKey(files, key, k, i);
    }
  }

  /** The `logoFiles` object of the handler. */
  function LogoMap(files: seq<string>): map<string, string> {
    KeyedMap(files, LogoKey)
  }

  /** The lookup key of a match: its tournament name lower-cased, or "" when it has none. */
  function TournamentKey(tournamentName: Option<string>): string {
    if tournamentName.Some? then Lower(tournamentName.value) else ""
  }

  /**
   * `logoFiles[tournamentName] || 'default-tournament-logo.png'`: a logo file from
   * the listing whose key is the match's tournament key, or the sentinel exactly
   * when the listing has none.
   */
  function TournamentLogo(listing: seq<string>, tournamentName: Option<string>): (r: string)
    ensures r == DefaultLogo || (r in listing && IsEventLogo(r) && LogoKey(r) == TournamentKey(tournamentName))
    ensures r == DefaultLogo <==>
      !exists f :: f in listing && IsEventLogo(f) && LogoKey(f) == TournamentKey(tournamentName)
  {
    var logos := Filter(listing, IsEventLogo);
    FilterMembers(listing, IsEventLogo);
    var m := LogoMap(logos);
    var k := TournamentKey(tournamentName);
    assert forall f :: f in logos ==> LogoKey(f) in m by {
      forall f | f in logos ensures LogoKey(f) in m {
        var i :| 0 <= i < |logos| && logos[i] == f;
      }
    }
    if k in m then m[k] else DefaultLogo
  }

  /** When several logo files share the key, the one listed last is chosen. */
  lemma TournamentLogoIsLast(listing: seq<string>, tournamentName: Option<string>)
    requires TournamentLogo(listing, tournamentName) != DefaultLogo
    ensures exists i ::
      (LastWithKey(Filter(listing, IsEventLogo), LogoKey, TournamentKey(tournamentName), i)
       && Filter(listing, IsEventLogo)[i] == TournamentLogo(listing, tournamentName))
  {
    var logos := Filter(listing, IsEventLogo);
    var k := TournamentKey(tournamentName);
    FilterMembers(listing, IsEventLogo);
    assert k in LogoMap(logos);
    KeyedMapKeepsLast(logos, LogoKey, k);
  }

  /** The sentinel itself is never a value of the logo map, whatever the listing holds. */
  lemma SentinelNeverMapped(listing: seq<string>)
    ensures forall k :: k in LogoMap(Filter(listing, IsEventLogo)) ==>
      LogoMap(Filter(listing, IsEventLogo))[k] != DefaultLogo
  {
    FilterMembers(listing, IsEventLogo);
  }

  // ---------------------------------------------------------------- preparing a match

  /** `match.id || match.match_page || `${team1}-${team2}-${tournament_name || ''}``. */
  function MatchId(m: Match): (r: string)
    ensures r != []
    ensures Truthy(m.id) ==> r == m.id.value
    ensures !Truthy(m.id) && Truthy(m.matchPage) ==> r == m.matchPage.value
  {
    if Truthy(m.id) then m.id.value
    else if Truthy(m.matchPage) then m.matchPage.value
    else Show(m.team1) + "-" + Show(m.team2) + "-" + (if Truthy(m.tournamentName) then m.tournamentName.value else "")
  }

  /** The completion time when there is one, else the time until the match unless it is live, else the date as it was. */
  function MatchDate(m: Match): Option<string> {
    if Truthy(m.timeCompleted) then m.timeCompleted
    else if Truthy(m.timeUntilMatch) && m.timeUntilMatch.value != "LIVE" then m.timeUntilMatch
    else m.date
  }

  /** The `map` step of the handler. */
  function Prepare(listing: seq<string>, m: Match): (r: Match)
    ensures r.timeCompleted == m.timeCompleted && r.timeUntilMatch == m.timeUntilMatch
    ensures r.tournamentName == m.tournamentName
  {
    m.(id := Some(MatchId(m)),
       tournamentLogo := Some(TournamentLogo(listing, m.tournamentName)),
       date := MatchDate(m))
  }

  function PrepareAll(listing: seq<string>, ms: seq<Match>): (r: seq<Match>)
    ensures |r| == |ms|
    ensures forall i :: 0 <= i < |ms| ==> r[i] == Prepare(listing, ms[i])
  {
    if ms == [] then [] else [Prepare(listing, ms[0])] + PrepareAll(listing, ms[1..])
  }

  /** Preparing a prepared match changes nothing: the id, logo and date it was given are kept. */
  lemma PrepareIdempotent(listing: seq<string>, m: Match)
    ensures Prepare(listing, Prepare(listing, m)) == Prepare(listing, m)
  {
  }

  /** A prepared match always has an id, a logo, and when it has a completion time, that time as its date. */
  lemma PreparedFields(listing: seq<string>, m: Match)
    ensures Truthy(Prepare(listing, m).id)
    ensures Prepare(listing, m).tournamentLogo.Some?
    ensures Truthy(m.timeCompleted) ==> Prepare(listing, m).date == m.timeCompleted
  {
  }

  // ---------------------------------------------------------------- status and date filters

  predicate IsPast(m: Match) { Truthy(m.timeCompleted) }
  predicate IsLive(m: Match) { m.timeUntilMatch == Some("LIVE") }
  predicate IsUpcoming(m: Match) {
    Truthy(m.timeUntilMatch) && m.timeUntilMatch.value != "LIVE" && !Truthy(m.timeCompleted)
  }

  /** The three `status` filters; any other value, or none, keeps every match. */
  function StatusFilter(ms: seq<Match>, status: Option<string>): seq<Match> {
    if status == Some("past") then Filter(ms, IsPast)
    else if status == Some("live") then Filter(ms, IsLive)
    else if status == Some("upcoming") then Filter(ms, IsUpcoming)
    else ms
  }

  /**
   * The `date` filter. `inDay` stands for the comparison of the parsed
   * completion time with the requested day, which depends on the clock.
   */
  function DateFilter(ms: seq<Match>, date: Option<string>, inDay: string -> bool): seq<Match> {
    if Truthy(date) then Filter(ms, (m: Match) => Truthy(m.timeCompleted) && inDay(m.timeCompleted.value))
    else ms
  }

  /** The `segments` of the three upstream answers: live scores, upcoming matches and results. */
  datatype Segments = Segments(live: seq<Match>, upcoming: seq<Match>, past: seq<Match>)

  /** The error body of the 500 answer. */
  const MatchesError: string := "Maçlar yüklenirken bir hata oluştu."

  /**
   * The whole answer. `segments` is `None` when an upstream request rejects
   * or its body has no segments; `listing` is `None` when the events folder
   * cannot be read. Either failure is caught and answers 500; otherwise the
   * body is the three segments, prepared, then filtered.
   */
  function Matches(segments: Option<Segments>, listing: Option<seq<string>>,
                   status: Option<string>, date: Option<string>, inDay: string -> bool): (r: Result<seq<Match>, string>)
    ensures r.Failure? <==> segments.None? || listing.None?
    ensures r.Failure? ==> r.error == MatchesError
  {
    if segments.None? || listing.None? then Failure(MatchesError)
    else
      var sg := segments.value;
      Success(DateFilter(StatusFilter(PrepareAll(listing.value, sg.live + sg.upcoming + sg.past), status), date, inDay))
  }

  /** What each `status` keeps: exactly the matches of its kind, in their original order. */
  lemma StatusFilterKeeps(ms: seq<Match>, status: Option<string>)
    ensures status == Some("past") ==> forall m :: m in StatusFilter(ms, status) <==> m in ms && IsPast(m)
    ensures status == Some("live") ==> forall m :: m in StatusFilter(ms, status) <==> m in ms && IsLive(m)
    ensures status == Some("upcoming") ==>
      forall m :: m in StatusFilter(ms, status) <==> m in ms && IsUpcoming(m)
    ensures status !in {Some("past"), Some("live"), Some("upcoming")} ==> StatusFilter(ms, status) == ms
  {
    FilterMembers(ms, IsPast);
    FilterMembers(ms, IsLive);
    FilterMembers(ms, IsUpcoming);
  }

  /** An upcoming match is never one the 'past' or 'live' filters keep. */
  lemma UpcomingIsNeitherPastNorLive(ms: seq<Match>)
    ensures forall m :: !(m in Filter(ms, IsUpcoming) && m in Filter(ms, IsPast))
    ensures forall m :: !(m in Filter(ms, IsUpcoming) && m in Filter(ms, IsLive))
  {
    FilterDisjoint(ms, IsUpcoming, IsPast);
    FilterDisjoint(ms, IsUpcoming, IsLive);
  }

  /** Any `date` filter drops every match that has no completion time. */
  lemma DateFilterNeedsCompletion(ms: seq<Match>, date: Option<string>, inDay: string -> bool)
    ensures Truthy(date) ==> forall i :: 0 <= i < |DateFilter(ms, date, inDay)| ==>
      Truthy(DateFilter(ms, date, inDay)[i].timeCompleted)
    ensures !Truthy(date) ==> DateFilter(ms, date, inDay) == ms
  {
  }

  /** Filtering is done on the raw fields: the 'past' response is the prepared past matches of every segment. */
  lemma {:induction false} PastResponse(listing: seq<string>, ms: seq<Match>)
    ensures StatusFilter(PrepareAll(listing, ms), Some("past")) == PrepareAll(listing, Filter(ms, IsPast))
  {
    if ms != [] {
      PastResponse(listing, ms[1..]);
      var p := PrepareAll(listing, ms);
      assert p[1..] == PrepareAll(listing, ms[1..]);
      assert p == [Prepare(listing, ms[0])] + p[1..];
      if IsPast(ms[0]) {
        assert Filter(ms, IsPast) == [ms[0]] + Filter(ms[1..], IsPast);
      } else {
        assert Filter(ms, IsPast) == [] + Filter(ms[1..], IsPast) == Filter(ms[1..], IsPast);
      }
    }
  }

  /** With `status=past` and no date, the answer is the prepared completed matches of all three segments, in order. */
  lemma MatchesPast(sg: Segments, listing: seq<string>, inDay: string -> bool)
    ensures Matches(Some(sg), Some(listing), Some("past"), None, inDay)
      == Success(PrepareAll(listing, Filter(sg.live + sg.upcoming + sg.past, IsPast)))
  {
    PastResponse(listing, sg.live + sg.upcoming + sg.past);
  }

  /**
   * Every match of a successful answer is a prepared upstream match of the
   * status asked for, and with a date it has a completion time.
   */
  lemma MatchesKeep(sg: Segments, listing: seq<string>, status: Option<string>, date: Option<string>,
                    inDay: string -> bool)
    ensures var r := Matches(Some(sg), Some(listing), status, date, inDay);
      r.Success? && forall m :: m in r.value ==>
        (exists u :: u in sg.live + sg.upcoming + sg.past && m == Prepare(listing, u))
        && (status == Some("past") ==> IsPast(m))
        && (status == Some("live") ==> IsLive(m))
        && (status == Some("upcoming") ==> IsUpcoming(m))
        && (Truthy(date) ==> Truthy(m.timeCompleted))
  {
    var all := sg.live + sg.upcoming + sg.past;
    var prepared := PrepareAll(listing, all);
    var kept := StatusFilter(prepared, status);
    var r := Matches(Some(sg), Some(listing), status, date, inDay);
    assert r.value == DateFilter(kept, date, inDay);
    StatusFilterKeeps(prepared, status);
    DateFilterNeedsCompletion(kept, date, inDay);
    DateFilterWithin(kept, date, inDay);
    forall m | m in r.value
      ensures exists u :: u in all && m == Prepare(listing, u)
    {
      assert m in prepared;
      var i :| 0 <= i < |prepared| && prepared[i] == m;
      assert all[i] in all;
    }
  }

  /** The date filter only drops matches. */
  lemma DateFilterWithin(ms: seq<Match>, date: Option<string>, inDay: string -> bool)
    ensures forall m :: m in DateFilter(ms, date, inDay) ==> m in ms
  {
    if Truthy(date) {
      FilterMembers(ms, (m: Match) => Truthy(m.timeCompleted) && inDay(m.timeCompleted.value));
    }
  }
}
