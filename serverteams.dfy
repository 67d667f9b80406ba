/**
 * The `/api/teams` handler of backend/server.js: the PandaScore paging loop,
 * the conversion of raw teams, the five-minute cache, the game and region
 * filters, and the page slice returned to the client.
 */
module ServerTeams {
  import opened Wrappers
  import opened Seqs

  /** A raw PandaScore team; a missing or null field is `None`. */
  datatype RawTeam = RawTeam(
    id: int,
    name: string,
    imageUrl: Option<string>,
    videogame: Option<string>,
    location: Option<string>,
    rating: Option<int>)

  /** `team.rating || '-'`: a non-zero rating, or the dash. */
  datatype Ranking = Rated(value: int) | Dash

  datatype Team = Team(id: int, name: string, logo: Option<string>, game: string, region: string, ranking: Ranking)

  /** The `map` that builds the cached teams, with the defaults 'Valorant', '-' and '-'. */
  function ToTeam(t: RawTeam): (r: Team)
    ensures r.id == t.id && r.name == t.name && r.logo == t.imageUrl
    ensures r.game == (if Truthy(t.videogame) then t.videogame.value else "Valorant")
    ensures r.region == (if Truthy(t.location) then t.location.value else "-")
    ensures r.ranking == (if t.rating.Some? && t.rating.value != 0 then Rated(t.rating.value) else Dash)
  {
    Team(t.id, t.name, t.imageUrl,
         OrElse(t.videogame, Some("Valorant")).value,
         OrElse(t.location, Some("-")).value,
         if t.rating.Some? && t.rating.value != 0 then Rated(t.rating.value) else Dash)
  }

  function ToTeams(raw: seq<RawTeam>): (r: seq<Team>)
    ensures |r| == |raw|
    ensures forall i :: 0 <= i < |raw| ==> r[i] == ToTeam(raw[i])
  {
    if raw == [] then [] else [ToTeam(raw[0])] + ToTeams(raw[1..])
  }

  // ---------------------------------------------------------------- fetching every page

  /** Upstream page size. */
  const PerFetch: nat := 100

  /**
   * One upstream request of the paging loop: the `fetch` or `response.json()`
   * threw, or the body parsed, as `Some` JSON array or as anything else (`None`).
   */
  datatype Reply = Thrown | Parsed(body: Option<seq<RawTeam>>)

  /**
   * The reply for upstream page `n` (1-based). Pages past the end of `pages`
   * answer with something that is not an array.
   */
  function PageAt(pages: seq<Reply>, n: int): Reply {
    if 1 <= n <= |pages| then pages[n - 1] else Parsed(None)
  }

  /** `teams` in front of a completed fetch; a failed fetch stays failed. */
  function Prepend(teams: seq<RawTeam>, rest: Option<seq<RawTeam>>): Option<seq<RawTeam>> {
    if rest.Some? then Some(teams + rest.value) else None
  }

  lemma PrependNil(rest: Option<seq<RawTeam>>)
    ensures Prepend([], rest) == rest
  {
    if rest.Some? {
      assert [] + rest.value == rest.value;
    }
  }

  lemma PrependPrepend(a: seq<RawTeam>, b: seq<RawTeam>, rest: Option<seq<RawTeam>>)
    ensures Prepend(a, Prepend(b, rest)) == Prepend(a + b, rest)
  {
    if rest.Some? {
      assert a + (b + rest.value) == (a + b) + rest.value;
    }
  }

  /**
   * What the `while (hasMore)` loop collects from page `n` on: `None` when a
   * request throws before the loop ends, which sends the handler to its catch.
   */
  function FetchFrom(pages: seq<Reply>, n: nat): Option<seq<RawTeam>>
    decreases |pages| + 1 - n
  {
    match PageAt(pages, n)
    case Thrown => None
    case Parsed(d) =>
      if d.Some? && |d.value| > 0 then
        if |d.value| < PerFetch then Some(d.value) else Prepend(d.value, FetchFrom(pages, n + 1))
      else Some([])
  }

  /** Pages `n` to `m - 1` are all full arrays. */
  predicate FullPages(pages: seq<Reply>, n: nat, m: nat) {
    forall p :: n <= p < m ==>
      PageAt(pages, p).Parsed? && PageAt(pages, p).body.Some? && |PageAt(pages, p).body.value| == PerFetch
  }

  /** The concatenation of the bodies of pages `n` to `m - 1`. */
  function Bodies(pages: seq<Reply>, n: nat, m: nat): seq<RawTeam>
    requires FullPages(pages, n, m)
    decreases m - n
  {
    if m <= n then [] else Bodies(pages, n, m - 1) + PageAt(pages, m - 1).body.value
  }

  /** A run of full pages is taken whole, and fetching then resumes after it. */
  lemma {:induction false} FetchThroughFullPages(pages: seq<Reply>, n: nat, m: nat)
    requires n <= m && FullPages(pages, n, m)
    ensures FetchFrom(pages, n) == Prepend(Bodies(pages, n, m), FetchFrom(pages, m))
    decreases m - n
  {
    if n < m {
      FetchThroughFullPages(pages, n + 1, m);
      assert FetchFrom(pages, n) == Prepend(PageAt(pages, n).body.value, FetchFrom(pages, n + 1));
      BodiesSplit(pages, n, m);
      PrependPrepend(PageAt(pages, n).body.value, Bodies(pages, n + 1, m), FetchFrom(pages, m));
    } else {
      PrependNil(FetchFrom(pages, m));
    }
  }

  lemma {:induction false} BodiesSplit(pages: seq<Reply>, n: nat, m: nat)
    requires n < m && FullPages(pages, n, m)
    ensures Bodies(pages, n, m) == PageAt(pages, n).body.value + Bodies(pages, n + 1, m)
    decreases m - n
  {
    if n + 1 < m {
      BodiesSplit(pages, n, m - 1);
    }
  }

  /** A request that throws after a run of full pages fails the whole fetch. */
  lemma ThrowAfterFullPagesFails(pages: seq<Reply>, m: nat)
    requires 1 <= m && FullPages(pages, 1, m) && PageAt(pages, m) == Thrown
    ensures FetchFrom(pages, 1) == None
  {
    FetchThroughFullPages(pages, 1, m);
  }

  /** Every collected team comes from some upstream page that parsed as an array. */
  lemma {:induction false} FetchedTeamsComeFromPages(pages: seq<Reply>, n: nat)
    ensures FetchFrom(pages, n).Some? ==> forall t :: t in FetchFrom(pages, n).value ==>
      exists p :: n <= p <= |pages| && PageAt(pages, p).Parsed? && PageAt(pages, p).body.Some?
        && t in PageAt(pages, p).body.value
    decreases |pages| + 1 - n
  {
    var d := PageAt(pages, n);
    if d.Parsed? && d.body.Some? && |d.body.value| >= PerFetch {
      FetchedTeamsComeFromPages(pages, n + 1);
    }
  }

  /**
   * The fetch loop: page after page until a page is empty, short, or not an
   * array; a request that throws ends it with `None`.
   */
  method FetchAllTeams(pages: seq<Reply>) returns (r: Option<seq<RawTeam>>)
    ensures r == FetchFrom(pages, 1)
  {
    var allTeams := [];
    var currentPage: nat := 1;
    var hasMore := true;
    PrependNil(FetchFrom(pages, 1));
    while hasMore
      invariant hasMore ==> Prepend(allTeams, FetchFrom(pages, currentPage)) == FetchFrom(pages, 1)
      invariant !hasMore ==> Some(allTeams) == FetchFrom(pages, 1)
      invariant hasMore ==> 1 <= currentPage <= |pages| + 1
      decreases |pages| + 1 - currentPage, hasMore
    {
      var reply := PageAt(pages, currentPage);
      if reply.Thrown? {
        return None;
      }
      var data := reply.body;
      if data.Some? && |data.value| > 0 {
        assert currentPage <= |pages|;
        if |data.value| < PerFetch {
          hasMore := false;
        } else {
          assert FetchFrom(pages, currentPage) == Prepend(data.value, FetchFrom(pages, currentPage + 1));
          PrependPrepend(allTeams, data.value, FetchFrom(pages, currentPage + 1));
        }
        allTeams := allTeams + data.value;
        currentPage := currentPage + 1;
      } else {
        assert allTeams + [] == allTeams;
        hasMore := false;
      }
    }
    r := Some(allTeams);
  }

  // ---------------------------------------------------------------- the response

  /** The query string after defaults: `page = 1`, `per_page = 500`, numeric values only. */
  datatype TeamsQuery = TeamsQuery(page: int, perPage: int, game: Option<string>, region: Option<string>)

  function QueryOf(page: Option<int>, perPage: Option<int>, game: Option<string>, region: Option<string>): TeamsQuery {
    TeamsQuery(page.GetOr(1), perPage.GetOr(500), game, region)
  }

  /** A filter value applies when it is given and is not 'all'. */
  predicate Selects(v: Option<string>) { Truthy(v) && v.value != "all" }

  predicate Admits(q: TeamsQuery, t: Team) {
    (!Selects(q.game) || t.game == q.game.value) && (!Selects(q.region) || t.region == q.region.value)
  }

  /** `team => team.game === game`. */
  function ByGame(q: TeamsQuery): Team -> bool {
    (t: Team) => q.game.Some? && t.game == q.game.value
  }

  /** `team => team.region === region`. */
  function ByRegion(q: TeamsQuery): Team -> bool {
    (t: Team) => q.region.Some? && t.region == q.region.value
  }

  /** The query as one predicate. */
  function AdmittedBy(q: TeamsQuery): Team -> bool {
    (t: Team) => Admits(q, t)
  }

  function FilterTeams(teams: seq<Team>, q: TeamsQuery): seq<Team> {
    var byGame := if Selects(q.game) then Filter(teams, ByGame(q)) else teams;
    if Selects(q.region) then Filter(byGame, ByRegion(q)) else byGame
  }

  /**
   * The JSON body. `totalPages` is `None` where `Math.ceil` gives Infinity or NaN
   * (a zero `per_page`), which JSON prints as null.
   */
  datatype TeamsResponse = TeamsResponse(teams: seq<Team>, total: nat, page: int, perPage: int, totalPages: Option<int>)

  /** The response both branches of the handler build from the cached list. */
  function Respond(cache: seq<Team>, q: TeamsQuery): TeamsResponse {
    var filtered := FilterTeams(cache, q);
    var start := (q.page - 1) * q.perPage;
    TeamsResponse(JsSlice(filtered, start, start + q.perPage), |filtered|, q.page, q.perPage,
                  if q.perPage == 0 then None else Some(CeilDiv(|filtered|, q.perPage)))
  }

  /** The filters keep exactly the teams the query admits, in cache order. */
  lemma {:induction false} FilterTeamsAdmits(teams: seq<Team>, q: TeamsQuery)
    ensures FilterTeams(teams, q) == Filter(teams, AdmittedBy(q))
  {
    if Selects(q.game) && Selects(q.region) {
      FilterFilter(teams, ByGame(q), ByRegion(q), AdmittedBy(q));
    } else if Selects(q.game) {
      FilterSame(teams, ByGame(q), AdmittedBy(q));
    } else if Selects(q.region) {
      FilterSame(teams, ByRegion(q), AdmittedBy(q));
    } else {
      FilterAll(teams, AdmittedBy(q));
    }
  }

  /** The total counts exactly the teams of the cache the query admits. */
  lemma RespondTotal(cache: seq<Team>, q: TeamsQuery)
    ensures Respond(cache, q).total == |Filter(cache, AdmittedBy(q))|
    ensures forall t :: t in Filter(cache, AdmittedBy(q)) <==> t in cache && Admits(q, t)
  {
    FilterTeamsAdmits(cache, q);
    FilterMembers(cache, AdmittedBy(q));
  }

  /**
   * For a positive page and page size, the page holds the admitted teams from
   * index `lo` = (page - 1) * per_page on, at most per_page of them.
   */
  lemma RespondPage(cache: seq<Team>, q: TeamsQuery, lo: nat)
    requires q.page >= 1 && q.perPage >= 1 && lo == (q.page - 1) * q.perPage
    ensures var f := Filter(cache, AdmittedBy(q));
      Respond(cache, q).teams ==
        if lo >= |f| then [] else f[lo..if lo + q.perPage <= |f| then lo + q.perPage else |f|]
    ensures |Respond(cache, q).teams| <= q.perPage
  {
    RespondTeams(cache, q, lo);
    JsSliceWindow(FilterTeams(cache, q), lo, q.perPage);
    FilterTeamsAdmits(cache, q);
  }

  lemma RespondTeams(cache: seq<Team>, q: TeamsQuery, lo: int)
    requires lo == (q.page - 1) * q.perPage
    ensures Respond(cache, q).teams == JsSlice(FilterTeams(cache, q), lo, lo + q.perPage)
  {
  }

  /** For a positive page size, total_pages is the least number of pages that holds the total. */
  lemma RespondTotalPages(cache: seq<Team>, q: TeamsQuery)
    requires q.perPage >= 1
    ensures var r := Respond(cache, q);
      r.totalPages.Some? && (r.totalPages.value - 1) * q.perPage < r.total <= r.totalPages.value * q.perPage
  {
  }

  /** Requesting pages 1 to total_pages in turn yields every admitted team exactly once, in order. */
  lemma AllPagesCoverTheList(cache: seq<Team>, q: TeamsQuery)
    requires q.perPage >= 1
    ensures var total := Respond(cache, q).totalPages.value;
      Pages(FilterTeams(cache, q), total, q.perPage) == Filter(cache, AdmittedBy(q))
  {
    FilterTeamsAdmits(cache, q);
    PagesCover(FilterTeams(cache, q), q.perPage);
  }

  /** 'all' or a missing filter lets every team through. */
  lemma NoFilterKeepsEveryTeam(cache: seq<Team>, q: TeamsQuery)
    requires !Selects(q.game) && !Selects(q.region)
    ensures FilterTeams(cache, q) == cache
  {
  }

  // ---------------------------------------------------------------- the cache

  /** Five minutes, in milliseconds. */
  const CacheDuration: int := 5 * 60 * 1000

  /** The module-level `teamsCache` and `lastCacheUpdate` of the server. */
  class TeamsCache {
    var teams: Option<seq<Team>>
    var lastUpdate: Option<int>

    constructor()
      ensures teams == None && lastUpdate == None
    {
      teams := None;
      lastUpdate := None;
    }

    /** The cache is used: a list is cached, the timestamp is truthy, and it is less than five minutes old. */
    predicate Fresh(now: int)
      reads this
    {
      teams.Some? && lastUpdate.Some? && lastUpdate.value != 0 && now - lastUpdate.value < CacheDuration
    }

    /**
     * One GET /api/teams at time `now` against the upstream `pages`. A fresh cache
     * is answered from directly; otherwise every page is fetched, converted and
     * cached first, and the answer is `Respond` of the cached list, so the two
     * branches agree. A request that throws answers 500 and leaves the cache alone.
     */
    method HandleTeams(q: TeamsQuery, now: int, pages: seq<Reply>) returns (r: Result<TeamsResponse, string>)
      modifies this
      ensures old(Fresh(now)) ==>
        teams == old(teams) && lastUpdate == old(lastUpdate) && r == Success(Respond(teams.value, q))
      ensures !old(Fresh(now)) && FetchFrom(pages, 1).Some? ==>
        teams == Some(ToTeams(FetchFrom(pages, 1).value)) && lastUpdate == Some(now)
        && r == Success(Respond(teams.value, q))
      ensures !old(Fresh(now)) && FetchFrom(pages, 1).None? ==>
        teams == old(teams) && lastUpdate == old(lastUpdate) && r == Failure(TeamsError)
    {
      if Fresh(now) {
        r := Success(Respond(teams.value, q));
        return;
      }
      var allTeams := FetchAllTeams(pages);
      if allTeams.None? {
        r := Failure(TeamsError);
        return;
      }
      teams := Some(ToTeams(allTeams.value));
      lastUpdate := Some(now);
      r := Success(Respond(teams.value, q));
    }
  }

  /** The error body of the 500 answer. */
  const TeamsError: string := "Takımlar yüklenirken bir hata oluştu."
}
