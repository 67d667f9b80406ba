/**
 * frontend/src/pages/Matches.tsx: the match list page. Each fetched match
 * gets logo paths, notification settings and a derived status; the tabs
 * filter the list; favourites are toggled by a composite id and pruned of
 * completed matches; importance messages and remaining-time labels are built
 * from the match's text fields.
 */
module MatchesPage {
  import opened Wrappers
  import opened Text
  import opened Seqs
  import opened Normalization
  import LogoRename
  import NodePath
  import ProcessEventLogos
  import CleanTournamentLogos

  // ---------------------------------------------------------------- matches

  /** A JavaScript value in a backend notification settings field, as far as `typeof` tells them apart. */
  datatype JsValue = Boolean(b: bool) | Number(n: int) | Str(s: string)

  /** The `notifications` object a backend match may carry; `None` is a missing field. */
  datatype RawNotifications = RawNotifications(
    enabled: Option<JsValue>, beforeMatch: Option<JsValue>, matchStart: Option<JsValue>,
    matchEnd: Option<JsValue>, scoreUpdate: Option<JsValue>)

  /** The fields of a backend match the page reads; `None` is `undefined` or `null`. */
  datatype Match = Match(
    id: Option<string>, team1: Option<string>, team2: Option<string>,
    tournamentName: Option<string>, matchEvent: Option<string>,
    timeCompleted: Option<string>, timeUntilMatch: Option<string>,
    roundInfo: Option<string>, matchSeries: Option<string>,
    tournamentIconUrl: Option<string>, tournamentIconAlt: Option<string>,
    notifications: Option<RawNotifications>)

  datatype Settings = Settings(enabled: bool, beforeMatch: int, matchStart: bool, matchEnd: bool, scoreUpdate: bool)

  datatype Status = Live | Upcoming | Completed

  /** A match as the page keeps it: the backend fields, the derived status and the settings (lines 422-430). */
  datatype Entry = Entry(m: Match, status: Status, settings: Settings)

  // ---------------------------------------------------------------- logo paths

  /** `match.teamN ? '/logos/' + normalize(match.teamN) + ext : null` (lines 385-388). */
  function TeamLogo(team: Option<string>, ext: string): Option<string> {
    if Truthy(team) then Some("/logos/" + Normalize(team.value) + ext) else None
  }

  /** A team logo path exists exactly for a present, non-empty team name, and names a lower-case alphanumeric file. */
  lemma TeamLogoShape(team: Option<string>, ext: string)
    ensures TeamLogo(team, ext).Some? <==> Truthy(team)
    ensures Truthy(team) ==> var n := Normalize(team.value);
      TeamLogo(team, ext) == Some("/logos/" + n + ext) && AllLowerAlnum(n)
  {
  }

  /** `match.tournament_name || match.match_event || ''`. */
  function TournamentName(m: Match): (r: string)
    ensures Truthy(m.tournamentName) ==> r == m.tournamentName.value
    ensures !Truthy(m.tournamentName) && Truthy(m.matchEvent) ==> r == m.matchEvent.value
    ensures !Truthy(m.tournamentName) && !Truthy(m.matchEvent) ==> r == ""
  {
    if Truthy(m.tournamentName) then m.tournamentName.value
    else if Truthy(m.matchEvent) then m.matchEvent.value
    else ""
  }

  /** `getTournamentLogo` (lines 239-244). */
  function TournamentLogo(m: Match): string {
    "/events/processed/" + Normalize(TournamentName(m)) + ".png"
  }

  /** The processed-logo path frontend/src/pages/Events.tsx uses for an event name (line 114). */
  function EventCardLogo(name: string): string {
    "/events/processed/" + Normalize(name) + ".png"
  }

  const DefaultTournamentLogo: string := "/logos/default-tournament-logo.svg"

  /** `tournamentLogoName` (lines 390-392). */
  function TournamentLogoName(m: Match): string {
    if Truthy(m.tournamentName) then "/events/" + Normalize(m.tournamentName.value) + ".png"
    else "/events/default-tournament-logo.png"
  }

  /** `tournamentIcon` (lines 394-397). */
  function TournamentIcon(m: Match): string {
    OrElse(OrElse(OrElse(m.tournamentIconUrl, m.tournamentIconAlt), Some(TournamentLogoName(m))), Some(DefaultTournamentLogo)).value
  }

  /**
   * The tournament logo path names a file of lower-case letters and digits
   * followed by ".png", and the event cards of the events page ask for the
   * same path for the same name.
   */
  lemma TournamentLogoShape(m: Match)
    ensures var path := TournamentLogo(m); var n := Normalize(TournamentName(m));
      path == "/events/processed/" + n + ".png" && AllLowerAlnum(n)
    ensures TournamentLogo(m) == EventCardLogo(TournamentName(m))
    ensures Truthy(m.tournamentName) ==> TournamentLogo(m) == EventCardLogo(m.tournamentName.value)
  {
  }

  /**
   * The icon falls back to the local events path, which is never empty, so
   * the default tournament logo is never chosen.
   */
  lemma TournamentIconNeverDefault(m: Match)
    ensures Truthy(m.tournamentIconUrl) ==> TournamentIcon(m) == m.tournamentIconUrl.value
    ensures !Truthy(m.tournamentIconUrl) && Truthy(m.tournamentIconAlt) ==> TournamentIcon(m) == m.tournamentIconAlt.value
    ensures !Truthy(m.tournamentIconUrl) && !Truthy(m.tournamentIconAlt) ==> TournamentIcon(m) == TournamentLogoName(m)
    ensures !Truthy(m.tournamentIconUrl) && !Truthy(m.tournamentIconAlt) ==> TournamentIcon(m) != DefaultTournamentLogo
  {
    var name := TournamentLogoName(m);
    assert name[0] == '/' && name[1] == 'e';
    assert DefaultTournamentLogo[1] == 'l';
  }

  /**
   * The team logo the page asks for is the name frontend/scripts/normalize-logos.js
   * gives a logo file called after the team: for a team name with no '.' or
   * '/', "<team>.png" is renamed to exactly the file the path names.
   */
  lemma TeamLogoIsRenamedFile(team: string, e: string)
    requires team != [] && forall i :: 0 <= i < |team| ==> team[i] != '.' && team[i] != '/'
    requires e == ".png" || e == ".svg"
    ensures LogoRename.Considered(team + e)
    ensures TeamLogo(Some(team), e) == Some("/logos/" + LogoRename.Target(team + e))
  {
    NodePathExt(team, e);
    AppendAssoc("/logos/", Normalize(team), e);
  }

  lemma NodePathExt(team: string, e: string)
    requires team != [] && forall i :: 0 <= i < |team| ==> team[i] != '.' && team[i] != '/'
    requires |e| == 4 && e[0] == '.' && forall i :: 1 <= i < |e| ==> e[i] != '.' && e[i] != '/'
    requires e == ".png" || e == ".svg"
    ensures LogoRename.Ext(team + e) == e && LogoRename.Target(team + e) == Normalize(team) + e
  {
    LogoRename.LowerOfExtension(e);
    NodePath.ExtnameOfStemAndExt(team, e);
    NodePath.BasenameOfAppend(team, e);
  }

  /**
   * backend/scripts/processEventLogos.js writes its output under a slug with
   * no '.', while the page asks for "<name>.png": no file that script writes
   * is ever found by the page.
   */
  lemma ProcessedSlugNeverFound(m: Match, file: string)
    ensures "/events/processed/" + ProcessEventLogos.EventSlug(file) != TournamentLogo(m)
  {
    var slug := ProcessEventLogos.EventSlug(file);
    var n := Normalize(TournamentName(m));
    CleanTournamentLogos.SlugBodyHasNoDot(slug);
    var found, wanted := "/events/processed/" + slug, TournamentLogo(m);
    if |slug| == |n| + 4 {
      assert found[18 + |n|] == slug[|n|] != '.';
      assert wanted[18 + |n|] == '.';
    } else {
      assert |found| != |wanted|;
    }
  }

  /**
   * scripts/clean_tournament_logos.py keeps '_' between words; the page's
   * names have none, so a cleaned name with a separator is never found.
   */
  lemma CleanedNameWithSeparatorNeverFound(m: Match, file: string)
    requires '_' in CleanTournamentLogos.CleanFilename(file)
    ensures "/events/processed/" + CleanTournamentLogos.CleanFilename(file) != TournamentLogo(m)
  {
    SeparatorNeverFound(m, CleanTournamentLogos.CleanFilename(file));
  }

  lemma SeparatorNeverFound(m: Match, c: string)
    requires '_' in c
    ensures "/events/processed/" + c != TournamentLogo(m)
  {
    var n := Normalize(TournamentName(m));
    var k :| 0 <= k < |c| && c[k] == '_';
    var found, wanted := "/events/processed/" + c, TournamentLogo(m);
    if |c| == |n| + 4 {
      assert found[18 + k] == '_';
      if k < |n| {
        assert wanted[18 + k] == n[k] && IsLowerAlnum(n[k]);
      } else {
        assert wanted[18 + k] == ".png"[k - |n|];
      }
    } else {
      assert |found| != |wanted|;
    }
  }

  // ---------------------------------------------------------------- keys

  /** `${match.id}_${match.team1}_${match.team2}_${match.tournament_name || match.match_event}` (lines 399, 591). */
  function UniqueKey(m: Match): string {
    Show(m.id) + "_" + Show(m.team1) + "_" + Show(m.team2) + "_" + Show(OrElse(m.tournamentName, m.matchEvent))
  }

  /** `${match.team1}-${match.team2}-${match.match_event || match.tournament_name}` (lines 559, 635). */
  function FavoriteId(m: Match): string {
    Show(m.team1) + "-" + Show(m.team2) + "-" + Show(OrElse(m.matchEvent, m.tournamentName))
  }

  // ---------------------------------------------------------------- settings

  const DefaultStored: Settings := Settings(false, 15, true, true, true)

  /** A boolean field: kept when `typeof` is 'boolean', else `true`. */
  function BoolOr(v: Option<JsValue>): (r: bool)
    ensures v.Some? && v.value.Boolean? ==> r == v.value.b
    ensures !(v.Some? && v.value.Boolean?) ==> r
  {
    if v.Some? && v.value.Boolean? then v.value.b else true
  }

  /** Lines 402-408: the backend settings with their types checked. */
  function FromBackend(n: RawNotifications): Settings {
    Settings(
      n.enabled == Some(Boolean(true)),
      if n.beforeMatch.Some? && n.beforeMatch.value.Number? then n.beforeMatch.value.n else 15,
      BoolOr(n.matchStart), BoolOr(n.matchEnd), BoolOr(n.scoreUpdate))
  }

  /**
   * `getNotificationFromStorage(id)` (lines 209-224): the stored object when
   * the item `match_notifications_<id>` is non-empty and parses, else the
   * defaults. `parse` stands for `JSON.parse`, `None` when it throws.
   */
  function FromStorage(storage: map<string, string>, parse: string -> Option<Settings>, id: string): (r: Settings)
    ensures var k := "match_notifications_" + id;
      r == if k in storage && storage[k] != "" && parse(storage[k]).Some? then parse(storage[k]).value else DefaultStored
  {
    var k := "match_notifications_" + id;
    if k in storage && storage[k] != "" then
      match parse(storage[k])
      case Some(s) => s
      case None => DefaultStored
    else DefaultStored
  }

  /** Lines 400-411. */
  function SettingsOf(m: Match, storage: map<string, string>, parse: string -> Option<Settings>): Settings {
    if m.notifications.Some? then FromBackend(m.notifications.value)
    else FromStorage(storage, parse, UniqueKey(m))
  }

  /**
   * Backend settings are enabled only when `enabled` is exactly `true`; a
   * missing or non-number `beforeMatch` is 15 and a missing or non-boolean
   * flag is `true`. Without backend settings the stored object is used, and
   * with nothing stored: disabled, 15 minutes, every event on.
   */
  lemma SettingsNormalisation(m: Match, storage: map<string, string>, parse: string -> Option<Settings>)
    ensures m.notifications.Some? ==> var n := m.notifications.value; var s := SettingsOf(m, storage, parse);
      (s.enabled <==> n.enabled == Some(Boolean(true)))
      && (n.beforeMatch.Some? && n.beforeMatch.value.Number? ==> s.beforeMatch == n.beforeMatch.value.n)
      && (!(n.beforeMatch.Some? && n.beforeMatch.value.Number?) ==> s.beforeMatch == 15)
      && (n.matchStart.Some? && n.matchStart.value.Boolean? ==> s.matchStart == n.matchStart.value.b)
      && (n.matchStart.None? ==> s.matchStart) && (n.matchEnd.None? ==> s.matchEnd) && (n.scoreUpdate.None? ==> s.scoreUpdate)
    ensures m.notifications.None? ==> SettingsOf(m, storage, parse) == FromStorage(storage, parse, UniqueKey(m))
    ensures m.notifications.None? && "match_notifications_" + UniqueKey(m) !in storage ==>
      SettingsOf(m, storage, parse) == Settings(false, 15, true, true, true)
  {
  }

  // ---------------------------------------------------------------- status and tabs

  /** Lines 413-420. */
  function StatusOf(m: Match): (r: Status)
    ensures r == Completed <==> Truthy(m.timeCompleted)
    ensures r == Live <==> !Truthy(m.timeCompleted) && m.timeUntilMatch == Some("LIVE")
    ensures r == Upcoming <==> !Truthy(m.timeCompleted) && m.timeUntilMatch != Some("LIVE")
  {
    if Truthy(m.timeCompleted) then Completed
    else if m.timeUntilMatch == Some("LIVE") then Live
    else Upcoming
  }

  /** The entry the loader builds for one backend match (lines 385-430). */
  function EntryOf(m: Match, storage: map<string, string>, parse: string -> Option<Settings>): Entry {
    Entry(m, StatusOf(m), SettingsOf(m, storage, parse))
  }

  /** An entry whose status is the one its fields give, as every loaded entry's is. */
  predicate Derived(e: Entry) { e.status == StatusOf(e.m) }

  /** A completed match with "LIVE" still in `time_until_match` is completed: `time_completed` wins. */
  lemma CompletedWins(m: Match)
    requires Truthy(m.timeCompleted) && m.timeUntilMatch == Some("LIVE")
    ensures StatusOf(m) == Completed
  {
  }

  /** The test of one tab (lines 524-536). */
  predicate Shows(tab: string, e: Entry) {
    if tab == "live" then e.m.timeUntilMatch == Some("LIVE")
    else if tab == "upcoming" then !Truthy(e.m.timeCompleted) && e.m.timeUntilMatch != Some("LIVE")
    else if tab == "past" then e.status == Completed
    else if tab == "all" then e.status != Completed
    else true
  }

  function ShowsTab(tab: string): Entry -> bool {
    e => Shows(tab, e)
  }

  /** `filteredMatches` (lines 523-537). */
  function FilteredMatches(es: seq<Entry>, tab: string): (r: seq<Entry>)
    ensures forall e :: e in r <==> e in es && Shows(tab, e)
  {
    FilterMembers(es, ShowsTab(tab));
    Filter(es, ShowsTab(tab))
  }

  /** Every tab keeps the order of the list: filtering a concatenation concatenates the filtered parts. */
  lemma FilteredMatchesKeepOrder(a: seq<Entry>, b: seq<Entry>, tab: string)
    ensures FilteredMatches(a + b, tab) == FilteredMatches(a, tab) + FilteredMatches(b, tab)
  {
    FilterAppend(a, b, ShowsTab(tab));
  }

  /** 'all' and 'past' split the list between them: every entry is in exactly one, as often as in the list. */
  lemma AllAndPastPartition(es: seq<Entry>)
    ensures multiset(FilteredMatches(es, "all")) + multiset(FilteredMatches(es, "past")) == multiset(es)
    ensures forall e :: e in FilteredMatches(es, "past") <==> e in es && e.status == Completed
    ensures forall e :: !(e in FilteredMatches(es, "all") && e in FilteredMatches(es, "past"))
  {
    FilterComplement(es, ShowsTab("all"), ShowsTab("past"));
  }

  /** No entry is both live and upcoming. */
  lemma LiveUpcomingDisjoint(es: seq<Entry>)
    ensures forall e :: !(e in FilteredMatches(es, "live") && e in FilteredMatches(es, "upcoming"))
  {
  }

  /**
   * For loaded entries, the upcoming tab is exactly the entries with status
   * upcoming, all of which the 'all' tab shows.
   */
  lemma UpcomingWithinAll(es: seq<Entry>)
    requires forall i :: 0 <= i < |es| ==> Derived(es[i])
    ensures forall e :: e in FilteredMatches(es, "upcoming") <==> e in es && e.status == Upcoming
    ensures forall e :: e in FilteredMatches(es, "upcoming") ==> e in FilteredMatches(es, "all")
  {
  }

  /** An unknown tab shows every entry, in order. */
  lemma OtherTabShowsAll(es: seq<Entry>, tab: string)
    requires tab !in {"live", "upcoming", "past", "all"}
    ensures FilteredMatches(es, tab) == es
  {
    FilterAll(es, ShowsTab(tab));
  }

  // ---------------------------------------------------------------- favourites

  /** The favourite ids of completed matches (lines 633-635). */
  function CompletedIds(es: seq<Entry>): (r: seq<string>)
    ensures forall x :: x in r <==> exists e :: e in es && Truthy(e.m.timeCompleted) && FavoriteId(e.m) == x
  {
    if es == [] then []
    else
      assert es == [es[0]] + es[1..];
      (if Truthy(es[0].m.timeCompleted) then [FavoriteId(es[0].m)] else []) + CompletedIds(es[1..])
  }

  function NotAmong(ids: seq<string>): string -> bool {
    f => f !in ids
  }

  /** `newFavorites` (line 636). */
  function Pruned(favs: seq<string>, es: seq<Entry>): seq<string> {
    Filter(favs, NotAmong(CompletedIds(es)))
  }

  /**
   * Pruning removes exactly the ids of completed matches and keeps the rest in
   * order; the list's length is unchanged exactly when none was removed.
   */
  lemma PrunedFacts(favs: seq<string>, es: seq<Entry>)
    ensures forall x :: x in Pruned(favs, es) <==> x in favs && x !in CompletedIds(es)
    ensures forall a, b :: Pruned(a + b, es) == Pruned(a, es) + Pruned(b, es)
    ensures |Pruned(favs, es)| == |favs| <==> forall i :: 0 <= i < |favs| ==> favs[i] !in CompletedIds(es)
  {
    FilterMembers(favs, NotAmong(CompletedIds(es)));
    FilterKeepsLength(favs, NotAmong(CompletedIds(es)));
    forall a, b ensures Pruned(a + b, es) == Pruned(a, es) + Pruned(b, es) {
      FilterAppend(a, b, NotAmong(CompletedIds(es)));
    }
  }

  /**
   * The favourites half of the page: the React state, the `favorites` item of
   * localStorage and the number of `favoritesChanged` events sent.
   */
  class FavoritesView {
    var favorites: seq<string>
    var saved: Option<seq<string>>
    var changeEvents: nat

    /**
     * The `useState` initialiser (lines 307-309): the parsed `favorites` item, or the
     * empty list when there is none. It reads localStorage and writes nothing.
     */
    constructor (stored: Option<seq<string>>)
      ensures favorites == (if stored.Some? then stored.value else [])
      ensures saved == stored && changeEvents == 0
    {
      favorites := if stored.Some? then stored.value else [];
      saved := stored;
      changeEvents := 0;
    }

    /** `toggleFavorite` (lines 557-574): the toggled list goes to the state and to localStorage. */
    method ToggleFavorite(m: Match)
      modifies this
      ensures favorites == Toggled(old(favorites), FavoriteId(m))
      ensures saved == Some(favorites) && changeEvents == old(changeEvents) + 1
    {
      var id := FavoriteId(m);
      var favs := favorites;
      if id in favs {
        favs := Filter(favs, Other(id));
      } else {
        favs := favs + [id];
      }
      favorites := favs;
      saved := Some(favs);
      changeEvents := changeEvents + 1;
    }

    /** The pruning effect (lines 630-642): written back only when something was removed. */
    method PruneCompleted(es: seq<Entry>)
      modifies this
      ensures |Pruned(old(favorites), es)| != |old(favorites)| ==>
        favorites == Pruned(old(favorites), es) && saved == Some(favorites) && changeEvents == old(changeEvents) + 1
      ensures |Pruned(old(favorites), es)| == |old(favorites)| ==>
        favorites == old(favorites) && saved == old(saved) && changeEvents == old(changeEvents)
    {
      var completedIds := CompletedIds(es);
      var newFavorites := Filter(favorites, NotAmong(completedIds));
      if |newFavorites| != |favorites| {
        favorites := newFavorites;
        saved := Some(newFavorites);
        changeEvents := changeEvents + 1;
      }
    }
  }

  /** Pruning twice in a row changes nothing the second time. */
  method PruneTwice(v: FavoritesView, es: seq<Entry>)
    modifies v
    ensures v.favorites == Pruned(old(v.favorites), es)
  {
    v.PruneCompleted(es);
    var once := v.favorites;
    PrunedFacts(old(v.favorites), es);
    PrunedAgain(old(v.favorites), es);
    v.PruneCompleted(es);
    assert v.favorites == once;
  }

  lemma PrunedAgain(favs: seq<string>, es: seq<Entry>)
    ensures Pruned(Pruned(favs, es), es) == Pruned(favs, es)
    ensures |Pruned(favs, es)| == |favs| ==> Pruned(favs, es) == favs
  {
    var p := NotAmong(CompletedIds(es));
    FilterAll(Filter(favs, p), p);
    FilterKeepsLength(favs, p);
    if |Filter(favs, p)| == |favs| {
      FilterAll(favs, p);
    }
  }

  // ---------------------------------------------------------------- importance messages

  datatype Category = Final | SemiFinal | Group | Showmatch | Default

  /** The category `getImportanceMessage` picks from the round text (lines 282-290). */
  function CategoryOf(round: string): Category {
    if round == "" then Default
    else
      var r := Lower(round);
      if Contains(r, "final") && !Contains(r, "yarı") then Final
      else if Contains(r, "yarı") then SemiFinal
      else if Contains(r, "grup") then Group
      else if Contains(r, "show") then Showmatch
      else Default
  }

  /**
   * "yarı" wins over "final", "grup" and "show", and a round that has none of
   * the words gets the default pool.
   */
  lemma CategoryPriority(round: string)
    ensures round == "" ==> CategoryOf(round) == Default
    ensures round != "" && Contains(Lower(round), "yarı") ==> CategoryOf(round) == SemiFinal
    ensures round != "" && Contains(Lower(round), "final") && !Contains(Lower(round), "yarı") ==> CategoryOf(round) == Final
    ensures (round != "" && !Contains(Lower(round), "final") && !Contains(Lower(round), "yarı")
      && !Contains(Lower(round), "grup") && !Contains(Lower(round), "show")) ==> CategoryOf(round) == Default
    ensures CategoryOf(round) == Group ==> Contains(Lower(round), "grup") && !Contains(Lower(round), "yarı")
  {
  }

  const FinalMessages: seq<string> := [
    "Büyük final zamanı! {team1} ile {team2} " + "şampiyonluk için karşı karşıya!",
    "Tarihe tanıklık et! {team1} vs {team2} " + "finali başlıyor!",
    "Şampiyon belli oluyor! {team1} ve {team2} " + "kozlarını paylaşıyor!"]
  const SemiFinalMessages: seq<string> := [
    "Yarı final heyecanı! {team1} ile {team2} " + "finale bir adım uzaklıkta.",
    "Finale giden yol: {team1} vs {team2} " + "yarı finalde karşı karşıya!"]
  const GroupMessages: seq<string> := [
    "Grup aşaması başlıyor! {team1} ve {team2} " + "sahnede.",
    "Puanlar için mücadele: {team1} vs {team2} " + "grup maçı!"]
  const ShowmatchMessages: seq<string> := [
    "Gösteri zamanı! {team1} ile {team2} " + "eğlenceli bir maçta karşı karşıya.",
    "Şov başlasın! {team1} vs {team2} " + "gösteri maçı için hazır."]
  const DefaultMessages: seq<string> := [
    "Heyecan başlıyor! {team1} vs {team2} " + "maçı için bildirimler açık!",
    "Hazır mısın? {team1} ile {team2} " + "arasındaki mücadele başlamak üzere!",
    "Maç başlıyor! {team1} ve {team2} " + "karşı karşıya, gözünü ayırma!",
    "Koltuklara kurul! {team1} vs {team2} " + "maçı için bildirimler aktif.",
    "Sahne senin! {team1} ile {team2} " + "maçı başlamak üzere, heyecan dorukta!",
    "Büyük an geldi! {team1} ve {team2} " + "kozlarını paylaşacak!",
    "Takımlar arenada! {team1} vs {team2} " + "maçı için bildirimler açık.",
    "Adrenalin tavan! {team1} ile {team2} " + "maçı başlamak üzere.",
    "Şampiyonluk yolunda {team1} ve {team2} " + "karşı karşıya!",
    "Efsane bir maç seni bekliyor: {team1} vs {team2}" + "!"]

  function Pool(c: Category): seq<string> {
    match c
    case Final => FinalMessages
    case SemiFinal => SemiFinalMessages
    case Group => GroupMessages
    case Showmatch => ShowmatchMessages
    case Default => DefaultMessages
  }

  /** The message template with its first `{team1}`, then its first `{team2}`, replaced (line 279). */
  function Fill(msg: string, team1: string, team2: string): string {
    ReplaceFirst(ReplaceFirst(msg, "{team1}", team1), "{team2}", team2)
  }

  /**
   * `getImportanceMessage(round, team1, team2)`; `pick` is the index
   * `Math.floor(Math.random() * messages.length)` drew.
   */
  function ImportanceMessage(round: string, team1: string, team2: string, pick: nat): string
    requires pick < |Pool(CategoryOf(round))|
  {
    Fill(Pool(CategoryOf(round))[pick], team1, team2)
  }

  /** A placeholder after a prefix without '{' is found right after that prefix. */
  lemma FirstOccurrenceAfter(x: string, pat: string, y: string)
    requires pat != [] && pat[0] == '{' && '{' !in x
    ensures IndexOf(x + pat + y, pat) == |x|
  {
    var s := x + pat + y;
    assert s[|x|..|x| + |pat|] == pat;
    assert OccursAt(s, pat, |x|);
    forall j | 0 <= j < |x| ensures !OccursAt(s, pat, j) {
      assert s[j..j + |pat|][0] == s[j] == x[j];
    }
  }

  /**
   * In a template "a{team1}b{team2}c" with no '{' in a, b or team 1's name,
   * the two names land exactly in the placeholders' places.
   */
  lemma FillTemplate(a: string, b: string, c: string, team1: string, team2: string)
    requires '{' !in a && '{' !in b && '{' !in team1
    ensures Fill(a + "{team1}" + b + "{team2}" + c, team1, team2) == a + team1 + b + team2 + c
  {
    var msg := a + "{team1}" + b + "{team2}" + c;
    FirstOccurrenceAfter(a, "{team1}", b + "{team2}" + c);
    assert msg == a + "{team1}" + (b + "{team2}" + c);
    var once := ReplaceFirst(msg, "{team1}", team1);
    assert once == a + team1 + (b + "{team2}" + c);
    assert once == (a + team1 + b) + "{team2}" + c;
    assert '{' !in a + team1 + b;
    FirstOccurrenceAfter(a + team1 + b, "{team2}", c);
  }

  /** A name that itself holds "{team2}" is rewritten by the second replacement. */
  lemma TeamNameHoldingPlaceholder()
    ensures Fill("{team1} vs {team2}", "{team2}", "B") == "B vs {team2}"
  {
    FillFirstPlaceholder();
  }

  lemma FillFirstPlaceholder()
    ensures ReplaceFirst("{team1} vs {team2}", "{team1}", "{team2}") == "{team2} vs {team2}"
  {
    FirstOccurrenceAfter("", "{team1}", " vs {team2}");
    assert "" + "{team1}" + " vs {team2}" == "{team1} vs {team2}";
  }

  // ---------------------------------------------------------------- remaining time

  /** One code point as the case-insensitive match of `/from now/i` compares it (ASCII letters). */
  function FoldCase(c: char): char {
    if 'A' <= c <= 'Z' then (c as int + 32) as char else c
  }

  function FoldAll(s: string): (r: string)
    ensures |r| == |s| && forall i :: 0 <= i < |s| ==> r[i] == FoldCase(s[i])
  {
    if s == [] then [] else [FoldCase(s[0])] + FoldAll(s[1..])
  }

  /** `replace(/from now/i, '')`: the first occurrence in any letter case is deleted. */
  function RemoveFromNow(s: string): (r: string)
    ensures IndexOf(FoldAll(s), "from now") < 0 ==> r == s
    ensures var i := IndexOf(FoldAll(s), "from now"); i >= 0 ==> |r| == |s| - 8 && r == s[..i] + s[i + 8..]
  {
    var i := IndexOf(FoldAll(s), "from now");
    if i < 0 then s else s[..i] + s[i + 8..]
  }

  /**
   * `replace(/(\d+)u/g, '$1 ' + word)`: every `u` right after a digit
   * becomes " " + word, the digits staying in place. `afterDigit` says
   * whether the code point before `s` was a digit.
   */
  function UnitPass(s: string, u: char, word: string, afterDigit: bool): string {
    if s == [] then []
    else (if s[0] == u && afterDigit then " " + word else [s[0]]) + UnitPass(s[1..], u, word, IsDigit(s[0]))
  }

  /** Some `u` in `s` follows a digit. */
  predicate UnitAfterDigit(s: string, u: char, afterDigit: bool) {
    s != [] && ((s[0] == u && afterDigit) || UnitAfterDigit(s[1..], u, IsDigit(s[0])))
  }

  /** `formatTimeUntilTr` (lines 293-301). */
  function FormatTimeUntilTr(t: string): string {
    if t == "" then ""
    else Trim(UnitPass(UnitPass(UnitPass(RemoveFromNow(t), 'd', "gün", false), 'h', "saat", false), 'm', "dakika", false))
  }

  /** A replacement word that is not a digit and does not hold the unit. */
  predicate PlainWord(word: string, u: char) {
    word != [] && u !in word && forall i :: 0 <= i < |word| ==> !IsDigit(word[i])
  }

  lemma {:induction false} UnitAfterDigitAppend(a: string, b: string, u: char, d: bool)
    requires a != []
    ensures UnitAfterDigit(a + b, u, d) <==> UnitAfterDigit(a, u, d) || UnitAfterDigit(b, u, IsDigit(a[|a| - 1]))
    decreases |a|
  {
    assert (a + b)[0] == a[0];
    if |a| > 1 {
      assert (a + b)[1..] == a[1..] + b;
      UnitAfterDigitAppend(a[1..], b, u, IsDigit(a[0]));
      assert a[1..][|a[1..]| - 1] == a[|a| - 1];
    } else {
      assert (a + b)[1..] == b;
      assert !UnitAfterDigit(a[1..], u, IsDigit(a[0]));
    }
  }

  lemma NoUnitInWord(word: string, u: char, d: bool)
    requires u !in word
    ensures !UnitAfterDigit(word, u, d)
    decreases |word|
  {
    if word != [] {
      assert u !in word[1..] by {
        forall i | 0 <= i < |word[1..]| ensures word[1..][i] != u { assert word[1..][i] == word[i + 1]; }
      }
      NoUnitInWord(word[1..], u, IsDigit(word[0]));
    }
  }

  /** After its pass no unit letter follows a digit any more, when the word is plain and the unit a non-digit. */
  lemma {:induction false} UnitPassRemovesAll(s: string, u: char, word: string, d: bool)
    requires PlainWord(word, u) && !IsDigit(u) && u != ' '
    ensures !UnitAfterDigit(UnitPass(s, u, word, d), u, d)
    decreases |s|
  {
    if s != [] {
      var head := if s[0] == u && d then " " + word else [s[0]];
      var rest := UnitPass(s[1..], u, word, IsDigit(s[0]));
      UnitPassRemovesAll(s[1..], u, word, IsDigit(s[0]));
      UnitAfterDigitAppend(head, rest, u, d);
      if s[0] == u && d {
        assert IsDigit(head[|head| - 1]) == IsDigit(s[0]) by {
          assert head[|head| - 1] == word[|word| - 1];
        }
        assert head == [' '] + word;
        UnitAfterDigitAppend([' '], word, u, d);
        NoUnitInWord(word, u, false);
        assert !UnitAfterDigit([' '], u, d);
      } else {
        assert !UnitAfterDigit(head, u, d) by {
          assert head == [s[0]];
          assert !UnitAfterDigit(head[1..], u, IsDigit(s[0]));
        }
      }
    }
  }

  /** A text with no unit after a digit passes unchanged, so each pass is idempotent. */
  lemma {:induction false} UnitPassIdentity(s: string, u: char, word: string, d: bool)
    requires !UnitAfterDigit(s, u, d)
    ensures UnitPass(s, u, word, d) == s
    decreases |s|
  {
    if s != [] {
      UnitPassIdentity(s[1..], u, word, IsDigit(s[0]));
      assert s == [s[0]] + s[1..];
    }
  }

  lemma UnitPassIdempotent(s: string, u: char, word: string)
    requires PlainWord(word, u) && !IsDigit(u) && u != ' '
    ensures UnitPass(UnitPass(s, u, word, false), u, word, false) == UnitPass(s, u, word, false)
  {
    UnitPassRemovesAll(s, u, word, false);
    UnitPassIdentity(UnitPass(s, u, word, false), u, word, false);
  }

  /** An empty label stays empty; "1d 3h from now" reads "1 gün 3 saat". */
  lemma FormatExamples()
    ensures FormatTimeUntilTr("") == ""
    ensures FormatTimeUntilTr("1d 3h from now") == "1 gün 3 saat"
  {
    var t := "1d 3h from now";
    var a := RemoveFromNow(t);
    var b := UnitPass(a, 'd', "gün", false);
    var c := UnitPass(b, 'h', "saat", false);
    var d := UnitPass(c, 'm', "dakika", false);
    assert FormatTimeUntilTr(t) == Trim(d);
    RemoveFromNowExample();
    assert a == "1d 3h ";
    DayPassExample();
    assert b == "1 gün 3h ";
    HourPassExample();
    assert c == "1 gün 3 saat ";
    NoMinutesExample();
    UnitPassIdentity(c, 'm', "dakika", false);
    assert d == c;
    TrimExample();
  }

  lemma RemoveFromNowExample()
    ensures RemoveFromNow("1d 3h from now") == "1d 3h "
  {
    var x := "1d 3h ";
    forall i | 0 <= i < |x| ensures !IsUpperLetter(x[i]) && x[i] != 'f' {
    }
    RemoveTrailingFromNow(x);
    assert x + "from now" == "1d 3h from now";
  }

  /** A trailing "from now" after text without capitals or an 'f' is what the first replacement deletes. */
  lemma RemoveTrailingFromNow(x: string)
    requires forall i :: 0 <= i < |x| ==> !IsUpperLetter(x[i]) && x[i] != 'f'
    ensures RemoveFromNow(x + "from now") == x
  {
    var pat := "from now";
    var s := x + pat;
    forall i | 0 <= i < |s| ensures !IsUpperLetter(s[i]) {
      if i >= |x| {
        assert s[i] == pat[i - |x|];
      }
    }
    FoldAllIdentity(s);
    FirstOccurrenceAt(x, pat);
    assert s[..|x|] == x && s[|x| + 8..] == [];
  }

  lemma FoldAllIdentity(s: string)
    requires forall i :: 0 <= i < |s| ==> !IsUpperLetter(s[i])
    ensures FoldAll(s) == s
  {
  }

  lemma NoMinutesExample()
    ensures !UnitAfterDigit("1 gün 3 saat ", 'm', false)
  {
    var c := "1 gün 3 saat ";
    forall i | 0 <= i < |c| ensures c[i] != 'm' {
    }
    NoUnitInWord(c, 'm', false);
  }

  lemma DayPassExample()
    ensures UnitPass("1d 3h ", 'd', "gün", false) == "1 gün 3h "
  {
    var a, b := "1d", " 3h ";
    assert UnitPass(a[1..], 'd', "gün", IsDigit(a[0])) == " gün";
    NoUnitInWord(b, 'd', false);
    UnitPassIdentity(b, 'd', "gün", false);
    UnitPassAppend(a, b, 'd', "gün", false);
    assert a + b == "1d 3h ";
    assert " gün" + b == " gün 3h ";
  }

  lemma HourPassExample()
    ensures UnitPass("1 gün 3h ", 'h', "saat", false) == "1 gün 3 saat "
  {
    var a, b := "1 gün", " 3h ";
    NoUnitInWord(a, 'h', false);
    UnitPassIdentity(a, 'h', "saat", false);
    HourPassTail();
    UnitPassAppend(a, b, 'h', "saat", false);
    assert a + b == "1 gün 3h ";
    assert a + " 3 saat " == "1 gün 3 saat ";
  }

  lemma HourPassTail()
    ensures UnitPass(" 3h ", 'h', "saat", false) == " 3 saat "
  {
    var s := " 3h ";
    assert UnitPass(s[3..], 'h', "saat", IsDigit(s[2])) == " ";
    assert UnitPass(s[2..], 'h', "saat", IsDigit(s[1])) == " saat ";
    assert UnitPass(s[1..], 'h', "saat", IsDigit(s[0])) == "3 saat ";
  }

  /** The pass works piecewise, the second piece knowing whether the first ended in a digit. */
  lemma {:induction false} UnitPassAppend(a: string, b: string, u: char, word: string, d: bool)
    requires a != []
    ensures UnitPass(a + b, u, word, d) == UnitPass(a, u, word, d) + UnitPass(b, u, word, IsDigit(a[|a| - 1]))
    decreases |a|
  {
    var ab := a + b;
    assert ab[0] == a[0];
    var head := if a[0] == u && d then " " + word else [a[0]];
    if |a| > 1 {
      assert ab[1..] == a[1..] + b;
      UnitPassAppend(a[1..], b, u, word, IsDigit(a[0]));
      assert a[1..][|a[1..]| - 1] == a[|a| - 1];
      AppendAssoc(head, UnitPass(a[1..], u, word, IsDigit(a[0])), UnitPass(b, u, word, IsDigit(a[|a| - 1])));
    } else {
      assert ab[1..] == b;
      assert UnitPass(a[1..], u, word, IsDigit(a[0])) == [];
      assert UnitPass(a, u, word, d) == head;
    }
  }

  lemma TrimExample()
    ensures Trim("1 gün 3 saat ") == "1 gün 3 saat"
  {
    var c := "1 gün 3 saat ";
    assert TrimStart(c) == c;
    assert c[..|c| - 1] == "1 gün 3 saat";
    assert TrimEnd(c) == "1 gün 3 saat";
  }

  /** `indexOf` finds a pattern right after a prefix in which its first letter does not occur. */
  lemma FirstOccurrenceAt(x: string, pat: string)
    requires pat != [] && pat[0] !in x
    ensures IndexOf(x + pat, pat) == |x|
  {
    var s := x + pat;
    assert s[|x|..|x| + |pat|] == pat;
    assert OccursAt(s, pat, |x|);
    forall j | 0 <= j < |x| ensures !OccursAt(s, pat, j) {
      assert s[j..j + |pat|][0] == s[j] == x[j];
    }
  }
}
