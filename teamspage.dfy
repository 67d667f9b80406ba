/**
 * frontend/src/pages/Teams.tsx: the team list page. It filters the fetched
 * teams by name, game and region, keeps a list of favourite team ids and a
 * notification-settings object per team (both mirrored to localStorage), and
 * turns a region text into a flag code.
 */
module TeamsPage {
  import opened Wrappers
  import opened Text
  import opened Seqs

  /** A team as the API returns it; `region` may be missing. */
  datatype Team = Team(id: int, name: string, logo: string, game: string, region: Option<string>)

  datatype TeamSettings = TeamSettings(enabled: bool, matchStart: bool, scoreChange: bool, matchEnd: bool, beforeMatch: int)

  // ---------------------------------------------------------------- filter

  /** The lowercased region texts the 'TR' choice accepts (lines 92-95). */
  const TrAliases: set<string> := {"tr", "türkiye", "turkey", "türk"}

  /** The region part of the filter (lines 89-97). */
  predicate RegionMatches(region: Option<string>, selected: string) {
    if selected == "all" then true
    else if selected == "TR" then region.Some? && Lower(region.value) in TrAliases
    else region == Some(selected)
  }

  predicate Keeps(t: Team, search: string, game: string, region: string) {
    Contains(Lower(t.name), Lower(search)) && (game == "all" || t.game == game) && RegionMatches(t.region, region)
  }

  function KeepsTeam(search: string, game: string, region: string): Team -> bool {
    t => Keeps(t, search, game, region)
  }

  /** `filteredTeams` (lines 86-98). */
  function FilteredTeams(teams: seq<Team>, search: string, game: string, region: string): seq<Team> {
    Filter(teams, KeepsTeam(search, game, region))
  }

  /**
   * A team is listed exactly when its lowercased name holds the lowercased
   * search text, its game is the chosen one (or 'all' is chosen) and its
   * region passes; the list keeps the fetched order.
   */
  lemma FilteredTeamsFacts(teams: seq<Team>, more: seq<Team>, search: string, game: string, region: string)
    ensures forall t :: t in FilteredTeams(teams, search, game, region) <==>
      t in teams && Contains(Lower(t.name), Lower(search)) && (game == "all" || t.game == game) && RegionMatches(t.region, region)
    ensures FilteredTeams(teams + more, search, game, region) == FilteredTeams(teams, search, game, region) + FilteredTeams(more, search, game, region)
  {
    FilterMembers(teams, KeepsTeam(search, game, region));
    FilterAppend(teams, more, KeepsTeam(search, game, region));
  }

  lemma ContainsEmpty(s: string)
    ensures Contains(s, "")
  {
    assert OccursAt(s, "", 0);
  }

  /** With an empty search and 'all' for game and region, every team is kept. */
  lemma NoFilterKeepsAll(teams: seq<Team>)
    ensures FilteredTeams(teams, "", "all", "all") == teams
  {
    forall t ensures Keeps(t, "", "all", "all") {
      ContainsEmpty(Lower(t.name));
    }
    FilterAll(teams, KeepsTeam("", "all", "all"));
  }

  /**
   * The name test ignores ASCII case on both sides: any two spellings of the
   * search text with the same lowercase keep the same teams.
   */
  lemma SearchIgnoresCase(teams: seq<Team>, s1: string, s2: string, game: string, region: string)
    requires Lower(s1) == Lower(s2)
    ensures FilteredTeams(teams, s1, game, region) == FilteredTeams(teams, s2, game, region)
  {
    FilterSame(teams, KeepsTeam(s1, game, region), KeepsTeam(s2, game, region));
  }

  /**
   * 'TR' accepts "TR", "Turkey" and "türk" in any ASCII case, and a region other
   * than 'TR' or 'all' is compared exactly. "TÜRKİYE" is not accepted: its
   * lowercase carries U+0307 after the i.
   */
  lemma TrRegion(r: string)
    ensures RegionMatches(Some("TR"), "TR") && RegionMatches(Some("Turkey"), "TR") && RegionMatches(Some("türk"), "TR")
    ensures !RegionMatches(Some("TÜRKİYE"), "TR")
    ensures !RegionMatches(None, "TR")
    ensures r != "all" && r != "TR" ==> forall x :: RegionMatches(x, r) <==> x == Some(r)
  {
    LowerTr();
    LowerTurkey();
    LowerTurk();
    TurkiyeNotAlias();
  }

  lemma TurkiyeNotAlias()
    ensures Lower("TÜRKİYE") !in TrAliases
  {
    var l := Lower("TÜRKİYE");
    LowerLength("TÜRKİYE");
    TurkiyeCount();
    assert |l| == 8;
    assert l != "tr" && l != "türkiye" && l != "turkey" && l != "türk";
  }

  lemma LowerTr()
    ensures Lower("TR") == "tr"
  {
    LowerAppend("T", "R");
    assert "TR" == "T" + "R";
    assert Lower("T") == "t" && Lower("R") == "r";
  }

  lemma LowerTurkey()
    ensures Lower("Turkey") == "turkey"
  {
    var s, u := "Turkey", "turkey";
    assert LowerChar('T') == "t";
    assert forall i :: 0 <= i < |s| ==> LowerChar(s[i]) == [u[i]] by {
      assert s[0] == 'T' && s[1] == 'u' && s[2] == 'r' && s[3] == 'k' && s[4] == 'e' && s[5] == 'y';
      assert u[0] == 't' && u[1] == 'u' && u[2] == 'r' && u[3] == 'k' && u[4] == 'e' && u[5] == 'y';
    }
    LowerCharwise(s, u);
  }

  lemma LowerTurk()
    ensures Lower("türk") == "türk"
  {
    assert "türk" == "t" + ("ü" + "rk");
    LowerAppend("t", "ü" + "rk");
    LowerAppend("ü", "rk");
    LowerOfLowerAlnum("rk");
    LowerOfLowerAlnum("t");
    assert Lower("ü") == "ü";
  }

  lemma TurkiyeCount()
    ensures CountChar("TÜRKİYE", 'İ') == 1
  {
    var s := "TÜRKİYE";
    assert s == "TÜRK" + "İ" + "YE";
    CountCharAppend("TÜRK" + "İ", "YE", 'İ');
    CountCharAppend("TÜRK", "İ", 'İ');
    NoCharCount("TÜRK", 'İ');
    NoCharCount("YE", 'İ');
  }

  /** `Lower` grows a text by one for each İ and keeps its length otherwise. */
  lemma {:induction false} LowerLength(s: string)
    ensures |Lower(s)| == |s| + CountChar(s, 'İ')
  {
    if s != [] {
      LowerLength(s[1..]);
    }
  }

  // ---------------------------------------------------------------- notifications

  /** The settings a team without saved settings opens with (lines 115-121). */
  const DefaultSettings: TeamSettings := TeamSettings(true, true, true, true, 15)

  /** `hasActiveNotifications` (lines 138-141). */
  function HasActive(settings: map<int, TeamSettings>, teamId: int): bool {
    teamId in settings && settings[teamId].enabled
    && (settings[teamId].matchStart || settings[teamId].scoreChange || settings[teamId].matchEnd)
  }

  /**
   * A team has active notifications exactly when it has saved settings that
   * are enabled and switch on at least one of the three kinds.
   */
  lemma HasActiveFacts(settings: map<int, TeamSettings>, teamId: int)
    ensures teamId !in settings ==> !HasActive(settings, teamId)
    ensures teamId in settings && !settings[teamId].enabled ==> !HasActive(settings, teamId)
    ensures teamId in settings && settings[teamId].enabled ==>
      (HasActive(settings, teamId) <==> settings[teamId].matchStart || settings[teamId].scoreChange || settings[teamId].matchEnd)
    ensures HasActive(settings[teamId := DefaultSettings], teamId)
  {
  }

  // ---------------------------------------------------------------- flags

  /** The region-to-flag table of `getFlagUrl` (lines 160-172), one row of the source per constant. */
  const FlagRow1: map<string, string> := map["TR" := "tr", "TURKEY" := "tr", "TÜRKİYE" := "tr", "TÜRK" := "tr"]
  const FlagRow2: map<string, string> := map["EU" := "eu", "NA" := "us", "US" := "us", "CN" := "cn", "KR" := "kr"]
  const FlagRow3: map<string, string> := map["JP" := "jp", "BR" := "br", "FR" := "fr", "DE" := "de", "ES" := "es"]
  const FlagRow4: map<string, string> := map["RU" := "ru", "VN" := "vn", "TH" := "th", "PT" := "pt", "SG" := "sg"]
  const FlagRow5: map<string, string> := map["ID" := "id", "PH" := "ph", "PL" := "pl", "IT" := "it", "CA" := "ca"]
  const FlagRow6: map<string, string> := map["GB" := "gb", "UK" := "gb", "SE" := "se", "FI" := "fi", "NO" := "no"]
  const FlagRow7: map<string, string> := map["DK" := "dk", "NL" := "nl", "AR" := "ar", "MX" := "mx", "CL" := "cl"]
  const FlagRow8: map<string, string> := map["CO" := "co", "AU" := "au", "IN" := "in", "TW" := "tw", "MN" := "mn"]
  const FlagRow9: map<string, string> := map["ZA" := "za", "EG" := "eg", "SA" := "sa", "AE" := "ae", "IL" := "il"]
  const FlagRow10: map<string, string> := map["GR" := "gr", "CZ" := "cz", "SK" := "sk", "HU" := "hu", "RO" := "ro"]
  const FlagRow11: map<string, string> := map["BG" := "bg", "HR" := "hr", "RS" := "rs", "UA" := "ua", "BY" := "by"]
  const FlagCodes: map<string, string> :=
    FlagRow1 + FlagRow2 + FlagRow3 + FlagRow4 + FlagRow5 + FlagRow6 + FlagRow7 + FlagRow8 + FlagRow9 + FlagRow10 + FlagRow11

  predicate InNoRow(k: string) {
    InNoRowUpToSix(k) && InNoRowAfterSix(k)
  }

  predicate InNoRowUpToSix(k: string) {
    k !in FlagRow1 && k !in FlagRow2 && k !in FlagRow3 && k !in FlagRow4 && k !in FlagRow5 && k !in FlagRow6
  }

  predicate InNoRowAfterSix(k: string) {
    k !in FlagRow7 && k !in FlagRow8 && k !in FlagRow9 && k !in FlagRow10 && k !in FlagRow11
  }

  /** `getFlagUrl` (lines 157-174): `None` is `null`. */
  function FlagCode(region: Option<string>): Option<string> {
    if !Truthy(region) then None
    else
      var key := Upper(Trim(region.value));
      if key in FlagCodes then Some(FlagCodes[key]) else None
  }

  /** A region given only up to case and surrounding white space gives the same flag. */
  lemma FlagCodeNormalises(a: string, b: string)
    requires a != "" && b != "" && Upper(Trim(a)) == Upper(Trim(b))
    ensures FlagCode(Some(a)) == FlagCode(Some(b))
  {
  }

  /** A missing, empty or blank region gives no flag. */
  lemma NoRegionNoFlag(r: Option<string>)
    requires r.None? || forall i :: 0 <= i < |r.value| ==> IsJsSpace(r.value[i])
    ensures FlagCode(r) == None
  {
    if r.Some? && r.value != [] {
      assert Trim(r.value) == [];
      EmptyRow();
      NoRowNoFlag("");
    }
  }

  /** "uk", with white space around it, gives the British flag. */
  lemma FlagOfUkExample()
    ensures FlagCode(Some(" uk ")) == Some("gb")
  {
    FlagOfUk();
    UkFlag();
    FlagVia(" uk ", "UK");
  }

  /** "gb" gives the British flag too. */
  lemma FlagOfGbExample()
    ensures FlagCode(Some("gb")) == Some("gb")
  {
    FlagOfPlain("gb", "GB");
    GbFlag();
    FlagVia("gb", "GB");
  }

  /** "na" gives the American flag. */
  lemma FlagOfNaExample()
    ensures FlagCode(Some("na")) == Some("us")
  {
    FlagOfPlain("na", "NA");
    NaFlag();
    FlagVia("na", "NA");
  }

  /** A region outside the table gives no flag. */
  lemma FlagOfUnknownExample()
    ensures FlagCode(Some("xx")) == None
  {
    FlagOfPlain("xx", "XX");
    XxRow();
    NoRowNoFlag("XX");
    FlagNone("xx", "XX");
  }

  /**
   * "türkiye" gives none: its uppercase has a dotless I where the table's key
   * has İ, so that key is missing from the table (and `FlagNone` applies).
   */
  lemma TurkiyeHasNoKey()
    ensures Upper(Trim("türkiye")) == "TÜRKIYE" && "TÜRKIYE" !in FlagCodes
  {
    FlagOfTurkiye();
    TurkiyeRow();
    NoRowNoFlag("TÜRKIYE");
  }

  /** One lookup step: the key is the trimmed, uppercased region. */
  lemma FlagVia(r: string, key: string)
    requires r != "" && Upper(Trim(r)) == key
    ensures key in FlagCodes ==> FlagCode(Some(r)) == Some(FlagCodes[key])
    ensures key !in FlagCodes ==> FlagCode(Some(r)) == None
  {
  }

  lemma UkRow() ensures FlagRow6["UK"] == "gb" && InNoRowAfterSix("UK") {}
  lemma GbRow() ensures FlagRow6["GB"] == "gb" && InNoRowAfterSix("GB") {}
  lemma NaRow()
    ensures FlagRow2["NA"] == "us" && InNoRowAfterSix("NA")
    ensures "NA" !in FlagRow3 && "NA" !in FlagRow4 && "NA" !in FlagRow5 && "NA" !in FlagRow6
  {}
  lemma XxRow() ensures InNoRow("XX") { XxEarly(); XxLate(); }
  lemma XxEarly() ensures InNoRowUpToSix("XX") {}
  lemma XxLate() ensures InNoRowAfterSix("XX") {}
  lemma EmptyRow() ensures InNoRow("") { EmptyEarly(); EmptyLate(); }
  lemma EmptyEarly() ensures InNoRowUpToSix("") {}
  lemma EmptyLate() ensures InNoRowAfterSix("") {}
  lemma TurkiyeRow() ensures InNoRow("TÜRKIYE") { TurkiyeEarly(); TurkiyeLate(); }
  lemma TurkiyeEarly() ensures InNoRowUpToSix("TÜRKIYE") {}
  lemma TurkiyeLate() ensures InNoRowAfterSix("TÜRKIYE") {}
  lemma UkFlag() ensures "UK" in FlagCodes && FlagCodes["UK"] == "gb" {
    UkRow();
    UnionRight(FlagRow1 + FlagRow2 + FlagRow3 + FlagRow4 + FlagRow5, FlagRow6, "UK");
    LateRowsKeep(FlagRow1 + FlagRow2 + FlagRow3 + FlagRow4 + FlagRow5 + FlagRow6, "UK");
  }
  lemma GbFlag() ensures "GB" in FlagCodes && FlagCodes["GB"] == "gb" {
    GbRow();
    UnionRight(FlagRow1 + FlagRow2 + FlagRow3 + FlagRow4 + FlagRow5, FlagRow6, "GB");
    LateRowsKeep(FlagRow1 + FlagRow2 + FlagRow3 + FlagRow4 + FlagRow5 + FlagRow6, "GB");
  }
  lemma NaFlag() ensures "NA" in FlagCodes && FlagCodes["NA"] == "us" {
    NaRow();
    UnionRight(FlagRow1, FlagRow2, "NA");
    UnionLeft(FlagRow1 + FlagRow2, FlagRow3, "NA");
    UnionLeft(FlagRow1 + FlagRow2 + FlagRow3, FlagRow4, "NA");
    UnionLeft(FlagRow1 + FlagRow2 + FlagRow3 + FlagRow4, FlagRow5, "NA");
    UnionLeft(FlagRow1 + FlagRow2 + FlagRow3 + FlagRow4 + FlagRow5, FlagRow6, "NA");
    LateRowsKeep(FlagRow1 + FlagRow2 + FlagRow3 + FlagRow4 + FlagRow5 + FlagRow6, "NA");
  }

  /** A key of the first six rows that no later row has keeps its code in the whole table. */
  lemma LateRowsKeep(m: map<string, string>, k: string)
    requires k in m && InNoRowAfterSix(k)
    ensures var all := m + FlagRow7 + FlagRow8 + FlagRow9 + FlagRow10 + FlagRow11;
      k in all && all[k] == m[k]
  {
    UnionLeft(m, FlagRow7, k);
    UnionLeft(m + FlagRow7, FlagRow8, k);
    UnionLeft(m + FlagRow7 + FlagRow8, FlagRow9, k);
    UnionLeft(m + FlagRow7 + FlagRow8 + FlagRow9, FlagRow10, k);
    UnionLeft(m + FlagRow7 + FlagRow8 + FlagRow9 + FlagRow10, FlagRow11, k);
  }

  lemma UnionLeft(a: map<string, string>, b: map<string, string>, k: string)
    requires k in a && k !in b
    ensures k in a + b && (a + b)[k] == a[k]
  {
  }

  lemma UnionRight(a: map<string, string>, b: map<string, string>, k: string)
    requires k in b
    ensures k in a + b && (a + b)[k] == b[k]
  {
  }

  lemma NoRowNoFlag(k: string) requires InNoRow(k) ensures k !in FlagCodes {}

  /** A region whose key is in no row of the table gives no flag. */
  lemma FlagNone(r: string, key: string)
    requires r != "" && Upper(Trim(r)) == key && key !in FlagCodes
    ensures FlagCode(Some(r)) == None
  {
  }

  lemma FlagOfUk()
    ensures Upper(Trim(" uk ")) == "UK"
  {
    TrimOfUk();
    FlagOfPlain("uk", "UK");
  }

  lemma TrimOfUk()
    ensures Trim(" uk ") == "uk"
  {
    var s := "uk";
    assert " uk " == " " + s + " ";
    TrimSpaced(s);
  }

  /** One leading and one trailing blank are trimmed off. */
  lemma TrimSpaced(s: string)
    requires s != [] && !IsJsSpace(s[0]) && !IsJsSpace(s[|s| - 1])
    ensures Trim(" " + s + " ") == s
  {
    var t := " " + s + " ";
    assert t[1..] == s + " ";
    assert TrimStart(t) == s + " ";
    assert (s + " ")[..|s|] == s;
    assert TrimEnd(s + " ") == s;
  }

  lemma FlagOfPlain(s: string, u: string)
    requires |s| == 2 && IsLowerLetter(s[0]) && IsLowerLetter(s[1])
    requires u == [(s[0] as int - 32) as char, (s[1] as int - 32) as char]
    ensures Trim(s) == s && Upper(s) == u
  {
    TrimUnspaced(s);
    var r := Upper(s);
    assert r[0] == u[0] && r[1] == u[1];
  }

  lemma TrimUnspaced(s: string)
    requires s != [] && !IsJsSpace(s[0]) && !IsJsSpace(s[|s| - 1])
    ensures Trim(s) == s
  {
    assert TrimStart(s) == s;
    assert TrimEnd(s) == s;
  }

  lemma FlagOfTurkiye()
    ensures Upper(Trim("türkiye")) == "TÜRKIYE"
  {
    TrimUnspaced("türkiye");
    UpperOfTurkiye();
  }

  lemma UpperOfTurkiye()
    ensures Upper("türkiye") == "TÜRKIYE"
  {
    var s, u := "türkiye", "TÜRKIYE";
    TurkiyeLetters();
    assert forall i :: 0 <= i < |s| ==> UpperChar(s[i]) == u[i] by {
      assert s[0] == 't' && s[1] == 'ü' && s[2] == 'r' && s[3] == 'k' && s[4] == 'i' && s[5] == 'y' && s[6] == 'e';
      assert u[0] == 'T' && u[1] == 'Ü' && u[2] == 'R' && u[3] == 'K' && u[4] == 'I' && u[5] == 'Y' && u[6] == 'E';
    }
    UpperWord(s, u);
  }

  lemma TurkiyeLetters()
    ensures UpperChar('t') == 'T' && UpperChar('ü') == 'Ü' && UpperChar('r') == 'R' && UpperChar('k') == 'K'
    ensures UpperChar('i') == 'I' && UpperChar('y') == 'Y' && UpperChar('e') == 'E'
  {
  }

  /** A text whose characters uppercase one by one to those of `u`. */
  lemma UpperWord(s: string, u: string)
    requires |s| == |u| && forall i :: 0 <= i < |s| ==> UpperChar(s[i]) == u[i]
    ensures Upper(s) == u
  {
  }

  /** One switch or selection of the settings dialog (lines 330-376). */
  datatype SettingsEdit =
    | SetEnabled(on: bool)
    | SetBeforeMatch(minutes: int)
    | SetMatchStart(on: bool)
    | SetMatchEnd(on: bool)
    | SetScoreChange(on: bool)

  /**
   * The `setTempSettings(prev => ({ ...prev, field: value }))` of one control:
   * only its own field changes. The controls other than the "enabled" switch
   * are disabled while notifications are off, so their edits then do nothing.
   */
  function Edited(s: TeamSettings, e: SettingsEdit): (r: TeamSettings)
    ensures e.SetEnabled? ==> r == s.(enabled := e.on)
    ensures !e.SetEnabled? && !s.enabled ==> r == s
    ensures s.enabled && e.SetBeforeMatch? ==> r.beforeMatch == e.minutes
    ensures s.enabled && e.SetMatchStart? ==> r.matchStart == e.on
    ensures s.enabled && e.SetMatchEnd? ==> r.matchEnd == e.on
    ensures s.enabled && e.SetScoreChange? ==> r.scoreChange == e.on
    ensures r.enabled != s.enabled ==> e == SetEnabled(r.enabled)
    ensures r.beforeMatch != s.beforeMatch ==> s.enabled && e == SetBeforeMatch(r.beforeMatch)
    ensures r.matchStart != s.matchStart ==> s.enabled && e == SetMatchStart(r.matchStart)
    ensures r.matchEnd != s.matchEnd ==> s.enabled && e == SetMatchEnd(r.matchEnd)
    ensures r.scoreChange != s.scoreChange ==> s.enabled && e == SetScoreChange(r.scoreChange)
  {
    match e
    case SetEnabled(on) => s.(enabled := on)
    case SetBeforeMatch(m) => if s.enabled then s.(beforeMatch := m) else s
    case SetMatchStart(on) => if s.enabled then s.(matchStart := on) else s
    case SetMatchEnd(on) => if s.enabled then s.(matchEnd := on) else s
    case SetScoreChange(on) => if s.enabled then s.(scoreChange := on) else s
  }

  // ---------------------------------------------------------------- page state

  /**
   * The page's state: the favourite ids and the per-team settings (each with
   * the copy last written to localStorage), the team whose dialog is open and
   * the settings being edited there.
   */
  class TeamsView {
    var favoriteTeams: seq<int>
    var savedFavorites: Option<seq<int>>
    var settings: map<int, TeamSettings>
    var savedSettings: Option<map<int, TeamSettings>>
    var selectedTeam: Option<Team>
    var tempSettings: TeamSettings
    var dialogOpen: bool

    /** The initial state (lines 44-60): what localStorage held, else empty. */
    constructor (storedFavorites: Option<seq<int>>, storedSettings: Option<map<int, TeamSettings>>)
      ensures favoriteTeams == storedFavorites.GetOr([]) && savedFavorites == storedFavorites
      ensures settings == storedSettings.GetOr(map[]) && savedSettings == storedSettings
      ensures selectedTeam == None && tempSettings == DefaultSettings && !dialogOpen
    {
      favoriteTeams := storedFavorites.GetOr([]);
      savedFavorites := storedFavorites;
      settings := storedSettings.GetOr(map[]);
      savedSettings := storedSettings;
      selectedTeam := None;
      tempSettings := DefaultSettings;
      dialogOpen := false;
    }

    /** `toggleFavorite` (lines 100-111): the toggled list goes to the state and to localStorage. */
    method ToggleFavorite(team: Team)
      modifies this
      ensures favoriteTeams == Toggled(old(favoriteTeams), team.id) && savedFavorites == Some(favoriteTeams)
      ensures settings == old(settings) && savedSettings == old(savedSettings)
      ensures selectedTeam == old(selectedTeam) && tempSettings == old(tempSettings) && dialogOpen == old(dialogOpen)
    {
      var updated;
      if team.id in favoriteTeams {
        updated := Filter(favoriteTeams, Other(team.id));
      } else {
        updated := favoriteTeams + [team.id];
      }
      favoriteTeams := updated;
      savedFavorites := Some(updated);
    }

    /** `handleNotificationSettings` (lines 113-123): the dialog opens on the team's saved settings or the defaults. */
    method OpenSettings(team: Team)
      modifies this
      ensures selectedTeam == Some(team) && dialogOpen
      ensures tempSettings == (if team.id in settings then settings[team.id] else DefaultSettings)
      ensures favoriteTeams == old(favoriteTeams) && savedFavorites == old(savedFavorites)
      ensures settings == old(settings) && savedSettings == old(savedSettings)
    {
      selectedTeam := Some(team);
      tempSettings := if team.id in settings then settings[team.id] else DefaultSettings;
      dialogOpen := true;
    }

    /** A control of the open dialog edits the settings being edited, and nothing else. */
    method EditSettings(e: SettingsEdit)
      modifies this
      ensures tempSettings == Edited(old(tempSettings), e)
      ensures selectedTeam == old(selectedTeam) && dialogOpen == old(dialogOpen)
      ensures favoriteTeams == old(favoriteTeams) && savedFavorites == old(savedFavorites)
      ensures settings == old(settings) && savedSettings == old(savedSettings)
    {
      tempSettings := Edited(tempSettings, e);
    }

    /**
     * `saveNotificationSettings` (lines 125-136): the edited settings replace
     * the selected team's entry, state and localStorage alike; the dialog closes.
     */
    method SaveSettings()
      modifies this
      ensures old(selectedTeam).Some? ==>
        settings == old(settings)[old(selectedTeam).value.id := old(tempSettings)] && savedSettings == Some(settings)
      ensures old(selectedTeam).None? ==> settings == old(settings) && savedSettings == old(savedSettings)
      ensures !dialogOpen && selectedTeam == old(selectedTeam) && tempSettings == old(tempSettings)
      ensures favoriteTeams == old(favoriteTeams) && savedFavorites == old(savedFavorites)
    {
      if selectedTeam.Some? {
        var updated := settings[selectedTeam.value.id := tempSettings];
        settings := updated;
        savedSettings := Some(updated);
      }
      dialogOpen := false;
    }
  }

  /**
   * Saving touches one team only: every other team keeps its settings and its
   * active state, and the saved team is active exactly when its new settings say so.
   */
  lemma SaveReplacesOne(settings: map<int, TeamSettings>, id: int, s: TeamSettings)
    ensures forall other :: other != id ==>
      (other in settings[id := s] <==> other in settings)
      && (other in settings ==> settings[id := s][other] == settings[other])
      && HasActive(settings[id := s], other) == HasActive(settings, other)
    ensures HasActive(settings[id := s], id) <==> s.enabled && (s.matchStart || s.scoreChange || s.matchEnd)
  {
  }

  /** Opening a team's dialog and saving it unchanged leaves the settings as they were, apart from filling in defaults. */
  method OpenThenSave(v: TeamsView, team: Team)
    modifies v
    ensures team.id in old(v.settings) ==> v.settings == old(v.settings)
    ensures team.id !in old(v.settings) ==> v.settings == old(v.settings)[team.id := DefaultSettings]
  {
    v.OpenSettings(team);
    v.SaveSettings();
  }
}
