/**
 * The in-memory favourite teams of backend/server.js: POST /api/favorites adds
 * a team unless one with the same id is stored, and POST
 * /api/notifications/settings stores notification settings on a stored team.
 */
module ServerFavorites {
  import opened Wrappers

  /**
   * A request-body `teamId`, compared with `===`. The model covers an integer, a
   * string or an absent id; other JSON values are not modelled.
   */
  datatype TeamId = NumberId(n: int) | StringId(s: string) | Undefined

  /** The notification settings of a request body, kept as given; a body without them is `None` (`undefined`). */
  type Settings = map<string, bool>

  datatype FavoriteTeam = FavoriteTeam(teamId: TeamId, teamName: Option<string>, settings: Option<Settings>)

  /** No two stored teams share an id. */
  predicate UniqueIds(teams: seq<FavoriteTeam>) {
    forall i, j :: 0 <= i < j < |teams| ==> teams[i].teamId != teams[j].teamId
  }

  /** `favoriteTeams.findIndex(t => t.teamId === teamId)`. */
  function IndexOfTeam(teams: seq<FavoriteTeam>, teamId: TeamId): (r: int)
    ensures -1 <= r < |teams|
    ensures r >= 0 ==> teams[r].teamId == teamId
    ensures r == -1 <==> forall i :: 0 <= i < |teams| ==> teams[i].teamId != teamId
    ensures forall i :: 0 <= i < r ==> teams[i].teamId != teamId
  {
    if teams == [] then -1
    else if teams[0].teamId == teamId then 0
    else
      var r := IndexOfTeam(teams[1..], teamId);
      if r < 0 then -1 else r + 1
  }

  /** With unique ids the team found is the only one with that id. */
  lemma FoundTeamIsOnly(teams: seq<FavoriteTeam>, teamId: TeamId)
    requires UniqueIds(teams) && IndexOfTeam(teams, teamId) >= 0
    ensures forall i :: 0 <= i < |teams| && teams[i].teamId == teamId ==> i == IndexOfTeam(teams, teamId)
  {
  }

  const AddedMessage: string := "Favori takıma eklendi"
  const SavedMessage: string := "Bildirim ayarları kaydedildi"
  const NotFoundMessage: string := "Takım bulunamadı"

  class FavoritesStore {
    var favoriteTeams: seq<FavoriteTeam>

    ghost predicate Valid()
      reads this
    {
      UniqueIds(favoriteTeams)
    }

    constructor()
      ensures Valid() && favoriteTeams == []
    {
      favoriteTeams := [];
    }

    /** POST /api/favorites: push the team when its id is new; the answer is the same either way. */
    method AddFavorite(teamId: TeamId, teamName: Option<string>) returns (message: string)
      requires Valid()
      modifies this
      ensures Valid()
      ensures message == AddedMessage
      ensures favoriteTeams == Add(old(favoriteTeams), teamId, teamName)
      ensures IndexOfTeam(old(favoriteTeams), teamId) >= 0 ==> favoriteTeams == old(favoriteTeams)
      ensures IndexOfTeam(old(favoriteTeams), teamId) < 0 ==>
        favoriteTeams == old(favoriteTeams) + [FavoriteTeam(teamId, teamName, None)]
    {
      if IndexOfTeam(favoriteTeams, teamId) < 0 {
        favoriteTeams := favoriteTeams + [FavoriteTeam(teamId, teamName, None)];
      }
      message := AddedMessage;
    }

    /**
     * POST /api/notifications/settings: 404 and no change for an unknown id;
     * otherwise that team, and no other, gets the settings.
     */
    method SaveSettings(teamId: TeamId, settings: Option<Settings>) returns (status: int, message: string)
      requires Valid()
      modifies this
      ensures Valid()
      ensures status == 404 <==> IndexOfTeam(old(favoriteTeams), teamId) < 0
      ensures status == 404 ==> favoriteTeams == old(favoriteTeams) && message == NotFoundMessage
      ensures status != 404 ==> status == 200 && message == SavedMessage
      ensures status == 200 ==>
        var i := IndexOfTeam(old(favoriteTeams), teamId);
        favoriteTeams == old(favoriteTeams)[i := old(favoriteTeams)[i].(settings := settings)]
    {
      var i := IndexOfTeam(favoriteTeams, teamId);
      if i >= 0 {
        favoriteTeams := favoriteTeams[i := favoriteTeams[i].(settings := settings)];
        status, message := 200, SavedMessage;
      } else {
        status, message := 404, NotFoundMessage;
      }
    }
  }

  /** Adding a team: a new id, or a no-op for a stored one, as a function on the list. */
  function Add(teams: seq<FavoriteTeam>, teamId: TeamId, teamName: Option<string>): seq<FavoriteTeam> {
    if IndexOfTeam(teams, teamId) >= 0 then teams else teams + [FavoriteTeam(teamId, teamName, None)]
  }

  /** Adding keeps ids unique, and adding the same id twice is adding it once. */
  lemma AddKeepsIdsUnique(teams: seq<FavoriteTeam>, teamId: TeamId, teamName: Option<string>, other: Option<string>)
    requires UniqueIds(teams)
    ensures UniqueIds(Add(teams, teamId, teamName))
    ensures Add(Add(teams, teamId, teamName), teamId, other) == Add(teams, teamId, teamName)
    ensures IndexOfTeam(Add(teams, teamId, teamName), teamId) >= 0
  {
    var t := Add(teams, teamId, teamName);
    if IndexOfTeam(teams, teamId) < 0 {
      assert t[|teams|].teamId == teamId;
    }
  }

  /** Saving settings changes nothing but that one team's settings: ids, names and the other teams are kept. */
  lemma SaveTouchesOneTeam(teams: seq<FavoriteTeam>, teamId: TeamId, settings: Option<Settings>)
    requires UniqueIds(teams) && IndexOfTeam(teams, teamId) >= 0
    ensures var i := IndexOfTeam(teams, teamId);
      var t := teams[i := teams[i].(settings := settings)];
      && UniqueIds(t)
      && (forall j :: 0 <= j < |teams| ==> t[j].teamId == teams[j].teamId && t[j].teamName == teams[j].teamName)
      && (forall j :: 0 <= j < |teams| && teams[j].teamId != teamId ==> t[j] == teams[j])
      && t[i].settings == settings
  {
  }
}
