/**
 * esportspulse-mobile/app/profile/index.tsx: the profile screen keeps one user
 * record in component state; each notification switch flips its own flag
 * through a copy of that record.
 */
module Profile {
  /** The four switches of the screen. */
  datatype Flag = MatchStart | ScoreChange | MatchEnd | News

  datatype Notifications = Notifications(matchStart: bool, scoreChange: bool, matchEnd: bool, news: bool)

  /** The screen's user record (lines 10-21). */
  datatype User = User(username: string, email: string, favoriteTeams: seq<string>,
                       favoritePlayers: seq<string>, notifications: Notifications)

  /** `notifications[type]`. */
  function Get(n: Notifications, f: Flag): bool {
    match f
    case MatchStart => n.matchStart
    case ScoreChange => n.scoreChange
    case MatchEnd => n.matchEnd
    case News => n.news
  }

  /** `{ ...notifications, [type]: value }`. */
  function Set(n: Notifications, f: Flag, value: bool): Notifications {
    match f
    case MatchStart => n.(matchStart := value)
    case ScoreChange => n.(scoreChange := value)
    case MatchEnd => n.(matchEnd := value)
    case News => n.(news := value)
  }

  /** The state the screen starts from (lines 10-21). */
  function InitialUser(): (u: User)
    ensures forall f :: Get(u.notifications, f)
    ensures u.favoriteTeams == [] && u.favoritePlayers == []
    ensures u.username == "Kullanıcı" && u.email == "kullanici@example.com"
  {
    User("Kullanıcı", "kullanici@example.com", [], [], Notifications(true, true, true, true))
  }

  /** The updater `toggleNotification` hands to `setUser` (lines 32-40). */
  function ToggleNotification(u: User, f: Flag): User {
    u.(notifications := Set(u.notifications, f, !Get(u.notifications, f)))
  }

  /** Reading a flag back after writing it gives the written value; the other flags keep theirs. */
  lemma GetSet(n: Notifications, f: Flag, value: bool)
    ensures Get(Set(n, f, value), f) == value
    ensures forall g :: g != f ==> Get(Set(n, f, value), g) == Get(n, g)
  {
  }

  /** Two records with the same four flags are the same record. */
  lemma SameFlags(n: Notifications, m: Notifications)
    requires forall f :: Get(n, f) == Get(m, f)
    ensures n == m
  {
    assert Get(n, MatchStart) == Get(m, MatchStart);
    assert Get(n, ScoreChange) == Get(m, ScoreChange);
    assert Get(n, MatchEnd) == Get(m, MatchEnd);
    assert Get(n, News) == Get(m, News);
  }

  /**
   * The toggle flips exactly the named flag; every other flag and every other
   * field of the user is as before.
   */
  lemma ToggleFlipsOne(u: User, f: Flag)
    ensures Get(ToggleNotification(u, f).notifications, f) == !Get(u.notifications, f)
    ensures forall g :: g != f ==> Get(ToggleNotification(u, f).notifications, g) == Get(u.notifications, g)
    ensures var v := ToggleNotification(u, f);
      v.username == u.username && v.email == u.email
      && v.favoriteTeams == u.favoriteTeams && v.favoritePlayers == u.favoritePlayers
  {
    GetSet(u.notifications, f, !Get(u.notifications, f));
  }

  /** Toggling the same flag twice gives back the state it started from. */
  lemma ToggleTwice(u: User, f: Flag)
    ensures ToggleNotification(ToggleNotification(u, f), f) == u
  {
    var v := ToggleNotification(u, f);
    var w := ToggleNotification(v, f);
    ToggleFlipsOne(u, f);
    ToggleFlipsOne(v, f);
    SameFlags(w.notifications, u.notifications);
  }

  /** Toggles of two different flags can be made in either order. */
  lemma TogglesCommute(u: User, f: Flag, g: Flag)
    ensures ToggleNotification(ToggleNotification(u, f), g) == ToggleNotification(ToggleNotification(u, g), f)
  {
    var a := ToggleNotification(ToggleNotification(u, f), g);
    var b := ToggleNotification(ToggleNotification(u, g), f);
    ToggleFlipsOne(u, f);
    ToggleFlipsOne(u, g);
    ToggleFlipsOne(ToggleNotification(u, f), g);
    ToggleFlipsOne(ToggleNotification(u, g), f);
    SameFlags(a.notifications, b.notifications);
  }
}
