/**
 * The notifications slice of the web store
 * (frontend/src/store/slices/notificationSlice.ts): a list of notification
 * items with an `unreadCount` kept beside it, the user's notification
 * preferences and the user id.
 */
module NotificationSlice {
  import opened Wrappers
  import opened Seqs

  datatype NotificationType = MatchStart | ScoreChange | MatchEnd | News | System

  datatype NotificationItem = NotificationItem(
    id: string, title: string, message: string, timestamp: int, read: bool, kind: NotificationType)

  /** The eleven preference flags, by name. */
  type Preferences = map<string, bool>

  const PreferenceKeys: seq<string> := ["email", "push", "inApp", "matchUpdates", "newsUpdates",
    "systemUpdates", "matchStart", "scoreChange", "matchEnd", "news", "system"]

  /** Every flag on. */
  function InitialPreferences(): (p: Preferences)
    ensures forall k :: k in p <==> k in PreferenceKeys
    ensures forall k :: k in p ==> p[k]
  {
    map k | k in PreferenceKeys :: true
  }

  // ---------------------------------------------------------------- the list operations

  predicate IsUnread(n: NotificationItem) { !n.read }

  /** The number of unread items: what `unreadCount` should equal. */
  function UnreadCount(s: seq<NotificationItem>): nat {
    |Filter(s, IsUnread)|
  }

  predicate UniqueIds(s: seq<NotificationItem>) {
    forall i, j :: 0 <= i < j < |s| ==> s[i].id != s[j].id
  }

  /** The index `find(n => n.id === id)` stops at, or -1. */
  function FirstWithId(s: seq<NotificationItem>, id: string): (r: int)
    ensures -1 <= r < |s|
    ensures r >= 0 ==> s[r].id == id
    ensures forall i :: 0 <= i < |s| && (r < 0 || i < r) ==> s[i].id != id
  {
    if s == [] then -1
    else if s[0].id == id then 0
    else
      var r := FirstWithId(s[1..], id);
      if r < 0 then -1 else r + 1
  }

  /** `markAsRead`: the first item with the id becomes read; nothing else changes. */
  function MarkRead(s: seq<NotificationItem>, id: string): (r: seq<NotificationItem>)
    ensures |r| == |s|
  {
    var i := FirstWithId(s, id);
    if i >= 0 then s[i := s[i].(read := true)] else s
  }

  /** `markAllAsRead`. */
  function AllRead(s: seq<NotificationItem>): (r: seq<NotificationItem>)
    ensures |r| == |s|
    ensures forall i :: 0 <= i < |s| ==> r[i] == s[i].(read := true)
  {
    if s == [] then [] else [s[0].(read := true)] + AllRead(s[1..])
  }

  /** The test `n => n.id !== id`. */
  function OtherId(id: string): NotificationItem -> bool {
    (n: NotificationItem) => n.id != id
  }

  /** `filter(n => n.id !== id)`. */
  function WithoutId(s: seq<NotificationItem>, id: string): seq<NotificationItem> {
    Filter(s, OtherId(id))
  }

  // ---------------------------------------------------------------- the store

  class NotificationStore {
    var notifications: seq<NotificationItem>
    var unreadCount: int
    var preferences: Preferences
    var userId: Option<string>

    /** `unreadCount` agrees with the list. */
    ghost predicate Valid()
      reads this
    {
      unreadCount == UnreadCount(notifications)
    }

    constructor()
      ensures Valid()
      ensures notifications == [] && unreadCount == 0
      ensures preferences == InitialPreferences() && userId == None
    {
      notifications := [];
      unreadCount := 0;
      preferences := InitialPreferences();
      userId := None;
    }

    /** `addNotification`: the item goes first; the count grows exactly when it is unread. */
    method AddNotification(item: NotificationItem)
      modifies this
      ensures notifications == [item] + old(notifications)
      ensures unreadCount == old(unreadCount) + (if item.read then 0 else 1)
      ensures preferences == old(preferences) && userId == old(userId)
      ensures old(Valid()) ==> Valid()
    {
      notifications := [item] + notifications;
      if !item.read {
        unreadCount := unreadCount + 1;
      }
      FilterAppend([item], old(notifications), IsUnread);
    }

    /** `markAsRead`: the first item with the id is marked read, and counted down if it was unread. */
    method MarkAsRead(id: string)
      modifies this
      ensures notifications == MarkRead(old(notifications), id)
      ensures var i := FirstWithId(old(notifications), id);
        unreadCount == old(unreadCount) - (if i >= 0 && !old(notifications)[i].read then 1 else 0)
      ensures preferences == old(preferences) && userId == old(userId)
      ensures old(Valid()) ==> Valid()
    {
      var i := FirstWithId(notifications, id);
      if i >= 0 && !notifications[i].read {
        ReadingOneCountsDown(notifications, i);
        notifications := notifications[i := notifications[i].(read := true)];
        unreadCount := unreadCount - 1;
      }
    }

    /** `markAllAsRead`. */
    method MarkAllAsRead()
      modifies this
      ensures notifications == AllRead(old(notifications)) && unreadCount == 0
      ensures preferences == old(preferences) && userId == old(userId)
      ensures Valid()
    {
      notifications := AllRead(notifications);
      unreadCount := 0;
      AllReadHasNoUnread(old(notifications));
    }

    /**
     * `removeNotification`: every item with the id goes, but the count is lowered
     * at most once, by looking at the first of them.
     */
    method RemoveNotification(id: string)
      modifies this
      ensures notifications == WithoutId(old(notifications), id)
      ensures var i := FirstWithId(old(notifications), id);
        unreadCount == old(unreadCount) - (if i >= 0 && !old(notifications)[i].read then 1 else 0)
      ensures preferences == old(preferences) && userId == old(userId)
      ensures old(Valid()) && UniqueIds(old(notifications)) ==> Valid()
    {
      var i := FirstWithId(notifications, id);
      if i >= 0 && !notifications[i].read {
        unreadCount := unreadCount - 1;
      }
      if UniqueIds(notifications) {
        RemovingCountsDown(notifications, id);
      }
      notifications := WithoutId(notifications, id);
    }

    /** `setNotifications`: the list is replaced and the count recomputed. */
    method SetNotifications(items: seq<NotificationItem>)
      modifies this
      ensures notifications == items && unreadCount == UnreadCount(items)
      ensures preferences == old(preferences) && userId == old(userId)
      ensures Valid()
    {
      notifications := items;
      unreadCount := |Filter(items, IsUnread)|;
    }

    method UpdatePreferences(p: Preferences)
      modifies this
      ensures preferences == p
      ensures notifications == old(notifications) && unreadCount == old(unreadCount) && userId == old(userId)
    {
      preferences := p;
    }

    method SetUserId(u: string)
      modifies this
      ensures userId == Some(u)
      ensures notifications == old(notifications) && unreadCount == old(unreadCount) && preferences == old(preferences)
    {
      userId := Some(u);
    }
  }

  // ---------------------------------------------------------------- counting lemmas

  lemma UnreadAround(s: seq<NotificationItem>, i: nat)
    requires i < |s|
    ensures UnreadCount(s) == UnreadCount(s[..i]) + (if s[i].read then 0 else 1) + UnreadCount(s[i + 1..])
  {
    assert s == s[..i] + [s[i]] + s[i + 1..];
    FilterAppend(s[..i] + [s[i]], s[i + 1..], IsUnread);
    FilterAppend(s[..i], [s[i]], IsUnread);
  }

  /** Marking one unread item read lowers the number of unread items by one. */
  lemma ReadingOneCountsDown(s: seq<NotificationItem>, i: nat)
    requires i < |s| && !s[i].read
    ensures UnreadCount(s[i := s[i].(read := true)]) == UnreadCount(s) - 1
  {
    var t := s[i := s[i].(read := true)];
    UnreadAround(s, i);
    UnreadAround(t, i);
    assert t[..i] == s[..i] && t[i + 1..] == s[i + 1..];
  }

  lemma {:induction false} AllReadHasNoUnread(s: seq<NotificationItem>)
    ensures UnreadCount(AllRead(s)) == 0
  {
    FilterAll(AllRead(s), (n: NotificationItem) => n.read);
    assert forall i :: 0 <= i < |AllRead(s)| ==> !IsUnread(AllRead(s)[i]);
    NoUnreadFilter(AllRead(s));
  }

  lemma {:induction false} NoUnreadFilter(s: seq<NotificationItem>)
    requires forall i :: 0 <= i < |s| ==> !IsUnread(s[i])
    ensures Filter(s, IsUnread) == []
  {
    if s != [] {
      NoUnreadFilter(s[1..]);
    }
  }

  /** With unique ids, removing an id lowers the unread count by one exactly when its item was unread. */
  lemma {:induction false} RemovingCountsDown(s: seq<NotificationItem>, id: string)
    requires UniqueIds(s)
    ensures var i := FirstWithId(s, id);
      UnreadCount(WithoutId(s, id)) == UnreadCount(s) - (if i >= 0 && !s[i].read then 1 else 0)
  {
    if s != [] {
      assert UniqueIds(s[1..]);
      RemovingCountsDown(s[1..], id);
      assert s == [s[0]] + s[1..];
      FilterAppend([s[0]], s[1..], IsUnread);
      if s[0].id == id {
        assert forall j :: 0 <= j < |s[1..]| ==> s[1..][j].id != id;
        FilterAll(s[1..], OtherId(id));
        assert WithoutId(s, id) == WithoutId(s[1..], id) == s[1..];
      } else {
        assert WithoutId(s, id) == [s[0]] + WithoutId(s[1..], id);
        FilterAppend([s[0]], WithoutId(s[1..], id), IsUnread);
        var r := FirstWithId(s[1..], id);
        assert FirstWithId(s, id) == (if r < 0 then -1 else r + 1);
        assert r >= 0 ==> s[r + 1] == s[1..][r];
      }
    }
  }

  /** Without unique ids the count can drift: two unread items with one id lose only one from the count. */
  lemma DuplicateIdsDrift(a: NotificationItem)
    requires !a.read
    ensures var s := [a, a];
      UnreadCount(s) == 2 && UnreadCount(WithoutId(s, a.id)) == 0 && FirstWithId(s, a.id) == 0
  {
    var s := [a, a];
    assert s[1..] == [a] && s[1..][1..] == [];
    assert Filter(s, IsUnread) == [a, a];
    var p := OtherId(a.id);
    assert Filter([a], p) == [] + Filter([], p) == [];
    assert Filter(s, p) == [] + Filter([a], p) == [];
  }

  /** `markAsRead` a second time changes nothing. */
  lemma MarkReadIdempotent(s: seq<NotificationItem>, id: string)
    ensures MarkRead(MarkRead(s, id), id) == MarkRead(s, id)
  {
    var i := FirstWithId(s, id);
    if i >= 0 {
      var t := MarkRead(s, id);
      FirstWithIdAfterUpdate(s, id, i, t);
    }
  }

  lemma FirstWithIdAfterUpdate(s: seq<NotificationItem>, id: string, i: int, t: seq<NotificationItem>)
    requires 0 <= i == FirstWithId(s, id)
    requires |t| == |s| && t[i].id == id && forall j :: 0 <= j < |s| && j != i ==> t[j] == s[j]
    ensures FirstWithId(t, id) == i
  {
    assert forall j :: 0 <= j < i ==> t[j] == s[j] && t[j].id != id;
  }

  /** `markAsRead` touches only the first item with the id, and only its read flag. */
  lemma MarkReadTouchesOne(s: seq<NotificationItem>, id: string)
    ensures var r := MarkRead(s, id); var i := FirstWithId(s, id);
      && (forall j :: 0 <= j < |s| && j != i ==> r[j] == s[j])
      && (i >= 0 ==> r[i] == s[i].(read := true))
  {
  }

  /** `removeNotification` removes every item with the id and keeps the rest in order. */
  lemma WithoutIdKeepsOthers(s: seq<NotificationItem>, id: string)
    ensures forall n :: n in WithoutId(s, id) <==> n in s && n.id != id
    ensures forall a, b :: WithoutId(a + b, id) == WithoutId(a, id) + WithoutId(b, id)
  {
    FilterMembers(s, OtherId(id));
    forall a, b ensures WithoutId(a + b, id) == WithoutId(a, id) + WithoutId(b, id) {
      FilterAppend(a, b, OtherId(id));
    }
  }
}
