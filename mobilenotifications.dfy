/**
 * The mobile app's `NotificationService` (esportspulse-mobile/services/notifications.ts):
 * a singleton holding the notification list and the registered listeners. Each
 * list operation asks the API first and changes the list, saves it to storage
 * and calls every listener only when the API accepted the request.
 *
 * The API's answer is a parameter (`Reply`), storage is the field `stored`
 * (with a flag saying whether a write went through), and a listener is known
 * by an identity; calling it is recorded as a `Delivery` of the list it was given.
 */
module MobileNotifications {
  import opened Wrappers
  import opened Seqs

  datatype Kind = MatchNotice | NewsNotice | EventNotice | SystemNotice

  datatype Notification = Notification(
    id: string, title: string, message: string, kind: Kind, read: bool, createdAt: string)

  /** What an API call came to: it threw, or it answered with an `error` flag and a body. */
  datatype Reply<T> = Thrown | Answered(error: bool, data: T)

  /** `!response.error && response.data.success`. */
  predicate Accepted(r: Reply<bool>) {
    r.Answered? && !r.error && r.data
  }

  /** A listener identity; the function `addListener` returns removes this identity. */
  type Listener = nat

  /** One call of a listener with the list it was handed. */
  datatype Delivery = Delivery(listener: Listener, list: seq<Notification>)

  // ---------------------------------------------------------------- the list operations as values

  predicate IsUnread(n: Notification) { !n.read }

  /** `getUnreadCount`: the number of entries whose `read` is false. */
  function UnreadCount(s: seq<Notification>): nat {
    |Filter(s, IsUnread)|
  }

  /** The `map` of `markAsRead`: every entry with the id becomes read. */
  function MarkedRead(s: seq<Notification>, id: string): (r: seq<Notification>)
    ensures |r| == |s|
    ensures forall i :: 0 <= i < |s| ==> r[i].id == s[i].id
  {
    if s == [] then []
    else [if s[0].id == id then s[0].(read := true) else s[0]] + MarkedRead(s[1..], id)
  }

  /** The `map` of `markAllAsRead`. */
  function AllMarkedRead(s: seq<Notification>): (r: seq<Notification>)
    ensures |r| == |s|
  {
    if s == [] then [] else [s[0].(read := true)] + AllMarkedRead(s[1..])
  }

  /** The entries of other ids: the `filter` of `deleteNotification`. */
  function OtherId(id: string): Notification -> bool {
    (n: Notification) => n.id != id
  }

  function Deleted(s: seq<Notification>, id: string): seq<Notification> {
    Filter(s, OtherId(id))
  }

  /** The unread count is at most the length, and is 0 exactly when every entry is read. */
  lemma {:induction false} UnreadCountBounds(s: seq<Notification>)
    ensures UnreadCount(s) <= |s|
    ensures UnreadCount(s) == 0 <==> forall i :: 0 <= i < |s| ==> s[i].read
  {
    FilterMembers(s, IsUnread);
    if UnreadCount(s) == 0 {
      forall i | 0 <= i < |s| ensures s[i].read {
        assert s[i] in s;
      }
    } else {
      var f := Filter(s, IsUnread);
      assert f[0] in f;
    }
  }

  /** Marking an id read touches only the entries with that id, and only their `read` field. */
  lemma {:induction false} MarkedReadEntries(s: seq<Notification>, id: string)
    ensures forall i :: 0 <= i < |s| && s[i].id == id ==> MarkedRead(s, id)[i] == s[i].(read := true)
    ensures forall i :: 0 <= i < |s| && s[i].id != id ==> MarkedRead(s, id)[i] == s[i]
  {
    if s != [] {
      MarkedReadEntries(s[1..], id);
      var r := MarkedRead(s, id);
      assert r[1..] == MarkedRead(s[1..], id);
      forall i | 1 <= i < |s| ensures r[i] == r[1..][i - 1] && s[i] == s[1..][i - 1] { }
    }
  }

  /** After marking an id read, the unread entries are exactly the unread entries of the other ids. */
  lemma {:induction false} MarkedReadUnread(s: seq<Notification>, id: string)
    ensures Filter(MarkedRead(s, id), IsUnread) == Filter(Filter(s, OtherId(id)), IsUnread)
  {
    if s != [] {
      MarkedReadUnread(s[1..], id);
      var r := MarkedRead(s, id);
      assert r[0] == if s[0].id == id then s[0].(read := true) else s[0];
      assert r[1..] == MarkedRead(s[1..], id);
      if s[0].id == id {
        assert !IsUnread(r[0]);
        assert Filter(s, OtherId(id)) == [] + Filter(s[1..], OtherId(id)) == Filter(s[1..], OtherId(id));
      } else {
        assert Filter(s, OtherId(id)) == [s[0]] + Filter(s[1..], OtherId(id));
        var f := Filter(s, OtherId(id));
        assert f[0] == s[0] && f[1..] == Filter(s[1..], OtherId(id));
      }
    }
  }

  /** Marking every entry read leaves no unread entry, and changes nothing but `read`. */
  lemma {:induction false} AllMarkedReadFacts(s: seq<Notification>)
    ensures UnreadCount(AllMarkedRead(s)) == 0
    ensures forall i :: 0 <= i < |s| ==> AllMarkedRead(s)[i] == s[i].(read := true)
  {
    if s != [] {
      AllMarkedReadFacts(s[1..]);
      var r := AllMarkedRead(s);
      assert r[1..] == AllMarkedRead(s[1..]);
      assert Filter(r, IsUnread) == [] + Filter(r[1..], IsUnread);
      forall i | 1 <= i < |s| ensures r[i] == r[1..][i - 1] && s[i] == s[1..][i - 1] { }
    }
  }

  /** Deleting removes every entry with the id and keeps each entry of any other id, in order. */
  lemma DeletedFacts(s: seq<Notification>, id: string, a: seq<Notification>, b: seq<Notification>)
    ensures forall n :: n in Deleted(s, id) <==> n in s && n.id != id
    ensures Deleted(a + b, id) == Deleted(a, id) + Deleted(b, id)
    ensures (forall i :: 0 <= i < |s| ==> s[i].id != id) ==> Deleted(s, id) == s
  {
    FilterMembers(s, OtherId(id));
    FilterAppend(a, b, OtherId(id));
    if forall i :: 0 <= i < |s| ==> s[i].id != id {
      FilterAll(s, OtherId(id));
    }
  }

  /** The listeners after removing `l`: every other listener, in order. */
  function Without(ls: seq<Listener>, l: Listener): seq<Listener> {
    Filter(ls, (x: Listener) => x != l)
  }

  /** The remover returned by `addListener(l)` takes out `l` and nothing else. */
  lemma AddThenRemove(ls: seq<Listener>, l: Listener)
    ensures Without(ls + [l], l) == Without(ls, l)
    ensures l !in ls ==> Without(ls + [l], l) == ls
    ensures forall x :: x in Without(ls + [l], l) <==> x in ls && x != l
  {
    var p := (x: Listener) => x != l;
    FilterAppend(ls, [l], p);
    assert Filter([l], p) == [] + Filter([l][1..], p);
    FilterMembers(ls, p);
    if l !in ls {
      FilterAll(ls, p);
    }
  }

  /** What `notifyListeners` does: each listener, in registration order, is handed the list. */
  function Broadcast(ls: seq<Listener>, list: seq<Notification>): (r: seq<Delivery>)
    ensures |r| == |ls|
    ensures forall i :: 0 <= i < |ls| ==> r[i].listener == ls[i] && r[i].list == list
  {
    if ls == [] then [] else [Delivery(ls[0], list)] + Broadcast(ls[1..], list)
  }

  // ---------------------------------------------------------------- the service

  class NotificationService {
    var notifications: seq<Notification>
    var listeners: seq<Listener>
    /** The 'notifications' storage entry: `None` until something was saved. */
    var stored: Option<seq<Notification>>
    /** Every listener call so far, oldest first. */
    var deliveries: seq<Delivery>

    constructor ()
      ensures notifications == [] && listeners == [] && stored == None && deliveries == []
    {
      notifications := [];
      listeners := [];
      stored := None;
      deliveries := [];
    }

    /** The accepted branch of every list operation: replace the list, save it, notify. */
    method Commit(list: seq<Notification>, saved: bool)
      modifies this
      ensures notifications == list
      ensures stored == if saved then Some(list) else old(stored)
      ensures deliveries == old(deliveries) + Broadcast(listeners, list)
      ensures listeners == old(listeners)
    {
      notifications := list;
      if saved {
        stored := Some(notifications);
      }
      deliveries := deliveries + Broadcast(listeners, notifications);
    }

    /** `fetchNotifications`: the server's list replaces the local one unless the reply has an error. */
    method FetchNotifications(reply: Reply<seq<Notification>>, saved: bool)
      modifies this
      ensures listeners == old(listeners)
      ensures reply.Answered? && !reply.error ==>
        notifications == reply.data && deliveries == old(deliveries) + Broadcast(listeners, reply.data)
        && stored == (if saved then Some(reply.data) else old(stored))
      ensures !(reply.Answered? && !reply.error) ==>
        notifications == old(notifications) && deliveries == old(deliveries) && stored == old(stored)
    {
      if reply.Answered? && !reply.error {
        Commit(reply.data, saved);
      }
    }

    /** `initialize`: the stored list, when there is one, then a fetch. */
    method Initialize(reply: Reply<seq<Notification>>, saved: bool)
      modifies this
      ensures listeners == old(listeners)
      ensures reply.Answered? && !reply.error ==>
        notifications == reply.data && deliveries == old(deliveries) + Broadcast(listeners, reply.data)
        && stored == (if saved then Some(reply.data) else old(stored))
      ensures !(reply.Answered? && !reply.error) ==>
        notifications == (if old(stored).Some? then old(stored).value else old(notifications))
        && deliveries == old(deliveries) && stored == old(stored)
    {
      if stored.Some? {
        notifications := stored.value;
      }
      FetchNotifications(reply, saved);
    }

    method MarkAsRead(id: string, reply: Reply<bool>, saved: bool)
      modifies this
      ensures listeners == old(listeners)
      ensures Accepted(reply) ==>
        notifications == MarkedRead(old(notifications), id)
        && deliveries == old(deliveries) + Broadcast(listeners, notifications)
        && stored == (if saved then Some(notifications) else old(stored))
      ensures !Accepted(reply) ==>
        notifications == old(notifications) && deliveries == old(deliveries) && stored == old(stored)
    {
      if Accepted(reply) {
        Commit(MarkedRead(notifications, id), saved);
      }
    }

    method MarkAllAsRead(reply: Reply<bool>, saved: bool)
      modifies this
      ensures listeners == old(listeners)
      ensures Accepted(reply) ==>
        notifications == AllMarkedRead(old(notifications)) && UnreadCount(notifications) == 0
        && deliveries == old(deliveries) + Broadcast(listeners, notifications)
        && stored == (if saved then Some(notifications) else old(stored))
      ensures !Accepted(reply) ==>
        notifications == old(notifications) && deliveries == old(deliveries) && stored == old(stored)
    {
      if Accepted(reply) {
        AllMarkedReadFacts(notifications);
        Commit(AllMarkedRead(notifications), saved);
      }
    }

    method DeleteNotification(id: string, reply: Reply<bool>, saved: bool)
      modifies this
      ensures listeners == old(listeners)
      ensures Accepted(reply) ==>
        notifications == Deleted(old(notifications), id)
        && deliveries == old(deliveries) + Broadcast(listeners, notifications)
        && stored == (if saved then Some(notifications) else old(stored))
      ensures !Accepted(reply) ==>
        notifications == old(notifications) && deliveries == old(deliveries) && stored == old(stored)
    {
      if Accepted(reply) {
        Commit(Deleted(notifications, id), saved);
      }
    }

    method ClearAllNotifications(reply: Reply<bool>, saved: bool)
      modifies this
      ensures listeners == old(listeners)
      ensures Accepted(reply) ==>
        notifications == [] && deliveries == old(deliveries) + Broadcast(listeners, [])
        && stored == (if saved then Some([]) else old(stored))
      ensures !Accepted(reply) ==>
        notifications == old(notifications) && deliveries == old(deliveries) && stored == old(stored)
    {
      if Accepted(reply) {
        Commit([], saved);
      }
    }

    method GetUnreadCount() returns (n: nat)
      ensures n == UnreadCount(notifications)
      ensures n <= |notifications|
      ensures n == 0 <==> forall i :: 0 <= i < |notifications| ==> notifications[i].read
    {
      UnreadCountBounds(notifications);
      n := |Filter(notifications, IsUnread)|;
    }

    /** `addListener`: the listener goes last; the remover it returns is `RemoveListener(l)`. */
    method AddListener(l: Listener)
      modifies this
      ensures listeners == old(listeners) + [l]
      ensures notifications == old(notifications) && stored == old(stored) && deliveries == old(deliveries)
    {
      listeners := listeners + [l];
    }

    method RemoveListener(l: Listener)
      modifies this
      ensures listeners == Without(old(listeners), l)
      ensures notifications == old(notifications) && stored == old(stored) && deliveries == old(deliveries)
    {
      listeners := Without(listeners, l);
    }
  }

  /** The class's static `instance` slot. */
  class Registry {
    var instance: Option<NotificationService>

    constructor ()
      ensures instance == None
    {
      instance := None;
    }

    /** `getInstance`: the first call creates the service, every later call returns that same object. */
    method GetInstance() returns (s: NotificationService)
      modifies this
      ensures instance == Some(s)
      ensures old(instance).Some? ==> s == old(instance).value
      ensures old(instance).None? ==> fresh(s) && s.notifications == [] && s.listeners == []
    {
      if instance.None? {
        var created := new NotificationService();
        instance := Some(created);
      }
      s := instance.value;
    }
  }

  /** Two calls of `getInstance` give the same service. */
  method SameInstance(r: Registry) returns (a: NotificationService, b: NotificationService)
    modifies r
    ensures a == b
  {
    a := r.GetInstance();
    b := r.GetInstance();
  }
}
