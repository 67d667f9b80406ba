/**
 * The web client's notification service (frontend/src/services/notificationService.ts):
 * the anonymous user id kept in local storage, the random UUID it is made
 * from, the WebSocket reconnect counter, the preference gate on incoming
 * notifications, and the order in which a preference change reaches the
 * server, the store, the socket and local storage.
 *
 * Randomness, the network and the socket's own life cycle are inputs: the
 * random nibbles are a function `draw` (the i-th call of `Math.random() * 16 | 0`),
 * API outcomes are flags, and the socket's events are methods the
 * environment calls.
 */
module WebNotificationService {
  import opened Wrappers
  import opened NotificationSlice

  // ---------------------------------------------------------------- generateUUID

  /** A value of `Math.random() * 16 | 0`. */
  type Nibble = r: int | 0 <= r < 16

  const UuidTemplate: string := "xxxxxxxx-xxxx-4xxx-yxxx-xxxxxxxxxxxx"

  /** `v.toString(16)` for a nibble: one lower-case hexadecimal digit. */
  function HexDigit(v: Nibble): (c: char)
    ensures c in "0123456789abcdef"
  {
    "0123456789abcdef"[v]
  }

  predicate IsLowerHex(c: char) { c in "0123456789abcdef" }

  /** The replacement of one `x` or `y`: `r` itself for `x`, `r & 0x3 | 0x8` for `y`. */
  function SlotDigit(c: char, r: Nibble): char {
    if c == 'x' then HexDigit(r) else HexDigit((((r as bv8) & 0x3) | 0x8) as int)
  }

  /** The characters `/[xy]/` matches. */
  predicate IsSlot(c: char) { c == 'x' || c == 'y' }

  /** How many `x`/`y` slots `t` has. */
  function CountSlots(t: string): nat {
    if t == [] then 0 else (if IsSlot(t[0]) then 1 else 0) + CountSlots(t[1..])
  }

  /**
   * `t.replace(/[xy]/g, callback)`, the slots filled left to right; the slot
   * that is the `k`-th replacement so far becomes `callback(c, k)`.
   */
  function FillSlots(t: string, callback: (char, nat) -> char, k: nat): (u: string)
    ensures |u| == |t|
  {
    if t == [] then []
    else if IsSlot(t[0]) then [callback(t[0], k)] + FillSlots(t[1..], callback, k + 1)
    else [t[0]] + FillSlots(t[1..], callback, k)
  }

  /** Each slot is filled by its own call, numbered by the slots before it; other characters stay. */
  lemma {:induction false} FillSlotAt(t: string, callback: (char, nat) -> char, k: nat, i: nat)
    requires i < |t|
    ensures FillSlots(t, callback, k)[i] == if IsSlot(t[i]) then callback(t[i], k + CountSlots(t[..i])) else t[i]
  {
    var k' := if IsSlot(t[0]) then k + 1 else k;
    var head := if IsSlot(t[0]) then callback(t[0], k) else t[0];
    var u := FillSlots(t, callback, k);
    assert u == [head] + FillSlots(t[1..], callback, k');
    if i > 0 {
      FillSlotAt(t[1..], callback, k', i - 1);
      assert u[i] == FillSlots(t[1..], callback, k')[i - 1];
      assert t[1..][i - 1] == t[i];
      assert t[..i] == [t[0]] + t[1..][..i - 1];
      assert CountSlots(t[..i]) == (if IsSlot(t[0]) then 1 else 0) + CountSlots(t[1..][..i - 1]);
    } else {
      assert t[..0] == [];
    }
  }

  /** The callback of `generateUUID`: the `k`-th slot takes the `k`-th random nibble. */
  function UuidCallback(draw: nat -> Nibble): (char, nat) -> char {
    (c: char, k: nat) => SlotDigit(c, draw(k))
  }

  function GenerateUuid(draw: nat -> Nibble): string {
    FillSlots(UuidTemplate, UuidCallback(draw), 0)
  }

  /** A `y` slot is always one of 8, 9, a, b: the two top bits of that nibble are 10. */
  lemma VariantDigit(r: Nibble)
    ensures SlotDigit('y', r) in "89ab"
  {
    var v := (((r as bv8) & 0x3) | 0x8);
    assert 8 <= v as int <= 11;
  }

  /** The template: dashes between the groups, the version digit, the variant slot, and `x` slots. */
  lemma TemplateChars(i: nat)
    requires i < 36
    ensures UuidTemplate[i] == if i in {8, 13, 18, 23} then '-' else if i == 14 then '4' else if i == 19 then 'y' else 'x'
  {
  }

  /**
   * The layout of a version-4 UUID (RFC 4122, section 4.4): 36 characters in
   * groups 8-4-4-4-12 separated by '-', the version digit '4' at index 14, one
   * of 8, 9, a, b at index 19, and lower-case hexadecimal digits elsewhere.
   */
  lemma UuidLayout(draw: nat -> Nibble)
    ensures |GenerateUuid(draw)| == 36
    ensures forall i :: i in {8, 13, 18, 23} ==> GenerateUuid(draw)[i] == '-'
    ensures GenerateUuid(draw)[14] == '4'
    ensures GenerateUuid(draw)[19] in "89ab"
    ensures forall i :: 0 <= i < 36 && i !in {8, 13, 18, 23} ==> IsLowerHex(GenerateUuid(draw)[i])
  {
    var u := GenerateUuid(draw);
    forall i | 0 <= i < 36
      ensures i in {8, 13, 18, 23} ==> u[i] == '-'
      ensures i == 14 ==> u[i] == '4'
      ensures i == 19 ==> u[i] in "89ab"
      ensures i !in {8, 13, 18, 23} ==> IsLowerHex(u[i])
    {
      UuidCharAt(draw, i);
    }
  }

  lemma UuidCharAt(draw: nat -> Nibble, i: nat)
    requires i < 36
    ensures |GenerateUuid(draw)| == 36
    ensures var c := GenerateUuid(draw)[i];
      (i in {8, 13, 18, 23} ==> c == '-') && (i == 14 ==> c == '4') && (i == 19 ==> c in "89ab")
      && (i !in {8, 13, 18, 23} ==> IsLowerHex(c))
  {
    TemplateChars(i);
    SlotFilled(UuidTemplate, draw, i);
  }

  /** A character of the filled template: an `x` slot becomes a hexadecimal digit, a `y` slot one of 8, 9, a, b. */
  lemma SlotFilled(t: string, draw: nat -> Nibble, i: nat)
    requires i < |t|
    ensures var c := FillSlots(t, UuidCallback(draw), 0)[i];
      (!IsSlot(t[i]) ==> c == t[i]) && (t[i] == 'x' ==> IsLowerHex(c)) && (t[i] == 'y' ==> c in "89ab")
  {
    var k := CountSlots(t[..i]);
    FillSlotAt(t, UuidCallback(draw), 0, i);
    var c := FillSlots(t, UuidCallback(draw), 0)[i];
    if IsSlot(t[i]) {
      assert c == UuidCallback(draw)(t[i], k);
      if t[i] == 'y' {
        VariantDigit(draw(k));
      } else {
        assert c == HexDigit(draw(k));
      }
    }
  }

  // ---------------------------------------------------------------- local storage

  /** The two local storage entries the service uses. */
  class BrowserStorage {
    var anonUserId: Option<string>
    /** 'notificationPreferences', as the object its JSON text stands for. */
    var notificationPreferences: Option<Preferences>

    constructor (anon: Option<string>, prefs: Option<Preferences>)
      ensures anonUserId == anon && notificationPreferences == prefs
    {
      anonUserId := anon;
      notificationPreferences := prefs;
    }
  }

  /** A stored id counts only when it is present and not empty. */
  predicate HasAnonId(s: Option<string>) { Truthy(s) }

  /**
   * `getAnonUserId`: the stored id when there is one; otherwise a new UUID,
   * which is stored. A non-empty id is returned either way.
   */
  method GetAnonUserId(storage: BrowserStorage, draw: nat -> Nibble) returns (id: string)
    modifies storage
    ensures HasAnonId(old(storage.anonUserId)) ==> id == old(storage.anonUserId).value && storage.anonUserId == old(storage.anonUserId)
    ensures !HasAnonId(old(storage.anonUserId)) ==> id == GenerateUuid(draw) && storage.anonUserId == Some(id)
    ensures |id| > 0 && storage.anonUserId == Some(id)
    ensures storage.notificationPreferences == old(storage.notificationPreferences)
  {
    if HasAnonId(storage.anonUserId) {
      id := storage.anonUserId.value;
    } else {
      UuidLayout(draw);
      id := GenerateUuid(draw);
      storage.anonUserId := Some(id);
    }
  }

  /** Once an id is stored, every later call returns it, whatever the random draws. */
  method AnonIdIsStable(storage: BrowserStorage, draw1: nat -> Nibble, draw2: nat -> Nibble)
    returns (first: string, second: string)
    modifies storage
    ensures first == second
  {
    first := GetAnonUserId(storage, draw1);
    second := GetAnonUserId(storage, draw2);
  }

  // ---------------------------------------------------------------- the service

  datatype ReadyState = Connecting | Open | Closing | Closed

  /** The `socket` field: `null`, or a socket in some ready state. */
  datatype SocketSlot = NoSocket | Socket(state: ReadyState)

  /** A message as `JSON.parse` returns it: malformed, or an item with the raw `type` string it declared. */
  datatype Incoming = Malformed | Parsed(typeName: string, item: NotificationItem)

  const MaxReconnectAttempts: nat := 5
  const ReconnectTimeout: nat := 5000

  /** `preferences[type]` is truthy: the preference exists and is on. */
  predicate Admits(prefs: Preferences, typeName: string) {
    typeName in prefs && prefs[typeName]
  }

  class NotificationService {
    const store: NotificationStore
    const storage: BrowserStorage
    var socket: SocketSlot
    var reconnectAttempts: nat
    /** The `userId` the last socket was opened for. */
    var connectedAs: Option<string>
    /** Reconnects that `setTimeout` has scheduled, each after `ReconnectTimeout` ms. */
    var scheduledReconnects: nat
    /** The 'preferences' messages sent over the socket, oldest first. */
    var sent: seq<Preferences>
    /** The toasts shown, oldest first. */
    var toasts: seq<string>
    /** How many times `close()` was called on a socket. */
    var closes: nat

    ghost predicate Valid()
      reads this
    {
      reconnectAttempts <= MaxReconnectAttempts
    }

    constructor (store: NotificationStore, storage: BrowserStorage)
      ensures this.store == store && this.storage == storage
      ensures socket == NoSocket && reconnectAttempts == 0 && scheduledReconnects == 0
      ensures sent == [] && toasts == [] && closes == 0 && connectedAs == None
      ensures Valid()
    {
      this.store := store;
      this.storage := storage;
      socket := NoSocket;
      reconnectAttempts := 0;
      connectedAs := None;
      scheduledReconnects := 0;
      sent := [];
      toasts := [];
      closes := 0;
    }

    /**
     * `initializeWebSocket`: the store's user id, or else the anonymous id, is
     * used to open a socket (`created` is false when the constructor throws).
     * The anonymous id is never empty, so the "no user id" exit is never taken.
     */
    method InitializeWebSocket(draw: nat -> Nibble, created: bool)
      modifies this, storage
      ensures Truthy(store.userId) ==> connectedAs == (if created then store.userId else old(connectedAs))
      ensures Truthy(store.userId) ==> storage.anonUserId == old(storage.anonUserId)
      ensures !Truthy(store.userId) && created ==>
        connectedAs == storage.anonUserId && Truthy(connectedAs)
      ensures socket == if created then Socket(Connecting) else old(socket)
      ensures reconnectAttempts == old(reconnectAttempts) && scheduledReconnects == old(scheduledReconnects)
      ensures sent == old(sent) && toasts == old(toasts) && closes == old(closes)
      ensures storage.notificationPreferences == old(storage.notificationPreferences)
    {
      var userId: string;
      if Truthy(store.userId) {
        userId := store.userId.value;
      } else {
        userId := GetAnonUserId(storage, draw);
      }
      if created {
        socket := Socket(Connecting);
        connectedAs := Some(userId);
      }
    }

    /**
     * `onopen`: the socket is now open, the counter is reset and the store's
     * preferences are sent over it. Without a socket there is nothing to send to.
     */
    method OnOpen()
      modifies this
      ensures reconnectAttempts == 0 && Valid()
      ensures old(socket).Socket? ==> socket == Socket(Open) && sent == old(sent) + [store.preferences]
      ensures old(socket).NoSocket? ==> socket == NoSocket && sent == old(sent)
      ensures scheduledReconnects == old(scheduledReconnects)
      ensures toasts == old(toasts) && closes == old(closes) && connectedAs == old(connectedAs)
    {
      reconnectAttempts := 0;
      if socket.Socket? {
        socket := Socket(Open);
      }
      if socket == Socket(Open) {
        sent := sent + [store.preferences];
      }
    }

    /** `onmessage`: an item whose type the preferences enable goes first in the store and is toasted. */
    method OnMessage(m: Incoming)
      modifies store, this
      ensures m.Parsed? && Admits(old(store.preferences), m.typeName) ==>
        store.notifications == [m.item] + old(store.notifications) && toasts == old(toasts) + [m.item.message]
      ensures !(m.Parsed? && Admits(old(store.preferences), m.typeName)) ==>
        store.notifications == old(store.notifications) && store.unreadCount == old(store.unreadCount)
        && toasts == old(toasts)
      ensures store.preferences == old(store.preferences) && store.userId == old(store.userId)
      ensures old(store.Valid()) ==> store.Valid()
      ensures socket == old(socket) && reconnectAttempts == old(reconnectAttempts)
      ensures scheduledReconnects == old(scheduledReconnects) && sent == old(sent) && closes == old(closes)
    {
      if m.Parsed? && Admits(store.preferences, m.typeName) {
        store.AddNotification(m.item);
        toasts := toasts + [m.item.message];
      }
    }

    /**
     * `onclose`, which is `attemptReconnect`: the socket is now closed, and a
     * reconnect is scheduled only while fewer than 5 were tried.
     */
    method OnClose()
      modifies this
      ensures old(reconnectAttempts) < MaxReconnectAttempts ==>
        reconnectAttempts == old(reconnectAttempts) + 1 && scheduledReconnects == old(scheduledReconnects) + 1
      ensures old(reconnectAttempts) >= MaxReconnectAttempts ==>
        reconnectAttempts == old(reconnectAttempts) && scheduledReconnects == old(scheduledReconnects)
      ensures old(Valid()) ==> Valid()
      ensures socket == (if old(socket).Socket? then Socket(Closed) else NoSocket)
      ensures sent == old(sent) && toasts == old(toasts)
      ensures closes == old(closes) && connectedAs == old(connectedAs)
    {
      if socket.Socket? {
        socket := Socket(Closed);
      }
      if reconnectAttempts < MaxReconnectAttempts {
        reconnectAttempts := reconnectAttempts + 1;
        scheduledReconnects := scheduledReconnects + 1;
      }
    }

    /**
     * `updatePreferences`: nothing changes unless the PUT succeeds; then the
     * store gets the preferences, an open socket is sent them, and they are
     * saved to local storage. On failure an error toast is shown.
     */
    method UpdatePreferences(p: Preferences, draw: nat -> Nibble, putOk: bool)
      modifies this, store, storage
      ensures putOk ==> store.preferences == p && storage.notificationPreferences == Some(p)
      ensures putOk ==> sent == old(sent) + (if socket == Socket(Open) then [p] else []) && toasts == old(toasts)
      ensures !putOk ==>
        store.preferences == old(store.preferences) && sent == old(sent)
        && storage.notificationPreferences == old(storage.notificationPreferences)
        && toasts == old(toasts) + [PreferencesUpdateFailed]
      ensures store.notifications == old(store.notifications) && store.unreadCount == old(store.unreadCount)
      ensures store.userId == old(store.userId)
      ensures Truthy(storage.anonUserId)
      ensures socket == old(socket) && reconnectAttempts == old(reconnectAttempts)
      ensures scheduledReconnects == old(scheduledReconnects) && closes == old(closes)
    {
      var anon := GetAnonUserId(storage, draw);
      if !putOk {
        toasts := toasts + [PreferencesUpdateFailed];
        return;
      }
      store.UpdatePreferences(p);
      if socket == Socket(Open) {
        sent := sent + [p];
      }
      storage.notificationPreferences := Some(p);
    }

    /**
     * `loadPreferences`: saved preferences are applied first; a backend answer
     * carrying preferences then wins and is saved. If the request fails, the
     * preferences the store holds at that point, which include the saved ones,
     * are applied again and saved.
     */
    method LoadPreferences(draw: nat -> Nibble, reply: Option<Option<Preferences>>)
      modifies this, store, storage
      ensures reply.Some? && reply.value.Some? ==>
        store.preferences == reply.value.value && storage.notificationPreferences == reply.value
      ensures reply.Some? && reply.value.None? ==>
        store.preferences == old(storage.notificationPreferences).GetOr(old(store.preferences))
        && storage.notificationPreferences == old(storage.notificationPreferences)
      ensures reply.None? ==>
        store.preferences == old(storage.notificationPreferences).GetOr(old(store.preferences))
        && storage.notificationPreferences == Some(store.preferences)
      ensures store.notifications == old(store.notifications) && store.unreadCount == old(store.unreadCount)
      ensures socket == old(socket) && sent == old(sent) && toasts == old(toasts)
      ensures reconnectAttempts == old(reconnectAttempts) && closes == old(closes)
    {
      var anon := GetAnonUserId(storage, draw);
      if storage.notificationPreferences.Some? {
        store.UpdatePreferences(storage.notificationPreferences.value);
      }
      match reply
      case None =>
        var defaults := store.preferences;
        store.UpdatePreferences(defaults);
        storage.notificationPreferences := Some(defaults);
      case Some(body) =>
        if body.Some? {
          store.UpdatePreferences(body.value);
          storage.notificationPreferences := body;
        }
    }

    /** `disconnect`: a present socket is closed and dropped; without one nothing happens. */
    method Disconnect()
      modifies this
      ensures socket == NoSocket
      ensures closes == old(closes) + (if old(socket).Socket? then 1 else 0)
      ensures reconnectAttempts == old(reconnectAttempts) && scheduledReconnects == old(scheduledReconnects)
      ensures sent == old(sent) && toasts == old(toasts) && connectedAs == old(connectedAs)
    {
      if socket.Socket? {
        closes := closes + 1;
        socket := NoSocket;
      }
    }
  }

  const PreferencesUpdateFailed: string := "Bildirim tercihleri güncellenirken bir hata oluştu"

  /** A second `disconnect` closes nothing more. */
  method DisconnectTwice(s: NotificationService)
    modifies s
    ensures s.socket == NoSocket
    ensures s.closes <= old(s.closes) + 1
  {
    s.Disconnect();
    s.Disconnect();
  }

  /**
   * Once a socket has opened, a successful preferences update is also sent
   * over it, after the preferences the opening sent.
   */
  method OpenThenUpdate(s: NotificationService, p: Preferences, draw: nat -> Nibble)
    requires s.socket.Socket?
    modifies s, s.store, s.storage
    ensures s.sent == old(s.sent) + [old(s.store.preferences), p]
    ensures s.store.preferences == p && s.socket == Socket(Open)
  {
    s.OnOpen();
    s.UpdatePreferences(p, draw, true);
  }
}
