/**
 * frontend/src/pages/Notifications.tsx: the notification list page. It
 * filters and pages the store's items, phrases each item by its type, looks
 * through localStorage for one match whose notifications the match page
 * switched on, and clears both the store and the match-notification keys.
 */
module NotificationsPage {
  import opened Wrappers
  import opened Text
  import opened Seqs
  import opened NotificationSlice
  import MatchesPage
  import LocalStorage

  // ---------------------------------------------------------------- filter and pages

  datatype ListFilter = AllItems | UnreadItems | LiveItems

  predicate IsMatchType(t: NotificationType) { t == MatchStart || t == ScoreChange || t == MatchEnd }

  /** The 'live' test (line 183). */
  predicate InLive(n: NotificationItem) { IsMatchType(n.kind) }

  /** The 'unread' test (line 186). */
  predicate InUnread(n: NotificationItem) { !n.read && IsMatchType(n.kind) }

  /** `filteredNotifications` (lines 180-187). */
  function Filtered(ns: seq<NotificationItem>, f: ListFilter): seq<NotificationItem> {
    match f
    case AllItems => ns
    case LiveItems => Filter(ns, InLive)
    case UnreadItems => Filter(ns, InUnread)
  }

  /**
   * The filters are nested, 'unread' inside 'live' inside 'all': 'live' keeps
   * exactly the three match types and 'unread' is the unread part of 'live'.
   */
  lemma FiltersNested(ns: seq<NotificationItem>)
    ensures forall n :: n in Filtered(ns, LiveItems) <==> n in ns && IsMatchType(n.kind)
    ensures forall n :: n in Filtered(ns, UnreadItems) ==> n in Filtered(ns, LiveItems)
    ensures Filtered(ns, UnreadItems) == Filter(Filtered(ns, LiveItems), IsUnread)
  {
    FilterMembers(ns, InLive);
    FilterMembers(ns, InUnread);
    FilterFilter(ns, InLive, IsUnread, InUnread);
  }

  /** Every filter keeps the order of the list. */
  lemma FilteredKeepsOrder(a: seq<NotificationItem>, b: seq<NotificationItem>, f: ListFilter)
    ensures Filtered(a + b, f) == Filtered(a, f) + Filtered(b, f)
  {
    FilterAppend(a, b, InLive);
    FilterAppend(a, b, InUnread);
  }

  const ItemsPerPage: int := 10

  /** `totalPages` (line 189). */
  function TotalPages(items: seq<NotificationItem>): int {
    CeilDiv(|items|, ItemsPerPage)
  }

  /** `currentNotifications` (lines 190-192). */
  function CurrentPage(items: seq<NotificationItem>, page: int): seq<NotificationItem> {
    Page(items, page, ItemsPerPage)
  }

  /**
   * `totalPages` is the least page count that holds the list, every page has at
   * most ten items, and pages 1..totalPages laid end to end are the list.
   */
  lemma Pagination(items: seq<NotificationItem>)
    ensures (TotalPages(items) - 1) * 10 < |items| <= TotalPages(items) * 10
    ensures forall p :: |CurrentPage(items, p)| <= 10
    ensures Pages(items, TotalPages(items), ItemsPerPage) == items
  {
    PagesCover(items, ItemsPerPage);
  }

  /** The page's own state: the current page and filter. */
  class ListView {
    var page: int
    var filter: ListFilter

    constructor ()
      ensures page == 1 && filter == AllItems
    {
      page := 1;
      filter := AllItems;
    }

    /** `handlePageChange` (lines 145-147). */
    method HandlePageChange(value: int)
      modifies this
      ensures page == value && filter == old(filter)
    {
      page := value;
    }

    /** `handleFilterChange` (lines 149-152): a new filter starts again at page 1. */
    method HandleFilterChange(f: ListFilter)
      modifies this
      ensures filter == f && page == 1
    {
      filter := f;
      page := 1;
    }
  }

  // ---------------------------------------------------------------- messages

  /** `getNotificationMessage` (lines 232-245). */
  function NotificationMessage(n: NotificationItem): string {
    match n.kind
    case MatchStart => n.title + " maçı başlamak üzere! " + n.message
    case ScoreChange => n.title + " maçında skor değişti! " + n.message
    case MatchEnd => n.title + " maçı sona erdi! " + n.message
    case _ => n.message
  }

  /**
   * Every phrasing ends with the item's own message; it is the bare message
   * exactly for the types outside the three match types.
   */
  lemma NotificationMessageShape(n: NotificationItem)
    ensures EndsWith(NotificationMessage(n), n.message)
    ensures NotificationMessage(n) == n.message <==> !IsMatchType(n.kind)
  {
    var r := NotificationMessage(n);
    assert r[|r| - |n.message|..] == n.message;
  }

  // ---------------------------------------------------------------- the localStorage scan

  const SettingsPrefix: string := "match_notifications_"
  const MessagePrefix: string := "match_notification_message_"
  const TimePrefix: string := "match_notification_time_"

  /** A stored settings object as `JSON.parse` returns it: the truthiness of `enabled` and the two round fields. */
  datatype StoredSettings = StoredSettings(enabled: bool, roundInfo: Option<string>, matchSeries: Option<string>)

  /** The item the scan builds (lines 129-136); its timestamp is an ISO text. */
  datatype LocalItem = LocalItem(id: string, title: string, message: string, timestamp: string, read: bool, kind: NotificationType)

  /**
   * What the page cannot see, as parameters: `parse` is `JSON.parse` (`None`
   * when it throws), `iso` is `new Date(t).toISOString()` (`None` when it
   * throws), `now` is `new Date().toISOString()` and `choose(n)` is
   * `Math.floor(Math.random() * n)`.
   */
  datatype Env = Env(parse: string -> Option<StoredSettings>, iso: string -> Option<string>, now: string, choose: nat -> nat)

  /** `localStorage.getItem(k)`, with `null` and "" both falsy. */
  function Item(storage: map<string, string>, k: string): string {
    if k in storage then storage[k] else ""
  }

  /** `${parts[0]}_${team1}_${team2}_${parts.slice(3).join('_')}` (line 122). */
  function RebuiltKey(parts: seq<string>): string
    requires |parts| >= 3
  {
    parts[0] + "_" + parts[1] + "_" + parts[2] + "_" + Join(parts[3..], '_')
  }

  /** `obj.round_info || obj.match_series || ''`. */
  function RoundOf(obj: StoredSettings): string {
    if Truthy(obj.roundInfo) then obj.roundInfo.value
    else if Truthy(obj.matchSeries) then obj.matchSeries.value
    else ""
  }

  /**
   * The message of the item the scan builds: the saved one, else a fresh importance
   * message from the pool the round selects; `Math.random() < 1` keeps the
   * drawn index below the pool's size, so the last branch is never taken.
   */
  function LocalMessage(saved: string, round: string, team1: string, team2: string, env: Env): string {
    var n := |MatchesPage.Pool(MatchesPage.CategoryOf(round))|;
    var pick := env.choose(n);
    if saved != "" then saved
    else if pick < n then MatchesPage.ImportanceMessage(round, team1, team2, pick)
    else ""
  }

  /** The pieces of a settings key after its prefix (line 117). */
  function KeyParts(key: string): seq<string> {
    Split(ReplaceFirst(key, SettingsPrefix, ""), '_')
  }

  /** A key the scan builds an item from: a settings key with enabled settings and at least three parts. */
  predicate Qualifies(storage: map<string, string>, key: string, env: Env) {
    StartsWith(key, SettingsPrefix) && Item(storage, key) != ""
    && env.parse(Item(storage, key)).Some? && env.parse(Item(storage, key)).value.enabled
    && |KeyParts(key)| >= 3
  }

  /** One pass of the loop body (lines 109-142): the item it builds, or `None` when the loop goes on. */
  function Candidate(storage: map<string, string>, key: string, env: Env): (r: Option<LocalItem>)
    ensures r.Some? ==> Qualifies(storage, key, env)
  {
    if !Qualifies(storage, key, env) then None
    else
      var obj := env.parse(Item(storage, key)).value;
      var parts := KeyParts(key);
      var team1, team2 := parts[1], parts[2];
      var uniqueKey := RebuiltKey(parts);
      var savedTime := Item(storage, TimePrefix + uniqueKey);
      var timestamp := if savedTime != "" then env.iso(savedTime) else Some(env.now);
      match timestamp
      case None => None
      case Some(t) =>
        var message := LocalMessage(Item(storage, MessagePrefix + uniqueKey), RoundOf(obj), team1, team2, env);
        Some(LocalItem("local_" + team1 + "_" + team2, team1 + " vs " + team2, message, t, true, MatchStart))
  }

  /** One pass of the loop body for each key. */
  function CandidateOf(storage: map<string, string>, env: Env): string -> Option<LocalItem> {
    k => Candidate(storage, k, env)
  }

  /** What a scan finds from key `i` on: the first key for which `step` gives an item, if any. */
  function FirstFound<T>(keys: seq<string>, i: nat, step: string -> Option<T>): Option<T>
    requires i <= |keys|
    decreases |keys| - i
  {
    if i == |keys| then None
    else if step(keys[i]).Some? then step(keys[i]) else FirstFound(keys, i + 1, step)
  }

  /** The `for` loop of lines 108-143, over the keys in `localStorage.key(i)` order, with its `break`. */
  method ScanLocalNotifications(keys: seq<string>, storage: map<string, string>, env: Env) returns (item: Option<LocalItem>)
    ensures item == FirstFound(keys, 0, CandidateOf(storage, env))
  {
    item := None;
    var i := 0;
    while i < |keys|
      invariant 0 <= i <= |keys|
      invariant FirstFound(keys, 0, CandidateOf(storage, env)) == FirstFound(keys, i, CandidateOf(storage, env))
    {
      var c := Candidate(storage, keys[i], env);
      if c.Some? {
        item := c;
        break;
      }
      i := i + 1;
    }
  }

  /**
   * A scan finds an item exactly when some key yields one, and then it is
   * the item of the first such key: earlier keys yield nothing.
   */
  lemma {:induction false} FirstFoundIsFirst<T>(keys: seq<string>, i: nat, step: string -> Option<T>)
    requires i <= |keys|
    ensures FirstFound(keys, i, step).Some? <==> exists j :: i <= j < |keys| && step(keys[j]).Some?
    ensures FirstFound(keys, i, step).Some? ==>
      exists j :: (i <= j < |keys| && FirstFound(keys, i, step) == step(keys[j])
        && (forall k :: i <= k < j ==> step(keys[k]).None?))
    decreases |keys| - i
  {
    if i < |keys| {
      FirstFoundIsFirst(keys, i + 1, step);
      if step(keys[i]).None? && FirstFound(keys, i, step).Some? {
        var j :| i + 1 <= j < |keys| && FirstFound(keys, i + 1, step) == step(keys[j])
          && (forall k :: i + 1 <= k < j ==> step(keys[k]).None?);
        assert forall k :: i <= k < j ==> step(keys[k]).None?;
      }
    }
  }

  /** The item is always read, of type matchStart, and titled by its two teams. */
  lemma CandidateShape(storage: map<string, string>, key: string, env: Env)
    ensures var c := Candidate(storage, key, env); c.Some? ==>
      var parts := KeyParts(key);
      c.value.read && c.value.kind == MatchStart
      && c.value.title == parts[1] + " vs " + parts[2] && c.value.id == "local_" + parts[1] + "_" + parts[2]
  {
  }

  /** A saved message becomes the built item's message as it is. */
  lemma SavedMessageWins(saved: string, round: string, team1: string, team2: string, env: Env)
    requires saved != ""
    ensures LocalMessage(saved, round, team1, team2, env) == saved
  {
  }

  // ---------------------------------------------------------------- keys written by the match page

  lemma SplitAfter(a: string, rest: string)
    requires '_' !in a
    ensures Split(a + "_" + rest, '_') == [a] + Split(rest, '_')
  {
    var s := a + "_" + rest;
    assert s[|a|] == '_';
    assert forall j :: 0 <= j < |a| ==> s[j] != '_' by {
      forall j | 0 <= j < |a| ensures s[j] != '_' { assert s[j] == a[j]; }
    }
    assert FirstIndexOfChar(s, '_') == |a|;
    assert s[..|a|] == a && s[|a| + 1..] == rest;
  }

  lemma PrefixRemoved(rest: string)
    ensures ReplaceFirst(SettingsPrefix + rest, SettingsPrefix, "") == rest
  {
    var k := SettingsPrefix + rest;
    assert OccursAt(k, SettingsPrefix, 0) by {
      assert k[0..|SettingsPrefix|] == SettingsPrefix;
    }
    assert k[|SettingsPrefix|..] == rest;
  }

  /** Rebuilding any split of four or more pieces gives back the text that was split. */
  lemma RebuiltKeyOfSplit(s: string)
    requires |Split(s, '_')| >= 4
    ensures RebuiltKey(Split(s, '_')) == s
  {
    RebuiltKeyIsJoin(Split(s, '_'));
    JoinSplit(s, '_');
  }

  lemma RebuiltKeyIsJoin(p: seq<string>)
    requires |p| >= 4
    ensures RebuiltKey(p) == Join(p, '_')
  {
    var p1, p2, p3 := p[1..], p[2..], p[3..];
    assert p1[1..] == p2 && p2[1..] == p3;
    JoinCons(p2, '_');
    JoinCons(p1, '_');
    JoinCons(p, '_');
    assert "_" == ['_'];
    Regroup(p[0], p[1], p[2], Join(p3, '_'), "_");
  }

  lemma Regroup(a: string, b: string, c: string, d: string, u: string)
    ensures a + u + b + u + c + u + d == a + u + (b + u + (c + u + d))
  {
    AppendAssoc(a + u + b + u, c + u, d);
    AppendAssoc(a + u, b + u, c + u + d);
    AppendAssoc(a, u, b + u + (c + u + d));
    AppendAssoc(b, u, c + u + d);
  }

  lemma JoinCons(p: seq<string>, c: char)
    requires |p| >= 2
    ensures Join(p, c) == p[0] + [c] + Join(p[1..], c)
  {
  }

  lemma UniqueKeyPieces(m: MatchesPage.Match)
    ensures |Split(MatchesPage.UniqueKey(m), '_')| >= 4
  {
    var a, b, c, d := Show(m.id), Show(m.team1), Show(m.team2), Show(OrElse(m.tournamentName, m.matchEvent));
    var k := MatchesPage.UniqueKey(m);
    assert k == a + ("_" + (b + ("_" + (c + ("_" + d)))));
    CountCharAppend(a, "_" + (b + ("_" + (c + ("_" + d)))), '_');
    CountCharAppend("_", b + ("_" + (c + ("_" + d))), '_');
    CountCharAppend(b, "_" + (c + ("_" + d)), '_');
    CountCharAppend("_", c + ("_" + d), '_');
    CountCharAppend(c, "_" + d, '_');
    CountCharAppend("_", d, '_');
    SplitCount(k, '_');
  }

  /**
   * For the settings key the match page writes, the scan's rebuilt key is the
   * match's own key, so it reads the message and time the match page saved
   * under it; when id and team names hold no '_', the parts it takes as team
   * names are the two team names.
   */
  lemma KeyRoundTrip(m: MatchesPage.Match)
    ensures var parts := KeyParts(SettingsPrefix + MatchesPage.UniqueKey(m));
      |parts| >= 4 && RebuiltKey(parts) == MatchesPage.UniqueKey(m)
    ensures '_' !in Show(m.id) && '_' !in Show(m.team1) && '_' !in Show(m.team2) ==>
      var parts := KeyParts(SettingsPrefix + MatchesPage.UniqueKey(m));
      parts[1] == Show(m.team1) && parts[2] == Show(m.team2)
  {
    var k := MatchesPage.UniqueKey(m);
    PrefixRemoved(k);
    UniqueKeyPieces(m);
    RebuiltKeyOfSplit(k);
    if '_' !in Show(m.id) && '_' !in Show(m.team1) && '_' !in Show(m.team2) {
      TeamParts(Show(m.id), Show(m.team1), Show(m.team2), Show(OrElse(m.tournamentName, m.matchEvent)));
    }
  }

  lemma TeamParts(a: string, b: string, c: string, d: string)
    requires '_' !in a && '_' !in b && '_' !in c
    ensures var p := Split(a + "_" + b + "_" + c + "_" + d, '_'); |p| >= 3 && p[1] == b && p[2] == c
  {
    assert a + "_" + b + "_" + c + "_" + d == a + "_" + (b + "_" + (c + "_" + d));
    SplitAfter(a, b + "_" + (c + "_" + d));
    SplitAfter(b, c + "_" + d);
    SplitAfter(c, d);
  }

  // ---------------------------------------------------------------- clear all

  /** A key of one of the three match-notification families (lines 168-170). */
  predicate IsMatchKey(k: string) {
    StartsWith(k, SettingsPrefix) || StartsWith(k, MessagePrefix) || StartsWith(k, TimePrefix)
  }

  /** The storage with the match-notification keys gone. */
  function WithoutMatchKeys(items: map<string, string>): (r: map<string, string>)
    ensures forall k :: k in r <==> k in items && !IsMatchKey(k)
    ensures forall k :: k in r ==> r[k] == items[k]
  {
    map k | k in items && !IsMatchKey(k) :: items[k]
  }

  function IdNotIn(ids: seq<string>): NotificationItem -> bool {
    (n: NotificationItem) => n.id !in ids
  }

  function Ids(ns: seq<NotificationItem>): (r: seq<string>)
    ensures |r| == |ns| && forall i :: 0 <= i < |ns| ==> r[i] == ns[i].id
  {
    if ns == [] then [] else [ns[0].id] + Ids(ns[1..])
  }

  lemma {:induction false} FilterNone(s: seq<NotificationItem>, p: NotificationItem -> bool)
    requires forall i :: 0 <= i < |s| ==> !p(s[i])
    ensures Filter(s, p) == []
  {
    if s != [] {
      FilterNone(s[1..], p);
    }
  }

  /**
   * How many items of `s` are unread and the first with their id: what the
   * per-item `removeNotification` calls take off the count, each call looking
   * only at the first remaining item with its id.
   */
  function FirstUnread(s: seq<NotificationItem>): nat {
    if s == [] then 0
    else
      var last := s[|s| - 1];
      FirstUnread(s[..|s| - 1]) + (if !last.read && last.id !in Ids(s[..|s| - 1]) then 1 else 0)
  }

  /**
   * `handleClearAll` (lines 162-178): every item of the list is removed from
   * the store one by one, then every match-notification key is removed from
   * localStorage; `keys` is `Object.keys(localStorage)`. The count drops once
   * per id whose first item was unread, so with unique ids a correct count
   * ends at 0.
   */
  method ClearAll(store: NotificationStore, storage: LocalStorage.Storage, keys: seq<string>)
    requires forall k :: k in keys <==> k in storage.items
    modifies store, storage
    ensures store.notifications == []
    ensures store.unreadCount == old(store.unreadCount) - FirstUnread(old(store.notifications))
    ensures old(store.Valid()) && UniqueIds(old(store.notifications)) ==> store.unreadCount == 0
    ensures storage.items == WithoutMatchKeys(old(storage.items))
    ensures store.preferences == old(store.preferences) && store.userId == old(store.userId)
  {
    RemoveListed(store);
    RemoveMatchKeys(storage, keys);
  }

  /** The first loop of `handleClearAll`: `removeNotification` for each item the list held. */
  method RemoveListed(store: NotificationStore)
    modifies store
    ensures store.notifications == []
    ensures store.unreadCount == old(store.unreadCount) - FirstUnread(old(store.notifications))
    ensures old(store.Valid()) && UniqueIds(old(store.notifications)) ==> store.unreadCount == 0
    ensures store.preferences == old(store.preferences) && store.userId == old(store.userId)
  {
    var snapshot := store.notifications;
    var ids := Ids(snapshot);
    FilterAll(snapshot, IdNotIn([]));
    assert ids[..0] == [];
    assert snapshot[..0] == [];
    var i := 0;
    while i < |snapshot|
      invariant 0 <= i <= |snapshot|
      invariant store.notifications == Filter(snapshot, IdNotIn(ids[..i]))
      invariant store.unreadCount == old(store.unreadCount) - FirstUnread(snapshot[..i])
      invariant store.preferences == old(store.preferences) && store.userId == old(store.userId)
    {
      RemoveOne(store, snapshot, i);
      i := i + 1;
    }
    assert ids[..i] == ids;
    assert snapshot[..i] == snapshot;
    AllIdsRemoved(snapshot);
    FirstUnreadCounts(snapshot);
  }

  /** One pass of the loop: `removeNotification(snapshot[i].id)`. */
  method RemoveOne(store: NotificationStore, snapshot: seq<NotificationItem>, i: nat)
    requires i < |snapshot|
    requires store.notifications == Filter(snapshot, IdNotIn(Ids(snapshot)[..i]))
    modifies store
    ensures store.notifications == Filter(snapshot, IdNotIn(Ids(snapshot)[..i + 1]))
    ensures store.unreadCount == old(store.unreadCount) - (FirstUnread(snapshot[..i + 1]) - FirstUnread(snapshot[..i]))
    ensures store.preferences == old(store.preferences) && store.userId == old(store.userId)
  {
    var ids := Ids(snapshot);
    var id := snapshot[i].id;
    ghost var current := store.notifications;
    ghost var f := FirstWithId(current, id);
    ghost var drop := if f >= 0 && !current[f].read then 1 else 0;
    RemoveStepCount(snapshot, i);
    assert FirstUnread(snapshot[..i + 1]) - FirstUnread(snapshot[..i]) == drop;
    store.RemoveNotification(id);
    assert store.unreadCount == old(store.unreadCount) - drop;
    RemovingOneMore(snapshot, ids[..i], id);
    IdsPrefixSnoc(snapshot, i);
  }

  lemma IdsPrefixSnoc(snapshot: seq<NotificationItem>, i: nat)
    requires i < |snapshot|
    ensures Ids(snapshot)[..i + 1] == Ids(snapshot)[..i] + [snapshot[i].id]
  {
    PrefixSnoc(Ids(snapshot), i);
  }

  lemma PrefixSnoc<T>(s: seq<T>, i: nat)
    requires i < |s|
    ensures s[..i + 1] == s[..i] + [s[i]]
  {
  }

  /**
   * One call of the loop: the first remaining item with the id of
   * `snapshot[i]` is that item when its id was not taken out before, and
   * there is none otherwise.
   */
  lemma RemoveStepCount(snapshot: seq<NotificationItem>, i: nat)
    requires i < |snapshot|
    ensures var current := Filter(snapshot, IdNotIn(Ids(snapshot)[..i]));
      var f := FirstWithId(current, snapshot[i].id);
      FirstUnread(snapshot[..i + 1]) == FirstUnread(snapshot[..i]) + (if f >= 0 && !current[f].read then 1 else 0)
  {
    var ids := Ids(snapshot);
    var p := IdNotIn(ids[..i]);
    FirstUnreadSnoc(snapshot, i);
    RemovedPrefix(snapshot, i);
    var post := snapshot[i..];
    assert post[0] == snapshot[i];
    if snapshot[i].id in ids[..i] {
      NoneWithTakenId(post, ids[..i], snapshot[i].id);
    } else {
      FirstKept(post, p);
    }
  }

  lemma FirstUnreadSnoc(snapshot: seq<NotificationItem>, i: nat)
    requires i < |snapshot|
    ensures FirstUnread(snapshot[..i + 1]) == FirstUnread(snapshot[..i])
      + (if !snapshot[i].read && snapshot[i].id !in Ids(snapshot)[..i] then 1 else 0)
  {
    var s := snapshot[..i + 1];
    assert s[..i] == snapshot[..i] && s[i] == snapshot[i];
    assert Ids(snapshot[..i]) == Ids(snapshot)[..i];
  }

  /** After `i` calls every item before index `i` is gone. */
  lemma RemovedPrefix(snapshot: seq<NotificationItem>, i: nat)
    requires i <= |snapshot|
    ensures Filter(snapshot, IdNotIn(Ids(snapshot)[..i])) == Filter(snapshot[i..], IdNotIn(Ids(snapshot)[..i]))
  {
    var ids := Ids(snapshot);
    var p := IdNotIn(ids[..i]);
    var pre := snapshot[..i];
    assert snapshot == pre + snapshot[i..];
    FilterAppend(pre, snapshot[i..], p);
    forall k | 0 <= k < |pre| ensures !p(pre[k]) {
      assert pre[k].id == ids[k];
    }
    FilterNone(pre, p);
  }

  lemma NoneWithTakenId(post: seq<NotificationItem>, taken: seq<string>, id: string)
    requires id in taken
    ensures FirstWithId(Filter(post, IdNotIn(taken)), id) == -1
  {
    var current := Filter(post, IdNotIn(taken));
    forall k | 0 <= k < |current| ensures current[k].id != id {
      assert IdNotIn(taken)(current[k]);
    }
  }

  lemma FirstKept(post: seq<NotificationItem>, p: NotificationItem -> bool)
    requires post != [] && p(post[0])
    ensures var current := Filter(post, p);
      FirstWithId(current, post[0].id) == 0 && current[0] == post[0]
  {
    assert Filter(post, p) == [post[0]] + Filter(post[1..], p);
  }

  /** The count the loop takes off: never more than the unread items, and all of them when ids are unique. */
  lemma {:induction false} FirstUnreadCounts(s: seq<NotificationItem>)
    ensures FirstUnread(s) <= UnreadCount(s)
    ensures UniqueIds(s) ==> FirstUnread(s) == UnreadCount(s)
  {
    if s != [] {
      var init, last := s[..|s| - 1], s[|s| - 1];
      FirstUnreadCounts(init);
      assert s == init + [last];
      FilterAppend(init, [last], IsUnread);
      assert Filter([last], IsUnread) == (if IsUnread(last) then [last] else []) + Filter([], IsUnread);
      if UniqueIds(s) {
        assert UniqueIds(init) by {
          forall a, b | 0 <= a < b < |init| ensures init[a].id != init[b].id {
            assert init[a] == s[a] && init[b] == s[b];
          }
        }
        forall k | 0 <= k < |init| ensures Ids(init)[k] != last.id {
          assert Ids(init)[k] == init[k].id == s[k].id;
        }
      }
    }
  }

  /** Two unread items with one id: clearing the list takes only one off the count. */
  lemma ClearAllDrift(a: NotificationItem)
    requires !a.read
    ensures FirstUnread([a, a]) == 1 && UnreadCount([a, a]) == 2
  {
    DuplicateIdsDrift(a);
    assert [a][..0] == [];
    assert FirstUnread([a]) == 1;
    assert [a, a][..1] == [a];
    assert a.id in Ids([a]);
  }

  /** Taking out every id of a list leaves nothing of it. */
  lemma AllIdsRemoved(s: seq<NotificationItem>)
    ensures Filter(s, IdNotIn(Ids(s))) == []
  {
    var ids := Ids(s);
    forall k | 0 <= k < |s| ensures !IdNotIn(ids)(s[k]) {
      assert ids[k] == s[k].id;
    }
    FilterNone(s, IdNotIn(ids));
  }

  /** The second loop of `handleClearAll`: every key with a match-notification prefix is removed. */
  method RemoveMatchKeys(storage: LocalStorage.Storage, keys: seq<string>)
    requires forall k :: k in keys <==> k in storage.items
    modifies storage
    ensures storage.items == WithoutMatchKeys(old(storage.items))
  {
    var before := storage.items;
    var j := 0;
    while j < |keys|
      invariant 0 <= j <= |keys|
      invariant forall k :: k in storage.items <==> k in before && !(IsMatchKey(k) && k in keys[..j])
      invariant forall k :: k in storage.items ==> storage.items[k] == before[k]
    {
      if IsMatchKey(keys[j]) {
        storage.RemoveItem(keys[j]);
      }
      assert keys[..j + 1] == keys[..j] + [keys[j]];
      j := j + 1;
    }
    assert keys[..j] == keys;
    assert storage.items == WithoutMatchKeys(before);
  }

  lemma RemovingOneMore(s: seq<NotificationItem>, ids: seq<string>, id: string)
    ensures WithoutId(Filter(s, IdNotIn(ids)), id) == Filter(s, IdNotIn(ids + [id]))
  {
    FilterFilter(s, IdNotIn(ids), OtherId(id), IdNotIn(ids + [id]));
  }
}
