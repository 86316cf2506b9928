/**
 * `GraphQLSubscriptionManager`: subscriptions indexed three ways (by id, by
 * the socket that owns them, and by the event type extracted from their
 * query), and the bookkeeping that keeps the three indexes in step.
 *
 * Subscription ids are random in the source; here the id is a parameter.  The
 * creation time is a parameter too; sending a broadcast is returning its text.
 */
module GraphQLSubscriptions {
  import opened Text
  import opened Wrappers
  import opened Seqs

  // ---------------------------------------------------------------------------
  // Event types
  // ---------------------------------------------------------------------------

  /** The event names `extract_event_type` looks for, in the order it tries them. */
  const EventPatterns: seq<string> := [
    "playerUpdated", "playerCreated", "playerDeleted",
    "roomUpdated", "roomCreated", "roomDeleted",
    "chatMessage", "systemMessage",
    "inventoryChanged", "statsChanged",
    "questUpdated", "questCompleted"]

  const DefaultEventType: string := "subscription"

  /** The first of `pats` that occurs in `s`. */
  function FirstContained(s: string, pats: seq<string>): (r: Option<string>)
    ensures r.Some? ==> r.value in pats && Contains(s, r.value)
    ensures r.Some? ==> exists k :: 0 <= k < |pats| && pats[k] == r.value && forall j :: 0 <= j < k ==> !Contains(s, pats[j])
    ensures r.None? ==> forall k :: 0 <= k < |pats| ==> !Contains(s, pats[k])
  {
    if pats == [] then None
    else if Contains(s, pats[0]) then Some(pats[0])
    else
      var r := FirstContained(s, pats[1..]);
      assert forall k :: 1 <= k < |pats| ==> pats[k] == pats[1..][k - 1];
      if r.Some? then
        var k :| 0 <= k < |pats[1..]| && pats[1..][k] == r.value && forall j :: 0 <= j < k ==> !Contains(s, pats[1..][j]);
        assert pats[k + 1] == r.value;
        r
      else r
  }

  /** A character of the regex class `\w`. */
  predicate IsWordChar(c: char)
  {
    IsAlnum(c) || c == '_'
  }

  /** The index after the `\s*` run starting at `i`. */
  function SkipSpaces(s: string, i: nat): (j: nat)
    requires i <= |s|
    ensures i <= j <= |s| && (j < |s| ==> !IsSpace(s[j]))
    ensures forall k :: i <= k < j ==> IsSpace(s[k])
    decreases |s| - i
  {
    if i < |s| && IsSpace(s[i]) then SkipSpaces(s, i + 1) else i
  }

  /** The length of the `\w+` run starting at `i` (0 when there is none). */
  function WordRun(s: string, i: nat): (n: nat)
    requires i <= |s|
    ensures i + n <= |s| && forall k :: i <= k < i + n ==> IsWordChar(s[k])
    ensures i + n < |s| ==> !IsWordChar(s[i + n])
    decreases |s| - i
  {
    if i < |s| && IsWordChar(s[i]) then 1 + WordRun(s, i + 1) else 0
  }

  /**
   * The group of `subscription\s*\{?\s*(\w+)` matched at index `i`.  The three
   * character classes are disjoint, so the match, when there is one, is unique.
   */
  function FieldAt(s: string, i: nat): (r: Option<string>)
    ensures r.Some? ==> (OccursAt(s, DefaultEventType, i) && |r.value| > 0
      && forall k :: 0 <= k < |r.value| ==> IsWordChar(r.value[k]))
  {
    if !OccursAt(s, DefaultEventType, i) then None
    else
      var j := SkipSpaces(s, i + |DefaultEventType|);
      var j2 := if j < |s| && s[j] == '{' then j + 1 else j;
      var k := SkipSpaces(s, j2);
      var n := WordRun(s, k);
      if n > 0 then Some(s[k..k + n]) else None
  }

  /** `regex_search`: the leftmost match at or after `i`. */
  function FieldFrom(s: string, i: nat): (r: Option<string>)
    ensures r.Some? ==> |r.value| > 0 && forall k :: 0 <= k < |r.value| ==> IsWordChar(r.value[k])
    decreases |s| - i
  {
    if i > |s| then None
    else
      match FieldAt(s, i)
      case Some(f) => Some(f)
      case None => FieldFrom(s, i + 1)
  }

  /** With no `subscription` in the text from `i` on, the regex finds nothing. */
  lemma {:induction false} NoFieldWithoutKeyword(s: string, i: nat)
    requires forall k :: i <= k ==> !OccursAt(s, DefaultEventType, k)
    ensures FieldFrom(s, i).None?
    decreases |s| - i
  {
    if i <= |s| {
      NoFieldWithoutKeyword(s, i + 1);
    }
  }

  /**
   * `extract_event_type`: the first known event name in the query, else the
   * field after the `subscription` keyword, else "subscription".
   */
  function ExtractEventType(query: string): (t: string)
    ensures |t| > 0
    ensures FirstContained(query, EventPatterns).Some? ==> t == FirstContained(query, EventPatterns).value
    ensures t in EventPatterns || forall k :: 0 <= k < |EventPatterns| ==> !Contains(query, EventPatterns[k])
  {
    match FirstContained(query, EventPatterns)
    case Some(p) => p
    case None =>
      match FieldFrom(query, 0)
      case Some(f) => f
      case None => DefaultEventType
  }

  /** A query that names no known event and has no `subscription` keyword gets the default type. */
  lemma DefaultEventTypeWhenNothingMatches(query: string)
    requires forall k :: 0 <= k < |EventPatterns| ==> !Contains(query, EventPatterns[k])
    requires !Contains(query, DefaultEventType)
    ensures ExtractEventType(query) == DefaultEventType
  {
    forall k | 0 <= k
      ensures !OccursAt(query, DefaultEventType, k)
    {
    }
    NoFieldWithoutKeyword(query, 0);
  }

  // ---------------------------------------------------------------------------
  // The three indexes
  // ---------------------------------------------------------------------------

  datatype Subscription = Subscription(
    id: string,
    socketFd: int,
    query: string,
    eventType: string,
    variables: map<string, string>,
    createdAt: int)

  /** `subscriptions_`, `socket_subscriptions_` and `event_subscriptions_`. */
  datatype Index = Index(
    subs: map<string, Subscription>,
    bySocket: map<int, seq<string>>,
    byEvent: map<string, seq<string>>)

  const EmptyIndex := Index(map[], map[], map[])

  /**
   * The indexes agree: every subscription is listed under its socket and its
   * (non-empty) event type, and every listed id is a subscription of that
   * socket or event type.
   */
  ghost predicate Valid(ix: Index)
  {
    SubsListed(ix) && SocketListsSound(ix) && EventListsSound(ix)
  }

  ghost predicate SubsListed(ix: Index)
  {
    forall id :: id in ix.subs ==> (ix.subs[id].id == id
      && ix.subs[id].socketFd in ix.bySocket && id in ix.bySocket[ix.subs[id].socketFd]
      && (ix.subs[id].eventType != "" ==> (ix.subs[id].eventType in ix.byEvent
          && id in ix.byEvent[ix.subs[id].eventType])))
  }

  ghost predicate SocketListsSound(ix: Index)
  {
    forall fd, id :: fd in ix.bySocket && id in ix.bySocket[fd] ==> id in ix.subs && ix.subs[id].socketFd == fd
  }

  ghost predicate EventListsSound(ix: Index)
  {
    "" !in ix.byEvent
    && forall t, id :: t in ix.byEvent && id in ix.byEvent[t] ==> id in ix.subs && ix.subs[id].eventType == t
  }

  /** The list under a key, empty when the key is absent. */
  function ListOf<K>(m: map<K, seq<string>>, k: K): seq<string>
  {
    if k in m then m[k] else []
  }

  /** Removes `id` from the list under `k`, and the entry itself once its list is empty. */
  function Unlisted<K(!new)>(m: map<K, seq<string>>, k: K, id: string): (r: map<K, seq<string>>)
    ensures forall j :: j in r ==> j in m
    ensures forall j :: j in m && j != k ==> j in r && r[j] == m[j]
    ensures k in r ==> r[k] == Erase(m[k], id) && r[k] != []
    ensures k in m && k !in r ==> Erase(m[k], id) == []
  {
    if k !in m then m
    else
      var l := Erase(m[k], id);
      if l == [] then m - {k} else m[k := l]
  }

  /** `create_subscription` with the generated id. */
  function Created(ix: Index, id: string, fd: int, query: string, variables: map<string, string>, now: int)
    : (r: Index)
    ensures id in r.subs && r.subs[id].socketFd == fd && r.subs[id].eventType == ExtractEventType(query)
    ensures fd in r.bySocket && r.bySocket[fd] == ListOf(ix.bySocket, fd) + [id]
    ensures var t := ExtractEventType(query); t in r.byEvent && r.byEvent[t] == ListOf(ix.byEvent, t) + [id]
  {
    var t := ExtractEventType(query);
    var sub := Subscription(id, fd, query, t, variables, now);
    Index(ix.subs[id := sub],
      ix.bySocket[fd := ListOf(ix.bySocket, fd) + [id]],
      if t != "" then ix.byEvent[t := ListOf(ix.byEvent, t) + [id]] else ix.byEvent)
  }

  /** A subscription with a new id keeps the indexes in step. */
  lemma CreatedValid(ix: Index, id: string, fd: int, query: string, variables: map<string, string>, now: int)
    requires Valid(ix) && id !in ix.subs
    ensures Valid(Created(ix, id, fd, query, variables, now))
    ensures Created(ix, id, fd, query, variables, now).subs == ix.subs[id := Created(ix, id, fd, query, variables, now).subs[id]]
  {
    var r := Created(ix, id, fd, query, variables, now);
    var t := ExtractEventType(query);
    forall f, j | f in r.bySocket && j in r.bySocket[f]
      ensures j in r.subs && r.subs[j].socketFd == f
    {
      if f == fd && j != id {
        assert j in ListOf(ix.bySocket, fd);
      }
    }
    forall e, j | e in r.byEvent && j in r.byEvent[e]
      ensures j in r.subs && r.subs[j].eventType == e
    {
      if e == t && j != id {
        assert j in ListOf(ix.byEvent, t);
      }
    }
  }

  /** `remove_subscription`: false and no change for an unknown id. */
  function Removed(ix: Index, id: string): (r: (bool, Index))
    ensures !r.0 <==> id !in ix.subs
    ensures !r.0 ==> r.1 == ix
    ensures r.1.subs == ix.subs - {id}
  {
    if id !in ix.subs then (false, ix)
    else
      var sub := ix.subs[id];
      var bySocket := Unlisted(ix.bySocket, sub.socketFd, id);
      var byEvent := if sub.eventType != "" then Unlisted(ix.byEvent, sub.eventType, id) else ix.byEvent;
      (true, Index(ix.subs - {id}, bySocket, byEvent))
  }

  /** Removal keeps the indexes in step and leaves the id in none of them. */
  lemma RemovedValid(ix: Index, id: string)
    requires Valid(ix)
    ensures var r := Removed(ix, id).1;
      Valid(r)
      && (forall fd :: fd in r.bySocket ==> id !in r.bySocket[fd])
      && (forall t :: t in r.byEvent ==> id !in r.byEvent[t])
  {
    if id in ix.subs {
      RemovedSubsListed(ix, id);
      var r := Removed(ix, id).1;
      assert SocketListsSound(r);
      assert EventListsSound(r);
    }
  }

  lemma RemovedSubsListed(ix: Index, id: string)
    requires Valid(ix) && id in ix.subs
    ensures SubsListed(Removed(ix, id).1)
  {
    var r := Removed(ix, id).1;
    var sub := ix.subs[id];
    forall j | j in r.subs
      ensures r.subs[j].socketFd in r.bySocket && j in r.bySocket[r.subs[j].socketFd]
    {
      var f := r.subs[j].socketFd;
      if f == sub.socketFd {
        assert j in Erase(ix.bySocket[f], id);
      }
    }
    forall j | j in r.subs && r.subs[j].eventType != ""
      ensures r.subs[j].eventType in r.byEvent && j in r.byEvent[r.subs[j].eventType]
    {
      var e := r.subs[j].eventType;
      if e == sub.eventType {
        assert j in Erase(ix.byEvent[e], id);
      }
    }
  }

  /** `register_connection`: an empty list for a socket not yet known. */
  function Registered(ix: Index, fd: int): (r: Index)
    ensures fd in r.bySocket && r.subs == ix.subs && r.byEvent == ix.byEvent
    ensures fd in ix.bySocket ==> r == ix
  {
    if fd in ix.bySocket then ix else ix.(bySocket := ix.bySocket[fd := []])
  }

  /** Registering is idempotent, keeps the indexes in step and makes the connection active. */
  lemma RegisteredTwice(ix: Index, fd: int)
    ensures Registered(Registered(ix, fd), fd) == Registered(ix, fd)
    ensures IsActive(Registered(ix, fd), fd)
    ensures Valid(ix) ==> Valid(Registered(ix, fd))
  {
  }

  /** `is_connection_active`: the socket has an entry, possibly empty. */
  predicate IsActive(ix: Index, fd: int)
  {
    fd in ix.bySocket
  }

  /** A subscription's own connection is always active, so a broadcast never removes it. */
  lemma SubscribedSocketActive(ix: Index, id: string)
    requires Valid(ix) && id in ix.subs
    ensures IsActive(ix, ix.subs[id].socketFd)
  {
  }

  /** The message `broadcast_to_subscription` sends. */
  function Message(id: string, data: string): string
  {
    "{\"id\":\"" + id + "\",\"type\":\"data\",\"payload\":" + data + "}"
  }

  /**
   * `broadcast_to_subscription`: nothing for an unknown id; a subscription
   * whose connection is gone is removed instead of served.
   */
  function Broadcast(ix: Index, id: string, data: string): (r: (Option<string>, Index))
    ensures Valid(ix) ==> r.1 == ix && (r.0.Some? <==> id in ix.subs)
    ensures r.0.Some? ==> r.0.value == Message(id, data)
  {
    if id !in ix.subs then (None, ix)
    else if !IsActive(ix, ix.subs[id].socketFd) then (None, Removed(ix, id).1)
    else (Some(Message(id, data)), ix)
  }

  /** The subscriptions `cleanup_expired_subscriptions` removes: older than an hour. */
  const MaxSubscriptionAge: int := 3600

  predicate Expired(sub: Subscription, now: int)
  {
    now - sub.createdAt > MaxSubscriptionAge
  }

  /** `remove_all_subscriptions` removes the ids listed under the socket, one by one. */
  function RemovedEach(ix: Index, ids: seq<string>): (r: Index)
    ensures r.subs == ix.subs - set i | 0 <= i < |ids| :: ids[i]
    decreases |ids|
  {
    if ids == [] then ix
    else
      var r := RemovedEach(Removed(ix, ids[0]).1, ids[1..]);
      assert (set i | 0 <= i < |ids| :: ids[i]) == {ids[0]} + set i | 0 <= i < |ids[1..]| :: ids[1..][i];
      r
  }

  lemma {:induction false} RemovedEachValid(ix: Index, ids: seq<string>)
    requires Valid(ix)
    ensures Valid(RemovedEach(ix, ids))
    decreases |ids|
  {
    if ids != [] {
      RemovedValid(ix, ids[0]);
      RemovedEachValid(Removed(ix, ids[0]).1, ids[1..]);
    }
  }

  /** `remove_all_subscriptions(fd)`: no subscription of `fd` is left, and every other one stays. */
  lemma RemovedAllOfSocket(ix: Index, fd: int)
    requires Valid(ix)
    ensures var r := RemovedEach(ix, ListOf(ix.bySocket, fd));
      Valid(r)
      && (forall id :: id in r.subs ==> r.subs[id].socketFd != fd)
      && (forall id :: id in ix.subs && ix.subs[id].socketFd != fd ==> id in r.subs && r.subs[id] == ix.subs[id])
  {
    var ids := ListOf(ix.bySocket, fd);
    RemovedEachValid(ix, ids);
    var r := RemovedEach(ix, ids);
    forall id | id in ix.subs && ix.subs[id].socketFd == fd
      ensures id !in r.subs
    {
      var k :| 0 <= k < |ids| && ids[k] == id;
    }
  }

  /** The subscription manager. */
  class SubscriptionManager {
    var subscriptions: map<string, Subscription>
    var socketSubscriptions: map<int, seq<string>>
    var eventSubscriptions: map<string, seq<string>>

    function Snapshot(): Index
      reads this
    {
      Index(subscriptions, socketSubscriptions, eventSubscriptions)
    }

    method SetIndex(ix: Index)
      modifies this
      ensures Snapshot() == ix
    {
      subscriptions, socketSubscriptions, eventSubscriptions := ix.subs, ix.bySocket, ix.byEvent;
    }

    constructor()
      ensures Snapshot() == EmptyIndex && Valid(Snapshot())
    {
      subscriptions, socketSubscriptions, eventSubscriptions := map[], map[], map[];
    }

    /** `create_subscription`; `id` is the freshly generated subscription id. */
    method CreateSubscription(fd: int, query: string, variables: map<string, string>, id: string, now: int)
      returns (r: string)
      modifies this
      ensures r == id && Snapshot() == Created(old(Snapshot()), id, fd, query, variables, now)
      ensures old(Valid(Snapshot())) && id !in old(subscriptions) ==> Valid(Snapshot())
    {
      if Valid(Snapshot()) && id !in subscriptions {
        CreatedValid(Snapshot(), id, fd, query, variables, now);
      }
      SetIndex(Created(Snapshot(), id, fd, query, variables, now));
      return id;
    }

    method RemoveSubscription(id: string) returns (ok: bool)
      modifies this
      ensures (ok, Snapshot()) == Removed(old(Snapshot()), id)
      ensures old(Valid(Snapshot())) ==> Valid(Snapshot())
    {
      if Valid(Snapshot()) {
        RemovedValid(Snapshot(), id);
      }
      var r := Removed(Snapshot(), id);
      ok := r.0;
      SetIndex(r.1);
    }

    /** `remove_all_subscriptions`, over a copy of the socket's list. */
    method RemoveAllSubscriptions(fd: int)
      modifies this
      ensures Snapshot() == RemovedEach(old(Snapshot()), ListOf(old(socketSubscriptions), fd))
    {
      if fd !in socketSubscriptions {
        return;
      }
      var ids := socketSubscriptions[fd];
      var i := 0;
      while i < |ids|
        invariant 0 <= i <= |ids|
        invariant RemovedEach(Snapshot(), ids[i..]) == RemovedEach(old(Snapshot()), ids)
      {
        assert ids[i..][1..] == ids[i + 1..];
        var _ := RemoveSubscription(ids[i]);
        i := i + 1;
      }
    }

    /** `broadcast_to_subscription`; the message is returned instead of sent. */
    method BroadcastToSubscription(id: string, data: string) returns (msg: Option<string>)
      modifies this
      ensures (msg, Snapshot()) == Broadcast(old(Snapshot()), id, data)
    {
      if id !in subscriptions {
        return None;
      }
      if !IsConnectionActive(subscriptions[id].socketFd) {
        var _ := RemoveSubscription(id);
        return None;
      }
      return Some(Message(id, data));
    }

    /** `broadcast_to_type`: one message per subscription of the event type, in list order. */
    method BroadcastToType(eventType: string, data: string) returns (msgs: seq<string>)
      modifies this
      requires Valid(Snapshot())
      ensures Snapshot() == old(Snapshot())
      ensures msgs == Messages(ListOf(eventSubscriptions, eventType), data)
    {
      msgs := [];
      if eventType !in eventSubscriptions {
        return;
      }
      ghost var ix := Snapshot();
      var ids := eventSubscriptions[eventType];
      assert forall j :: 0 <= j < |ids| ==> ids[j] in ix.subs by {
        assert eventType in ix.byEvent && ids == ix.byEvent[eventType];
      }
      var i := 0;
      while i < |ids|
        invariant 0 <= i <= |ids| && Snapshot() == ix
        invariant msgs == Messages(ids[..i], data)
      {
        var m := BroadcastToSubscription(ids[i], data);
        assert ids[..i + 1] == ids[..i] + [ids[i]];
        MessagesSnoc(ids[..i], ids[i], data);
        msgs := msgs + [m.value];
        i := i + 1;
      }
      assert ids[..i] == ids;
    }

    method RegisterConnection(fd: int)
      modifies this
      ensures Snapshot() == Registered(old(Snapshot()), fd)
    {
      if fd !in socketSubscriptions {
        socketSubscriptions := socketSubscriptions[fd := []];
      }
    }

    /** `unregister_connection`: the socket's subscriptions, then its entry, go. */
    method UnregisterConnection(fd: int)
      modifies this
      ensures Snapshot() == Unregistered(old(Snapshot()), fd)
    {
      RemoveAllSubscriptions(fd);
      socketSubscriptions := socketSubscriptions - {fd};
    }

    function IsConnectionActive(fd: int): (b: bool)
      reads this
      ensures b <==> IsActive(Snapshot(), fd)
    {
      fd in socketSubscriptions
    }

    function GetSubscriptionCount(): (n: nat)
      reads this
      ensures n == |subscriptions.Keys|
    {
      |subscriptions|
    }

    function GetConnectionCount(): (n: nat)
      reads this
      ensures n == |socketSubscriptions.Keys|
    {
      |socketSubscriptions|
    }

    /** `cleanup_expired_subscriptions`: removes every subscription older than an hour. */
    method CleanupExpiredSubscriptions(now: int)
      modifies this
      requires Valid(Snapshot())
      ensures Valid(Snapshot())
      ensures subscriptions == map id | id in old(subscriptions) && !Expired(old(subscriptions)[id], now)
                                 :: old(subscriptions)[id]
    {
      var expired := set id | id in subscriptions && Expired(subscriptions[id], now);
      ghost var kept := map id | id in subscriptions && !Expired(subscriptions[id], now) :: subscriptions[id];
      while expired != {}
        invariant Valid(Snapshot())
        invariant forall id :: id in subscriptions ==> id in kept || id in expired
        invariant forall id :: id in kept ==> id in subscriptions && subscriptions[id] == kept[id]
        invariant forall id :: id in expired ==> id !in kept
        decreases |expired|
      {
        var id :| id in expired;
        var _ := RemoveSubscription(id);
        expired := expired - {id};
      }
      assert subscriptions == kept;
    }
  }

  /** The messages for a list of subscriptions. */
  function Messages(ids: seq<string>, data: string): seq<string>
  {
    if ids == [] then [] else Messages(ids[..|ids| - 1], data) + [Message(ids[|ids| - 1], data)]
  }

  lemma MessagesSnoc(ids: seq<string>, id: string, data: string)
    ensures Messages(ids + [id], data) == Messages(ids, data) + [Message(id, data)]
  {
    assert (ids + [id])[..|ids|] == ids;
  }

  /** `unregister_connection`. */
  function Unregistered(ix: Index, fd: int): Index
  {
    var r := RemovedEach(ix, ListOf(ix.bySocket, fd));
    r.(bySocket := r.bySocket - {fd})
  }

  /** After unregistering, the connection is inactive and owns no subscription; the rest stays. */
  lemma UnregisteredClean(ix: Index, fd: int)
    requires Valid(ix)
    ensures var r := Unregistered(ix, fd);
      Valid(r) && !IsActive(r, fd)
      && (forall id :: id in r.subs ==> r.subs[id].socketFd != fd)
      && (forall id :: id in ix.subs && ix.subs[id].socketFd != fd ==> id in r.subs && r.subs[id] == ix.subs[id])
  {
    RemovedAllOfSocket(ix, fd);
  }

  /** `get_subscription_stats`: per event type the list length, plus the two totals. */
  function SubscriptionStats(ix: Index): (stats: map<string, int>)
    ensures "_total_subscriptions" in stats && stats["_total_subscriptions"] == |ix.subs.Keys|
    ensures "_total_connections" in stats && stats["_total_connections"] == |ix.bySocket.Keys|
    ensures forall t :: t in ix.byEvent && t != "_total_subscriptions" && t != "_total_connections" ==>
                          t in stats && stats[t] == |ix.byEvent[t]|
  {
    var perType := map t | t in ix.byEvent :: |ix.byEvent[t]|;
    perType["_total_subscriptions" := |ix.subs|]["_total_connections" := |ix.bySocket|]
  }
}
