/**
 * `EventNotifier` and `AsyncEventManager`: the eventfd-backed queue of
 * asynchronous external-process events, the set of sockets registered for
 * them, and the per-socket event queues the manager fills.
 *
 * The eventfd itself is not modelled: the descriptor `eventfd()` returns, the
 * outcome of writing to it and of polling it, and `time()` are parameters.
 */
module EventNotifier {
  import opened Seqs
  import opened Wrappers

  /** `AsyncEventType`, with the enumerators' bit values. */
  datatype EventType = ProcessReady | ProcessOutput | ProcessError | ProcessExited | FileChanged | CustomSignal
  {
    function Value(): nat
    {
      match this
      case ProcessReady => 1
      case ProcessOutput => 2
      case ProcessError => 4
      case ProcessExited => 8
      case FileChanged => 16
      case CustomSignal => 32
    }
  }

  /** `event_type_to_string`. */
  function EventTypeName(t: EventType): string
  {
    match t
    case ProcessReady => "process_ready"
    case ProcessOutput => "process_output"
    case ProcessError => "process_error"
    case ProcessExited => "process_exited"
    case FileChanged => "file_changed"
    case CustomSignal => "custom_signal"
  }

  const EventTypeNames: set<string> :=
    {"process_ready", "process_output", "process_error", "process_exited", "file_changed", "custom_signal"}

  /** `string_to_event_type`: an unknown name falls back to `PROCESS_READY`. */
  function ParseEventType(s: string): (t: EventType)
    ensures s !in EventTypeNames ==> t == ProcessReady
    ensures s in EventTypeNames ==> EventTypeName(t) == s
  {
    if s == "process_ready" then ProcessReady
    else if s == "process_output" then ProcessOutput
    else if s == "process_error" then ProcessError
    else if s == "process_exited" then ProcessExited
    else if s == "file_changed" then FileChanged
    else if s == "custom_signal" then CustomSignal
    else ProcessReady
  }

  /** Every event type survives the trip through its name. */
  lemma EventTypeNameRoundTrip(t: EventType)
    ensures ParseEventType(EventTypeName(t)) == t
  {
  }

  /** Distinct event types have distinct names. */
  lemma EventTypeNamesDistinct(t: EventType, u: EventType)
    requires EventTypeName(t) == EventTypeName(u)
    ensures t == u
  {
    EventTypeNameRoundTrip(t);
    EventTypeNameRoundTrip(u);
  }

  /** `get_optimal_timeout_ms`: the poll timeout for a number of pending events. */
  function OptimalTimeout(pending: nat): (ms: nat)
    ensures ms in {1, 10, 100}
    ensures ms == 100 <==> pending == 0
    ensures ms == 1 <==> pending >= 10
  {
    if pending == 0 then 100 else if pending < 10 then 10 else 1
  }

  /** More pending events never lengthen the timeout. */
  lemma OptimalTimeoutShrinks(a: nat, b: nat)
    requires a <= b
    ensures OptimalTimeout(b) <= OptimalTimeout(a)
  {
  }

  const U64: int := 0x1_0000_0000_0000_0000

  /** The conversion of an `int` or `size_t` to `uint64_t`. */
  function ToU64(x: int): (v: nat)
    ensures v < U64 && (0 <= x < U64 ==> v == x)
  {
    x % U64
  }

  /** `AsyncEvent`. */
  datatype AsyncEvent = AsyncEvent(socketFd: int, eventType: EventType, value: nat, data: string, timestamp: int)

  /** The socket of a global event. */
  const NoSocket: int := -1

  function Of(fd: int): AsyncEvent -> bool
  {
    (e: AsyncEvent) => e.socketFd == fd
  }

  function NotOf(fd: int): AsyncEvent -> bool
  {
    (e: AsyncEvent) => e.socketFd != fd
  }

  const MaxEventAge: int := 60

  function Recent(now: int): AsyncEvent -> bool
  {
    (e: AsyncEvent) => now - e.timestamp <= MaxEventAge
  }

  /**
   * `queue_event`: when the queue holds `max` events or more, its oldest event
   * is dropped before the new one is appended.  Erasing from an empty queue
   * (a maximum of 0) is undefined in C++; the model then only appends.
   */
  function Enqueued(pending: seq<AsyncEvent>, e: AsyncEvent, max: nat): (r: seq<AsyncEvent>)
    ensures |r| == if |pending| >= max && |pending| > 0 then |pending| else |pending| + 1
    ensures r[|r| - 1] == e
    ensures r == (pending + [e])[|pending| + 1 - |r|..]
  {
    if |pending| >= max && |pending| > 0 then pending[1..] + [e]
    else (assert (pending + [e])[0..] == pending + [e]; pending + [e])
  }

  /** A queue within its maximum stays within it, and keeps the newest events. */
  lemma EnqueuedBounded(pending: seq<AsyncEvent>, e: AsyncEvent, max: nat)
    requires max > 0 && |pending| <= max
    ensures |Enqueued(pending, e, max)| <= max
    ensures Enqueued(pending, e, max) == LastN(pending + [e], max)
  {
  }

  /** After the maximum is lowered below the queue's size, one push drops only one event. */
  lemma LoweredMaximumNotRestored(pending: seq<AsyncEvent>, e: AsyncEvent, max: nat)
    requires |pending| > max + 1
    ensures |Enqueued(pending, e, max)| > max
  {
  }

  const DefaultMaxPendingEvents: nat := 500

  /** `EventNotifier`. */
  class Notifier {
    var eventFd: int
    var registered: set<int>
    var pending: seq<AsyncEvent>
    var fileIntegration: bool
    var maxPending: nat
    var totalProcessed: nat

    function IsInitialized(): (b: bool)
      reads this
      ensures b <==> eventFd != -1
    {
      eventFd != -1
    }

    function HasPendingEvents(): (b: bool)
      reads this
      ensures b <==> |pending| > 0
    {
      pending != []
    }

    /** Everything but the pending queue is as it was. */
    twostate predicate OnlyPendingChanged()
      reads this
    {
      eventFd == old(eventFd) && registered == old(registered) && maxPending == old(maxPending)
      && totalProcessed == old(totalProcessed) && fileIntegration == old(fileIntegration)
    }

    /**
     * The notifier after `signal_socket_event(fd, e)` reported `ok` for an
     * eventfd write that `written` says succeeded.
     */
    twostate predicate SocketSignalled(fd: int, e: AsyncEvent, written: bool, ok: bool)
      reads this
    {
      OnlyPendingChanged()
      && if old(eventFd) != -1 && fd in old(registered)
         then ok == written && pending == Enqueued(old(pending), e, maxPending)
         else !ok && pending == old(pending)
    }

    /** The pending queue is within its maximum. */
    ghost predicate Bounded()
      reads this
    {
      maxPending > 0 ==> |pending| <= maxPending
    }

    constructor()
      ensures eventFd == -1 && registered == {} && pending == [] && !fileIntegration
      ensures maxPending == DefaultMaxPendingEvents && totalProcessed == 0
    {
      eventFd := -1;
      registered := {};
      pending := [];
      fileIntegration := false;
      maxPending := DefaultMaxPendingEvents;
      totalProcessed := 0;
    }

    /**
     * `initialize`; `created` is what `eventfd()` returns.  An initialized
     * notifier is left alone; a fresh one starts with nothing registered or pending.
     */
    method Initialize(created: int) returns (ok: bool)
      modifies this
      ensures old(eventFd) != -1 ==> ok && unchanged(this)
      ensures old(eventFd) == -1 && created == -1 ==> !ok && unchanged(this)
      ensures old(eventFd) == -1 && created != -1 ==> (ok && eventFd == created && pending == []
        && registered == {} && totalProcessed == 0
        && fileIntegration == old(fileIntegration) && maxPending == old(maxPending))
    {
      if eventFd != -1 {
        return true;
      }
      if created == -1 {
        return false;
      }
      eventFd := created;
      pending := [];
      registered := {};
      totalProcessed := 0;
      return true;
    }

    /** `shutdown`: closes the eventfd and forgets everything but the statistics. */
    method Shutdown()
      modifies this
      ensures old(eventFd) == -1 ==> unchanged(this)
      ensures old(eventFd) != -1 ==> (eventFd == -1 && pending == [] && registered == {} && !fileIntegration
        && maxPending == old(maxPending) && totalProcessed == old(totalProcessed))
    {
      if eventFd != -1 {
        eventFd := -1;
        pending := [];
        registered := {};
        fileIntegration := false;
      }
    }

    /** `signal_event`: a global event (socket -1); `written` is whether the eventfd write succeeded. */
    method SignalEvent(t: EventType, value: nat, now: int, written: bool) returns (ok: bool)
      modifies this
      ensures old(eventFd) == -1 ==> !ok && unchanged(this)
      ensures old(eventFd) != -1 ==> (ok == written
        && pending == Enqueued(old(pending), AsyncEvent(NoSocket, t, value, "", now), maxPending))
      ensures eventFd == old(eventFd) && registered == old(registered) && maxPending == old(maxPending)
      ensures totalProcessed == old(totalProcessed) && fileIntegration == old(fileIntegration)
    {
      if eventFd == -1 {
        return false;
      }
      pending := Enqueued(pending, AsyncEvent(NoSocket, t, value, "", now), maxPending);
      return written;
    }

    /** `signal_socket_event`: only a registered socket of an initialized notifier gets an event. */
    method SignalSocketEvent(fd: int, t: EventType, value: nat, now: int, written: bool) returns (ok: bool)
      modifies this
      ensures old(eventFd) == -1 || fd !in old(registered) ==> !ok && unchanged(this)
      ensures old(eventFd) != -1 && fd in old(registered) ==> (ok == written
        && pending == Enqueued(old(pending), AsyncEvent(fd, t, value, "", now), maxPending))
      ensures eventFd == old(eventFd) && registered == old(registered) && maxPending == old(maxPending)
      ensures totalProcessed == old(totalProcessed) && fileIntegration == old(fileIntegration)
    {
      if eventFd == -1 || fd !in registered {
        return false;
      }
      pending := Enqueued(pending, AsyncEvent(fd, t, value, "", now), maxPending);
      return written;
    }

    /** `get_pending_events`: hands over the whole queue and counts it as processed. */
    method GetPendingEvents() returns (events: seq<AsyncEvent>)
      modifies this
      ensures events == old(pending) && pending == []
      ensures totalProcessed == old(totalProcessed) + |events|
      ensures eventFd == old(eventFd) && registered == old(registered) && maxPending == old(maxPending)
      ensures fileIntegration == old(fileIntegration)
    {
      events := [];
      if pending != [] {
        events := pending;
        pending := [];
        totalProcessed := totalProcessed + |events|;
      }
    }

    /** `register_socket`: negative descriptors are refused. */
    method RegisterSocket(fd: int) returns (ok: bool)
      modifies this
      ensures ok <==> fd >= 0
      ensures registered == if fd >= 0 then old(registered) + {fd} else old(registered)
      ensures eventFd == old(eventFd) && pending == old(pending) && maxPending == old(maxPending)
      ensures totalProcessed == old(totalProcessed) && fileIntegration == old(fileIntegration)
    {
      if fd < 0 {
        return false;
      }
      registered := registered + {fd};
      return true;
    }

    /** `unregister_socket`: the socket and its pending events go; the rest stay in order. */
    method UnregisterSocket(fd: int)
      modifies this
      ensures registered == old(registered) - {fd}
      ensures pending == Filter(old(pending), NotOf(fd))
      ensures eventFd == old(eventFd) && maxPending == old(maxPending)
      ensures totalProcessed == old(totalProcessed) && fileIntegration == old(fileIntegration)
    {
      registered := registered - {fd};
      pending := Filter(pending, NotOf(fd));
    }

    method UnregisterAllSockets()
      modifies this
      ensures registered == {} && pending == []
      ensures eventFd == old(eventFd) && maxPending == old(maxPending)
      ensures totalProcessed == old(totalProcessed) && fileIntegration == old(fileIntegration)
    {
      registered := {};
      pending := [];
    }

    method EnableFileEventIntegration(enable: bool) returns (ok: bool)
      modifies this
      ensures ok && fileIntegration == enable
      ensures eventFd == old(eventFd) && registered == old(registered) && pending == old(pending)
      ensures maxPending == old(maxPending) && totalProcessed == old(totalProcessed)
    {
      fileIntegration := enable;
      return true;
    }

    method SetMaxPendingEvents(max: nat)
      modifies this
      ensures maxPending == max
      ensures eventFd == old(eventFd) && registered == old(registered) && pending == old(pending)
      ensures totalProcessed == old(totalProcessed) && fileIntegration == old(fileIntegration)
    {
      maxPending := max;
    }

    /** `cleanup_old_events`: drops the events older than 60 seconds, keeping the order of the rest. */
    method CleanupOldEvents(now: int)
      modifies this
      ensures pending == Filter(old(pending), Recent(now))
      ensures eventFd == old(eventFd) && registered == old(registered) && maxPending == old(maxPending)
      ensures totalProcessed == old(totalProcessed) && fileIntegration == old(fileIntegration)
    {
      pending := Filter(pending, Recent(now));
    }
  }

  /** Unregistering a socket leaves no event of it, and every other socket's events as they were. */
  lemma UnregisterKeepsOthers(pending: seq<AsyncEvent>, fd: int, other: int)
    requires other != fd
    ensures Filter(Filter(pending, NotOf(fd)), Of(fd)) == []
    ensures Filter(Filter(pending, NotOf(fd)), Of(other)) == Filter(pending, Of(other))
  {
    FilterFiner(pending, NotOf(fd), Of(other));
    NoneLeft(Filter(pending, NotOf(fd)), fd);
  }

  lemma {:induction false} NoneLeft(s: seq<AsyncEvent>, fd: int)
    requires forall k :: 0 <= k < |s| ==> s[k].socketFd != fd
    ensures Filter(s, Of(fd)) == []
  {
    if s != [] {
      NoneLeft(s[1..], fd);
    }
  }

  /** An event for a socket only reaches the queue by a signal for that socket. */
  lemma SignalLeavesOthers(pending: seq<AsyncEvent>, e: AsyncEvent, max: nat, other: int)
    requires e.socketFd != other && |pending| < max
    ensures Filter(Enqueued(pending, e, max), Of(other)) == Filter(pending, Of(other))
  {
    FilterAppend(pending, [e], Of(other));
  }

  const MaxSocketEvents: nat := 100

  /** `queue_socket_event`: a socket's queue drops its oldest event once it holds 100. */
  function SocketQueued(events: seq<AsyncEvent>, e: AsyncEvent): (r: seq<AsyncEvent>)
    ensures |r| > 0 && r[|r| - 1] == e
    ensures |events| <= MaxSocketEvents ==> |r| <= MaxSocketEvents
  {
    if |events| >= MaxSocketEvents then events[1..] + [e] else events + [e]
  }

  /** A socket's queue keeps its newest 100 events. */
  lemma SocketQueuedKeepsNewest(events: seq<AsyncEvent>, e: AsyncEvent)
    requires |events| <= MaxSocketEvents
    ensures SocketQueued(events, e) == PushBounded(events, e, MaxSocketEvents)
  {
  }

  /** A socket's queue after `queue_socket_event` for each of `xs`, in order. */
  function SocketQueuedInTurn(events: seq<AsyncEvent>, xs: seq<AsyncEvent>): seq<AsyncEvent>
  {
    if xs == [] then events else SocketQueued(SocketQueuedInTurn(events, xs[..|xs| - 1]), xs[|xs| - 1])
  }

  /** Keeping the newest of a list, then the newest after one more, keeps the newest of the whole. */
  lemma LastNPush<T>(s: seq<T>, x: T, cap: nat)
    requires cap > 0
    ensures LastN(LastN(s, cap) + [x], cap) == LastN(s + [x], cap)
  {
    var t := LastN(s, cap);
    assert t + [x] == (s + [x])[|s + [x]| - |t + [x]|..];
  }

  /** Appending a non-empty list is appending its front, then its last element. */
  lemma AppendSnoc<T>(a: seq<T>, xs: seq<T>)
    requires xs != []
    ensures a + xs == (a + xs[..|xs| - 1]) + [xs[|xs| - 1]]
  {
    assert xs == xs[..|xs| - 1] + [xs[|xs| - 1]];
  }

  /** However many events are queued in turn, the socket keeps the newest 100 of them all. */
  lemma {:induction false} SocketQueuedInTurnNewest(events: seq<AsyncEvent>, xs: seq<AsyncEvent>)
    requires |events| <= MaxSocketEvents
    ensures SocketQueuedInTurn(events, xs) == LastN(events + xs, MaxSocketEvents)
  {
    if xs == [] {
      assert events + xs == events;
    } else {
      var n := |xs| - 1;
      SocketQueuedInTurnNewest(events, xs[..n]);
      var before := SocketQueuedInTurn(events, xs[..n]);
      SocketQueuedKeepsNewest(before, xs[n]);
      LastNPush(events + xs[..n], xs[n], MaxSocketEvents);
      AppendSnoc(events, xs);
    }
  }

  /** Queueing one more of `xs` in turn queues its next element. */
  lemma SocketQueuedInTurnNext(events: seq<AsyncEvent>, xs: seq<AsyncEvent>, i: nat)
    requires i < |xs|
    ensures SocketQueuedInTurn(events, xs[..i + 1]) == SocketQueued(SocketQueuedInTurn(events, xs[..i]), xs[i])
  {
    assert xs[..i + 1][..i] == xs[..i];
  }

  /** The notifier's queue after `queue_event` for each of `xs`, in order. */
  function EnqueuedInTurn(pending: seq<AsyncEvent>, xs: seq<AsyncEvent>, max: nat): seq<AsyncEvent>
  {
    if xs == [] then pending else Enqueued(EnqueuedInTurn(pending, xs[..|xs| - 1], max), xs[|xs| - 1], max)
  }

  /** However many events are queued in turn, a queue within its maximum keeps the newest `max` of them all. */
  lemma {:induction false} EnqueuedInTurnNewest(pending: seq<AsyncEvent>, xs: seq<AsyncEvent>, max: nat)
    requires max > 0 && |pending| <= max
    ensures EnqueuedInTurn(pending, xs, max) == LastN(pending + xs, max)
  {
    if xs == [] {
      assert pending + xs == pending;
    } else {
      var n := |xs| - 1;
      EnqueuedInTurnNewest(pending, xs[..n], max);
      var before := EnqueuedInTurn(pending, xs[..n], max);
      EnqueuedBounded(before, xs[n], max);
      LastNPush(pending + xs[..n], xs[n], max);
      AppendSnoc(pending, xs);
    }
  }

  /** Queueing one more of `xs` in turn queues its next element. */
  lemma EnqueuedInTurnNext(pending: seq<AsyncEvent>, xs: seq<AsyncEvent>, max: nat, i: nat)
    requires i < |xs|
    ensures EnqueuedInTurn(pending, xs[..i + 1], max) == Enqueued(EnqueuedInTurn(pending, xs[..i], max), xs[i], max)
  {
    assert xs[..i + 1][..i] == xs[..i];
  }

  /** The queue of a socket, empty when it has none. */
  function EventsOf(queues: map<int, seq<AsyncEvent>>, fd: int): seq<AsyncEvent>
  {
    if fd in queues then queues[fd] else []
  }

  /** The oldest event of a socket among `events`. */
  function FirstOf(events: seq<AsyncEvent>, fd: int): (r: Option<AsyncEvent>)
    ensures r.Some? ==> r.value in events && r.value.socketFd == fd
  {
    if events == [] then None
    else if events[0].socketFd == fd then Some(events[0])
    else FirstOf(events[1..], fd)
  }

  /** One more event only matters to a socket that had none before it. */
  lemma {:induction false} FirstOfSnoc(events: seq<AsyncEvent>, e: AsyncEvent, fd: int)
    ensures FirstOf(events + [e], fd)
      == if FirstOf(events, fd).Some? then FirstOf(events, fd) else if e.socketFd == fd then Some(e) else None
  {
    if events != [] {
      assert (events + [e])[1..] == events[1..] + [e];
      FirstOfSnoc(events[1..], e, fd);
    }
  }

  /**
   * A socket's queue after `process_async_events` delivered `events`: the
   * socket's first event is queued; the global socket -1 gets nothing.
   */
  function Delivered(queue: seq<AsyncEvent>, events: seq<AsyncEvent>, fd: int): seq<AsyncEvent>
  {
    var first := FirstOf(events, fd);
    if fd != NoSocket && first.Some? then SocketQueued(queue, first.value) else queue
  }

  /** `queues` is `start` after delivering `done`, and `seen` the sockets that got an event. */
  ghost predicate DeliveryUpTo(start: map<int, seq<AsyncEvent>>, queues: map<int, seq<AsyncEvent>>,
                               seen: set<int>, done: seq<AsyncEvent>)
  {
    (forall fd :: fd in seen <==> fd != NoSocket && FirstOf(done, fd).Some?)
    && forall fd :: EventsOf(queues, fd) == Delivered(EventsOf(start, fd), done, fd)
  }

  /** Whether the delivery loop queues `x`: its socket is not -1 and has had no event yet. */
  predicate Fresh(seen: set<int>, x: AsyncEvent)
  {
    x.socketFd != NoSocket && x.socketFd !in seen
  }

  function StepQueues(queues: map<int, seq<AsyncEvent>>, seen: set<int>, x: AsyncEvent): map<int, seq<AsyncEvent>>
  {
    if Fresh(seen, x) then queues[x.socketFd := SocketQueued(EventsOf(queues, x.socketFd), x)] else queues
  }

  function StepSeen(seen: set<int>, x: AsyncEvent): set<int>
  {
    if Fresh(seen, x) then seen + {x.socketFd} else seen
  }

  /** One step of the delivery loop, for one socket. */
  lemma DeliveryStepAt(start: map<int, seq<AsyncEvent>>, queues: map<int, seq<AsyncEvent>>,
                       seen: set<int>, done: seq<AsyncEvent>, x: AsyncEvent, fd: int)
    requires fd in seen <==> fd != NoSocket && FirstOf(done, fd).Some?
    requires EventsOf(queues, fd) == Delivered(EventsOf(start, fd), done, fd)
    ensures fd in StepSeen(seen, x) <==> fd != NoSocket && FirstOf(done + [x], fd).Some?
    ensures EventsOf(StepQueues(queues, seen, x), fd) == Delivered(EventsOf(start, fd), done + [x], fd)
  {
    FirstOfSnoc(done, x, fd);
  }

  /** One step of the delivery loop. */
  lemma DeliveryStep(start: map<int, seq<AsyncEvent>>, queues: map<int, seq<AsyncEvent>>,
                     seen: set<int>, done: seq<AsyncEvent>, x: AsyncEvent)
    requires DeliveryUpTo(start, queues, seen, done)
    ensures DeliveryUpTo(start, StepQueues(queues, seen, x), StepSeen(seen, x), done + [x])
  {
    forall fd
      ensures fd in StepSeen(seen, x) <==> fd != NoSocket && FirstOf(done + [x], fd).Some?
      ensures EventsOf(StepQueues(queues, seen, x), fd) == Delivered(EventsOf(start, fd), done + [x], fd)
    {
      DeliveryStepAt(start, queues, seen, done, x, fd);
    }
  }

  /** Every per-socket queue holds at most 100 events. */
  ghost predicate QueuesBounded(queues: map<int, seq<AsyncEvent>>)
  {
    forall fd :: fd in queues ==> |queues[fd]| <= MaxSocketEvents
  }

  /** `AsyncEventManager`, around the notifier instance it uses. */
  class AsyncEventManager {
    const notifier: Notifier
    var socketEvents: map<int, seq<AsyncEvent>>

    constructor(n: Notifier)
      ensures notifier == n && socketEvents == map[]
    {
      notifier := n;
      socketEvents := map[];
    }

    ghost predicate Valid()
      reads this
    {
      QueuesBounded(socketEvents)
    }

    /**
     * The notifier after `handle_async_option(fd, enable)` or
     * `external_enable_async_notifications(fd, enable)` with `created` from
     * `eventfd()`: started if it was not, then the socket registered (when
     * `fd >= 0`) or unregistered with its pending events dropped.
     */
    twostate predicate AsyncOptionApplied(fd: int, enable: bool, created: int, ok: bool)
      reads this, notifier
    {
      var up := old(notifier.eventFd) != -1;
      if !up && created == -1 then
        !ok && notifier.eventFd == -1 && notifier.registered == old(notifier.registered)
        && notifier.pending == old(notifier.pending) && notifier.totalProcessed == old(notifier.totalProcessed)
        && notifier.maxPending == old(notifier.maxPending) && notifier.fileIntegration == old(notifier.fileIntegration)
      else
        var registered0 := if up then old(notifier.registered) else {};
        var pending0 := if up then old(notifier.pending) else [];
        (ok <==> !enable || fd >= 0)
        && notifier.eventFd == (if up then old(notifier.eventFd) else created)
        && notifier.registered == (if !enable then registered0 - {fd} else if fd >= 0 then registered0 + {fd} else registered0)
        && notifier.pending == (if enable then pending0 else Filter(pending0, NotOf(fd)))
        && notifier.totalProcessed == (if up then old(notifier.totalProcessed) else 0)
        && notifier.maxPending == old(notifier.maxPending) && notifier.fileIntegration == old(notifier.fileIntegration)
    }

    /** `queue_socket_event`. */
    method QueueSocketEvent(fd: int, e: AsyncEvent)
      modifies this
      requires Valid()
      ensures Valid()
      ensures socketEvents == old(socketEvents)[fd := SocketQueued(EventsOf(old(socketEvents), fd), e)]
    {
      socketEvents := socketEvents[fd := SocketQueued(EventsOf(socketEvents, fd), e)];
    }

    /** `handle_async_option`; `created` is what `eventfd()` returns if the notifier must start. */
    method HandleAsyncOption(fd: int, enable: bool, created: int) returns (ok: bool)
      modifies notifier
      ensures AsyncOptionApplied(fd, enable, created, ok)
      ensures notifier.IsInitialized() && enable && fd >= 0 ==> fd in notifier.registered
      ensures old(notifier.IsInitialized()) && !enable ==> (fd !in notifier.registered
        && notifier.pending == Filter(old(notifier.pending), NotOf(fd)))
    {
      if !notifier.IsInitialized() {
        var started := notifier.Initialize(created);
        if !started {
          return false;
        }
      }
      if enable {
        ok := notifier.RegisterSocket(fd);
      } else {
        notifier.UnregisterSocket(fd);
        ok := true;
      }
    }

    /** `cleanup_socket_events`: unregisters the socket and drops its queue. */
    method CleanupSocketEvents(fd: int)
      modifies this, notifier
      ensures socketEvents == old(socketEvents) - {fd}
      ensures notifier.registered == old(notifier.registered) - {fd}
      ensures notifier.pending == Filter(old(notifier.pending), NotOf(fd))
    {
      notifier.UnregisterSocket(fd);
      socketEvents := socketEvents - {fd};
    }

    /** `deliver_async_events`: only the first of the events is queued. */
    method DeliverAsyncEvents(fd: int, events: seq<AsyncEvent>)
      modifies this
      requires Valid()
      ensures Valid()
      ensures events == [] ==> socketEvents == old(socketEvents)
      ensures events != [] ==> socketEvents == old(socketEvents)[fd := SocketQueued(EventsOf(old(socketEvents), fd), events[0])]
    {
      if events != [] {
        QueueSocketEvent(fd, events[0]);
      }
    }

    /** `signal_process_exited`: the exit code travels as a `uint64_t`. */
    method SignalProcessExited(fd: int, exitCode: int, now: int, written: bool) returns (ok: bool)
      modifies notifier
      ensures notifier.SocketSignalled(fd, AsyncEvent(fd, ProcessExited, ToU64(exitCode), "", now), written, ok)
      ensures ok ==> (fd in notifier.registered
        && notifier.pending == Enqueued(old(notifier.pending),
             AsyncEvent(fd, ProcessExited, ToU64(exitCode), "", now), notifier.maxPending))
    {
      ok := notifier.SignalSocketEvent(fd, ProcessExited, ToU64(exitCode), now, written);
    }

    /**
     * `signal_process_error`: the message goes straight to the socket's own
     * queue, whether or not the socket is registered; the notifier gets an
     * event without it.
     */
    method SignalProcessError(fd: int, message: string, now: int, written: bool) returns (ok: bool)
      modifies this, notifier
      requires Valid()
      ensures Valid()
      ensures socketEvents == old(socketEvents)[fd := SocketQueued(EventsOf(old(socketEvents), fd),
                AsyncEvent(fd, ProcessError, 0, message, now))]
      ensures notifier.SocketSignalled(fd, AsyncEvent(fd, ProcessError, 0, "", now), written, ok)
      ensures ok ==> fd in notifier.registered
    {
      QueueSocketEvent(fd, AsyncEvent(fd, ProcessError, 0, message, now));
      ok := notifier.SignalSocketEvent(fd, ProcessError, 0, now, written);
    }

    /** `signal_file_changed`: nothing happens before the notifier is initialized. */
    method SignalFileChanged(fd: int, path: string, now: int, written: bool) returns (ok: bool)
      modifies this, notifier
      requires Valid()
      ensures Valid()
      ensures !old(notifier.IsInitialized()) ==> !ok && socketEvents == old(socketEvents) && unchanged(notifier)
      ensures old(notifier.IsInitialized()) ==> (socketEvents == old(socketEvents)[fd := SocketQueued(
                EventsOf(old(socketEvents), fd), AsyncEvent(fd, FileChanged, 0, path, now))]
        && notifier.SocketSignalled(fd, AsyncEvent(fd, FileChanged, 0, "", now), written, ok))
      ensures ok ==> fd in notifier.registered
    {
      if !notifier.IsInitialized() {
        return false;
      }
      QueueSocketEvent(fd, AsyncEvent(fd, FileChanged, 0, path, now));
      ok := notifier.SignalSocketEvent(fd, FileChanged, 0, now, written);
    }

    /**
     * `process_async_events`; `signalled` is whether the eventfd poll saw an
     * event.  Every pending event is taken; each socket's first one is delivered.
     */
    method ProcessAsyncEvents(signalled: bool)
      modifies this, notifier
      requires Valid()
      ensures Valid()
      ensures !(old(notifier.IsInitialized()) && signalled) ==> (socketEvents == old(socketEvents)
        && notifier.pending == old(notifier.pending))
      ensures old(notifier.IsInitialized()) && signalled ==> (notifier.pending == []
        && forall fd :: EventsOf(socketEvents, fd) == Delivered(EventsOf(old(socketEvents), fd), old(notifier.pending), fd))
    {
      if !notifier.IsInitialized() || !signalled {
        return;
      }
      var events := notifier.GetPendingEvents();
      var i := 0;
      var seen: set<int> := {};
      while i < |events|
        invariant 0 <= i <= |events| && Valid() && notifier.pending == []
        invariant DeliveryUpTo(old(socketEvents), socketEvents, seen, events[..i])
      {
        var x := events[i];
        assert events[..i + 1] == events[..i] + [x];
        DeliveryStep(old(socketEvents), socketEvents, seen, events[..i], x);
        if Fresh(seen, x) {
          QueueSocketEvent(x.socketFd, x);
        }
        seen := StepSeen(seen, x);
        i := i + 1;
      }
      assert events[..i] == events;
    }

    /** `external_wait_for_events`: -1 before initialization; otherwise drains the queue and reports the socket's share. */
    method ExternalWaitForEvents(fd: int) returns (r: int)
      modifies notifier
      ensures !old(notifier.IsInitialized()) ==> r == -1 && notifier.pending == old(notifier.pending)
      ensures old(notifier.IsInitialized()) ==> (notifier.pending == []
        && (r == 1 <==> Filter(old(notifier.pending), Of(fd)) != [])
        && (r != 1 ==> r == 0))
    {
      if !notifier.IsInitialized() {
        return -1;
      }
      var events := notifier.GetPendingEvents();
      r := 0;
      var i := 0;
      while i < |events|
        invariant 0 <= i <= |events|
        invariant Filter(events[..i], Of(fd)) == [] && notifier.pending == []
      {
        FilterAppend(events[..i], [events[i]], Of(fd));
        FilterOne(events[i], Of(fd));
        assert events[..i + 1] == events[..i] + [events[i]];
        if events[i].socketFd == fd {
          FilterAppend(events[..i + 1], events[i + 1..], Of(fd));
          assert events[..i + 1] + events[i + 1..] == events;
          return 1;
        }
        i := i + 1;
      }
      assert events[..i] == events;
    }

    /**
     * `external_get_async_events`: the socket's events, oldest first.  The
     * whole pending queue is drained, so other sockets' events are discarded.
     */
    method ExternalGetAsyncEvents(fd: int) returns (events: seq<AsyncEvent>)
      modifies notifier
      ensures !old(notifier.IsInitialized()) ==> events == [] && notifier.pending == old(notifier.pending)
      ensures old(notifier.IsInitialized()) ==> (events == Filter(old(notifier.pending), Of(fd))
        && notifier.pending == [])
    {
      if !notifier.IsInitialized() {
        return [];
      }
      var all := notifier.GetPendingEvents();
      events := [];
      var i := 0;
      while i < |all|
        invariant 0 <= i <= |all|
        invariant events == Filter(all[..i], Of(fd)) && notifier.pending == []
      {
        FilterAppend(all[..i], [all[i]], Of(fd));
        FilterOne(all[i], Of(fd));
        assert all[..i + 1] == all[..i] + [all[i]];
        if all[i].socketFd == fd {
          events := events + [all[i]];
        }
        i := i + 1;
      }
      assert all[..i] == all;
    }

    /** `external_enable_async_notifications`: 1 on success, -1 on failure. */
    method ExternalEnableAsyncNotifications(fd: int, enabled: bool, created: int) returns (r: int)
      modifies notifier
      ensures r in {1, -1}
      ensures AsyncOptionApplied(fd, enabled, created, r == 1)
      ensures r == 1 ==> (notifier.IsInitialized() && (enabled ==> fd in notifier.registered)
        && (!enabled ==> fd !in notifier.registered))
    {
      if !notifier.IsInitialized() {
        var started := notifier.Initialize(created);
        if !started {
          return -1;
        }
      }
      if enabled {
        var ok := notifier.RegisterSocket(fd);
        r := if ok then 1 else -1;
      } else {
        notifier.UnregisterSocket(fd);
        r := 1;
      }
    }
  }
}
