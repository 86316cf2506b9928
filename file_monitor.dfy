/**
 * File monitoring: the watch registry of `FileMonitor` (watches by
 * descriptor, descriptors by path, descriptors by socket), the per-socket event
 * queues of `FileMonitorManager`, and the `FileMonitorUtils` path and mask helpers.
 *
 * The inotify system calls are parameters: whether `inotify_init1` succeeded,
 * whether the path exists (`stat`), and the descriptor `inotify_add_watch` returned.
 */
module FileMonitor {
  import opened Text
  import opened Seqs
  import EventNotifier

  // ---------------------------------------------------------------------------
  // Paths
  // ---------------------------------------------------------------------------

  /** `PATH_MAX` on Linux. */
  const PathMax: nat := 4096

  /** `FileMonitorUtils::is_safe_path`. */
  function IsSafePath(path: string): (ok: bool)
    ensures ok <==> path != [] && path[0] == '/' && !Contains(path, "..") && !Contains(path, "//")
  {
    ContainsIffIndexOf(path, "..");
    ContainsIffIndexOf(path, "//");
    if path == [] || path[0] != '/' then false
    else if IndexOf(path, "..", 0) != -1 then false
    else IndexOf(path, "//", 0) == -1
  }

  predicate PathWithinLimits(path: string)
  {
    |path| < PathMax
  }

  /** The prefixes `is_path_allowed` refuses. */
  const BlockedPaths: seq<string> := ["/etc/passwd", "/etc/shadow", "/proc", "/sys", "/dev"]

  /** `is_path_allowed`: `path.find(blocked) == 0` for no blocked prefix. */
  function IsPathAllowed(path: string): (ok: bool)
    ensures ok <==> forall k :: 0 <= k < |BlockedPaths| ==> !StartsWith(path, BlockedPaths[k])
  {
    NoBlockedPrefix(path, BlockedPaths)
  }

  function NoBlockedPrefix(path: string, blocked: seq<string>): (ok: bool)
    ensures ok <==> forall k :: 0 <= k < |blocked| ==> !StartsWith(path, blocked[k])
  {
    if blocked == [] then true
    else
      assert forall k :: 1 <= k < |blocked| ==> blocked[k] == blocked[1..][k - 1];
      IndexOf(path, blocked[0], 0) != 0 && NoBlockedPrefix(path, blocked[1..])
  }

  /** `validate_monitor_path`. */
  predicate ValidateMonitorPath(path: string)
  {
    IsSafePath(path) && PathWithinLimits(path) && IsPathAllowed(path)
  }

  /** Every path that passes the monitor check is absolute and outside the system trees. */
  lemma MonitoredPathsAreSafe(path: string)
    requires ValidateMonitorPath(path)
    ensures path[0] == '/' && !Contains(path, "..") && !StartsWith(path, "/proc") && !StartsWith(path, "/etc/shadow")
  {
    assert BlockedPaths[2] == "/proc" && BlockedPaths[1] == "/etc/shadow";
  }

  /** What `normalize_path` leaves: no trailing slashes except a lone "/". */
  function WithoutTrailingSlashes(path: string): (r: string)
    ensures r <= path
    ensures |r| <= 1 || r[|r| - 1] != '/'
    ensures path != [] ==> r != []
  {
    if |path| > 1 && path[|path| - 1] == '/' then WithoutTrailingSlashes(path[..|path| - 1]) else path
  }

  /** `FileMonitorUtils::normalize_path`. */
  method NormalizePath(path: string) returns (normalized: string)
    ensures normalized == WithoutTrailingSlashes(path)
  {
    normalized := path;
    while |normalized| > 1 && normalized[|normalized| - 1] == '/'
      invariant WithoutTrailingSlashes(normalized) == WithoutTrailingSlashes(path)
    {
      normalized := normalized[..|normalized| - 1];
    }
  }

  /** Normalising twice is normalising once, and only slashes are removed. */
  lemma NormalizeIdempotent(path: string)
    ensures WithoutTrailingSlashes(WithoutTrailingSlashes(path)) == WithoutTrailingSlashes(path)
    ensures forall k :: |WithoutTrailingSlashes(path)| <= k < |path| ==> path[k] == '/'
  {
  }

  // ---------------------------------------------------------------------------
  // Event masks
  // ---------------------------------------------------------------------------

  /** `FileEventType`, with its LPC bit. */
  datatype FileEventType = Created | Modified | Deleted | MovedFrom | MovedTo | Opened | Closed | Attrib
  {
    function Bit(): bv32
    {
      match this
      case Created => 0x01
      case Modified => 0x02
      case Deleted => 0x04
      case MovedFrom => 0x08
      case MovedTo => 0x10
      case Opened => 0x20
      case Closed => 0x40
      case Attrib => 0x80
    }
  }

  // The inotify mask bits (Linux `<sys/inotify.h>`).
  const InAccess: bv32 := 0x1
  const InModify: bv32 := 0x2
  const InAttrib: bv32 := 0x4
  const InCloseWrite: bv32 := 0x8
  const InCloseNowrite: bv32 := 0x10
  const InOpen: bv32 := 0x20
  const InMovedFrom: bv32 := 0x40
  const InMovedTo: bv32 := 0x80
  const InCreate: bv32 := 0x100
  const InDelete: bv32 := 0x200
  const InClose: bv32 := 0x18
  const InIsDir: bv32 := 0x4000_0000
  const InAllEvents: bv32 := 0xFFF

  const DefaultInotifyMask: bv32 := 0x3CA

  /** `lpc_events_to_inotify_mask`. */
  function LpcEventsToInotifyMask(lpc: bv32): bv32
  {
    (if lpc & Created.Bit() != 0 then InCreate else 0)
    | (if lpc & Modified.Bit() != 0 then InModify else 0)
    | (if lpc & Deleted.Bit() != 0 then InDelete else 0)
    | (if lpc & MovedFrom.Bit() != 0 then InMovedFrom else 0)
    | (if lpc & MovedTo.Bit() != 0 then InMovedTo else 0)
    | (if lpc & Opened.Bit() != 0 then InOpen else 0)
    | (if lpc & Closed.Bit() != 0 then InClose else 0)
    | (if lpc & Attrib.Bit() != 0 then InAttrib else 0)
  }

  /** `inotify_mask_to_lpc_events`. */
  function InotifyMaskToLpcEvents(mask: bv32): bv32
  {
    (if mask & InCreate != 0 then Created.Bit() else 0)
    | (if mask & InModify != 0 then Modified.Bit() else 0)
    | (if mask & InDelete != 0 then Deleted.Bit() else 0)
    | (if mask & InMovedFrom != 0 then MovedFrom.Bit() else 0)
    | (if mask & InMovedTo != 0 then MovedTo.Bit() else 0)
    | (if mask & InOpen != 0 then Opened.Bit() else 0)
    | (if mask & (InCloseWrite | InCloseNowrite) != 0 then Closed.Bit() else 0)
    | (if mask & InAttrib != 0 then Attrib.Bit() else 0)
  }

  /** Converting LPC events to an inotify mask and back keeps exactly the eight event bits. */
  lemma MaskRoundTrip(lpc: bv32)
    ensures InotifyMaskToLpcEvents(LpcEventsToInotifyMask(lpc)) == lpc & 0xFF
  {
  }

  /** `convert_inotify_event`: the first matching bit in a fixed order; MODIFIED when none matches. */
  function ConvertInotifyEvent(mask: bv32): (t: FileEventType)
    ensures mask & InCreate != 0 ==> t == Created
    ensures t == Created || mask & InCreate == 0
    ensures mask & (InCreate | InModify | InDelete | InMovedFrom | InMovedTo | InOpen | InClose | InAttrib) == 0
            ==> t == Modified
  {
    if mask & InCreate != 0 then Created
    else if mask & InModify != 0 then Modified
    else if mask & InDelete != 0 then Deleted
    else if mask & InMovedFrom != 0 then MovedFrom
    else if mask & InMovedTo != 0 then MovedTo
    else if mask & InOpen != 0 then Opened
    else if mask & (InCloseWrite | InCloseNowrite) != 0 then Closed
    else if mask & InAttrib != 0 then Attrib
    else Modified
  }

  /** A single event requested from LPC comes back as that event. */
  lemma SingleEventRoundTrip(t: FileEventType)
    ensures ConvertInotifyEvent(LpcEventsToInotifyMask(t.Bit())) == t
  {
  }

  // ---------------------------------------------------------------------------
  // Events
  // ---------------------------------------------------------------------------

  datatype FileEvent = FileEvent(
    path: string,
    name: string,
    eventType: FileEventType,
    cookie: bv32,
    isDirectory: bool,
    timestamp: int)

  /** `parse_inotify_event`: the watched path, joined with the entry name when there is one. */
  function ParseInotifyEvent(basePath: string, name: string, mask: bv32, cookie: bv32, now: int): (e: FileEvent)
    ensures name == [] ==> e.path == basePath && e.name == []
    ensures name != [] ==> e.path == basePath + "/" + name && e.name == name
    ensures e.eventType == ConvertInotifyEvent(mask) && e.isDirectory == (mask & InIsDir != 0)
  {
    FileEvent(if name == [] then basePath else basePath + "/" + name, name,
      ConvertInotifyEvent(mask), cookie, mask & InIsDir != 0, now)
  }

  /** `process_events` keeps an event unless it is a MODIFIED event with an empty path. */
  predicate Delivered(e: FileEvent)
  {
    e.eventType != Modified || e.path != []
  }

  /** One `inotify_event` as read from the descriptor. */
  datatype RawEvent = RawEvent(wd: int, mask: bv32, cookie: bv32, name: string)

  /** `MAX_INOTIFY_EVENTS`: the most events one `process_events` call returns. */
  const MaxInotifyEvents: nat := 100

  /**
   * The events `process_events` makes of `raw`, at most `cap` of them: those
   * of a known watch, parsed, and kept when `Delivered`.
   */
  function EventsOf(watches: map<int, WatchInfo>, raw: seq<RawEvent>, cap: nat, now: int): (r: seq<FileEvent>)
    ensures |r| <= cap && |r| <= |raw|
    ensures forall k :: 0 <= k < |r| ==> Delivered(r[k])
    decreases |raw|
  {
    if raw == [] || cap == 0 then []
    else
      var e := raw[0];
      if e.wd in watches && Delivered(ParseInotifyEvent(watches[e.wd].path, e.name, e.mask, e.cookie, now)) then
        [ParseInotifyEvent(watches[e.wd].path, e.name, e.mask, e.cookie, now)] + EventsOf(watches, raw[1..], cap - 1, now)
      else EventsOf(watches, raw[1..], cap, now)
  }

  /** One record of `raw[i..]`: parsed and kept, or skipped. */
  lemma EventsOfNext(watches: map<int, WatchInfo>, raw: seq<RawEvent>, i: nat, cap: nat, now: int)
    requires i < |raw| && cap > 0
    ensures var e := raw[i];
      var f := ParseInotifyEvent(if e.wd in watches then watches[e.wd].path else [], e.name, e.mask, e.cookie, now);
      EventsOf(watches, raw[i..], cap, now)
        == if e.wd in watches && Delivered(f) then [f] + EventsOf(watches, raw[i + 1..], cap - 1, now)
           else EventsOf(watches, raw[i + 1..], cap, now)
  {
    assert raw[i..][0] == raw[i] && raw[i..][1..] == raw[i + 1..];
  }

  /** Events of descriptors that are no watch are dropped. */
  lemma {:induction false} UnknownWatchIgnored(watches: map<int, WatchInfo>, raw: seq<RawEvent>, cap: nat, now: int, e: RawEvent)
    requires e.wd !in watches
    ensures EventsOf(watches, [e] + raw, cap, now) == EventsOf(watches, raw, cap, now)
  {
    assert ([e] + raw)[1..] == raw;
  }

  // ---------------------------------------------------------------------------
  // The watch registry
  // ---------------------------------------------------------------------------

  datatype WatchInfo = WatchInfo(watchFd: int, path: string, mask: bv32, socketFd: int, recursive: bool)

  /** `watches_`, `path_to_wd_` and `socket_watches_`. */
  datatype Registry = Registry(
    watches: map<int, WatchInfo>,
    pathToWd: map<string, int>,
    socketWatches: map<int, seq<int>>)

  const EmptyRegistry := Registry(map[], map[], map[])

  /** The three maps agree, and no socket keeps an empty list. */
  ghost predicate Valid(r: Registry)
  {
    (forall p :: p in r.pathToWd ==> r.pathToWd[p] in r.watches && r.watches[r.pathToWd[p]].path == p)
    && (forall wd :: wd in r.watches ==> r.watches[wd].path in r.pathToWd && r.pathToWd[r.watches[wd].path] == wd)
    && (forall fd, wd :: fd in r.socketWatches && wd in r.socketWatches[fd] ==> wd in r.watches)
    && (forall fd :: fd in r.socketWatches ==> r.socketWatches[fd] != [])
  }

  function ListOf(m: map<int, seq<int>>, fd: int): seq<int>
  {
    if fd in m then m[fd] else []
  }

  /** A list whose every element occurs in an empty list is empty. */
  lemma CoveredByEmpty(l: seq<int>, wds: seq<int>)
    requires forall w :: w in l ==> w in wds
    ensures wds == [] ==> l == []
  {
    if l != [] {
      var x := l[0];
      assert x in l;
      assert x in wds;
    }
  }

  /** Whether some socket still lists `wd`. */
  predicate InUse(m: map<int, seq<int>>, wd: int)
  {
    exists fd :: fd in m && wd in m[fd]
  }

  /** `is_valid_path`: non-empty, at most PATH_MAX, existing, and without "..". */
  predicate IsValidPath(path: string, exists_: bool)
  {
    path != [] && |path| <= PathMax && exists_ && !Contains(path, "..")
  }

  /**
   * `add_watch` once the monitor is initialised: refused at capacity; an
   * already watched path is only associated with the socket; otherwise the
   * path must be valid and `inotify_add_watch` must succeed (`wd != -1`).
   */
  function WatchAdded(r: Registry, maxWatches: nat, recursive: bool, fd: int, path: string, mask: bv32, exists_: bool, wd: int)
    : (res: (bool, Registry))
    ensures !res.0 ==> res.1 == r
    ensures res.0 ==> |r.watches| < maxWatches
    ensures res.0 && path in r.pathToWd ==>
              res.1 == r.(socketWatches := r.socketWatches[fd := ListOf(r.socketWatches, fd) + [r.pathToWd[path]]])
    ensures res.0 && path !in r.pathToWd ==>
              (IsValidPath(path, exists_) && wd != -1
               && res.1.pathToWd == r.pathToWd[path := wd]
               && res.1.watches == r.watches[wd := WatchInfo(wd, path, if mask == 0 then DefaultInotifyMask else mask, fd, recursive)]
               && res.1.socketWatches == r.socketWatches[fd := ListOf(r.socketWatches, fd) + [wd]])
  {
    if |r.watches| >= maxWatches then (false, r)
    else if path in r.pathToWd then
      (true, r.(socketWatches := r.socketWatches[fd := ListOf(r.socketWatches, fd) + [r.pathToWd[path]]]))
    else if !IsValidPath(path, exists_) then (false, r)
    else if wd == -1 then (false, r)
    else
      var info := WatchInfo(wd, path, if mask == 0 then DefaultInotifyMask else mask, fd, recursive);
      (true, Registry(r.watches[wd := info], r.pathToWd[path := wd],
        r.socketWatches[fd := ListOf(r.socketWatches, fd) + [wd]]))
  }

  /** Adding keeps the maps in step when inotify hands out a descriptor not yet in use. */
  lemma WatchAddedValid(r: Registry, maxWatches: nat, recursive: bool, fd: int, path: string, mask: bv32, exists_: bool, wd: int)
    requires Valid(r) && wd !in r.watches
    ensures Valid(WatchAdded(r, maxWatches, recursive, fd, path, mask, exists_, wd).1)
    ensures var res := WatchAdded(r, maxWatches, recursive, fd, path, mask, exists_, wd);
      res.0 ==> path in res.1.pathToWd && res.1.pathToWd[path] in ListOf(res.1.socketWatches, fd)
  {
    var res := WatchAdded(r, maxWatches, recursive, fd, path, mask, exists_, wd);
    if res.0 && path !in r.pathToWd {
      var n := res.1;
      forall p | p in n.pathToWd
        ensures n.pathToWd[p] in n.watches && n.watches[n.pathToWd[p]].path == p
      {
        if p != path {
          assert r.pathToWd[p] != wd;
        }
      }
    }
  }

  /**
   * `remove_watch`: false for a path not watched.  Otherwise every copy of
   * the descriptor leaves the socket's list (and the list, once empty), and
   * the watch itself goes only when no socket lists it any more.
   */
  function WatchRemoved(r: Registry, fd: int, path: string): (res: (bool, Registry))
    ensures !res.0 <==> path !in r.pathToWd
    ensures !res.0 ==> res.1 == r
  {
    if path !in r.pathToWd then (false, r)
    else
      var wd := r.pathToWd[path];
      var lists :=
        if fd in r.socketWatches then
          (var l := Erase(r.socketWatches[fd], wd);
           if l == [] then r.socketWatches - {fd} else r.socketWatches[fd := l])
        else r.socketWatches;
      if InUse(lists, wd) then (true, r.(socketWatches := lists))
      else (true, Registry(r.watches - {wd}, r.pathToWd - {path}, lists))
  }

  /** Whether a socket other than `fd` lists `wd`. */
  predicate StillListed(r: Registry, fd: int, wd: int)
  {
    exists other :: other != fd && other in r.socketWatches && wd in r.socketWatches[other]
  }

  /** A watch another socket still references stays registered; an unreferenced one goes. */
  lemma WatchRemovedMeaning(r: Registry, fd: int, path: string)
    requires Valid(r) && path in r.pathToWd
    ensures var n := WatchRemoved(r, fd, path).1; var wd := r.pathToWd[path];
      Valid(n)
      && wd !in ListOf(n.socketWatches, fd)
      && (forall other :: other != fd && other in r.socketWatches ==>
            (other in n.socketWatches && n.socketWatches[other] == r.socketWatches[other]))
      && (StillListed(r, fd, wd) ==> path in n.pathToWd && wd in n.watches && n.watches == r.watches)
      && (!StillListed(r, fd, wd) ==> path !in n.pathToWd && wd !in n.watches)
  {
    var wd := r.pathToWd[path];
    var n := WatchRemoved(r, fd, path).1;
    if StillListed(r, fd, wd) {
      var other :| other != fd && other in r.socketWatches && wd in r.socketWatches[other];
      assert other in n.socketWatches && wd in n.socketWatches[other];
    }
    forall f, w | f in n.socketWatches && w in n.socketWatches[f]
      ensures w in n.watches
    {
      assert w in r.socketWatches[f];
      if w == wd {
        assert InUse(n.socketWatches, wd);
      }
    }
  }

  /** `remove_all_watches` calls `remove_watch` for each listed descriptor that is still a watch. */
  function AllWatchesRemoved(r: Registry, fd: int, wds: seq<int>): Registry
    decreases |wds|
  {
    if wds == [] then r
    else
      var next := if wds[0] in r.watches then WatchRemoved(r, fd, r.watches[wds[0]].path).1 else r;
      AllWatchesRemoved(next, fd, wds[1..])
  }

  /** After removing all of a socket's watches the socket has no list, and other sockets keep theirs. */
  lemma {:induction false} AllWatchesRemovedMeaning(r: Registry, fd: int, wds: seq<int>)
    requires Valid(r)
    requires forall w :: w in ListOf(r.socketWatches, fd) ==> w in wds
    ensures var n := AllWatchesRemoved(r, fd, wds);
      Valid(n) && fd !in n.socketWatches
      && forall other :: other != fd && other in r.socketWatches ==>
            (other in n.socketWatches && n.socketWatches[other] == r.socketWatches[other])
    decreases |wds|
  {
    if wds == [] {
      CoveredByEmpty(ListOf(r.socketWatches, fd), wds);
    } else {
      var w := wds[0];
      var next := if w in r.watches then WatchRemoved(r, fd, r.watches[w].path).1 else r;
      if w in r.watches {
        WatchRemovedMeaning(r, fd, r.watches[w].path);
      }
      forall x | x in ListOf(next.socketWatches, fd)
        ensures x in wds[1..]
      {
        assert x in ListOf(r.socketWatches, fd);
        assert x != w;
      }
      AllWatchesRemovedMeaning(next, fd, wds[1..]);
    }
  }

  /** The inotify watcher. */
  class Monitor {
    var inotifyFd: int
    var maxWatches: nat
    var defaultRecursive: bool
    var watches: map<int, WatchInfo>
    var pathToWd: map<string, int>
    var socketWatches: map<int, seq<int>>

    function Snapshot(): Registry
      reads this
    {
      Registry(watches, pathToWd, socketWatches)
    }

    predicate IsInitialized()
      reads this
    {
      inotifyFd != -1
    }

    method SetRegistry(r: Registry)
      modifies this
      ensures Snapshot() == r
      ensures inotifyFd == old(inotifyFd) && maxWatches == old(maxWatches) && defaultRecursive == old(defaultRecursive)
    {
      watches, pathToWd, socketWatches := r.watches, r.pathToWd, r.socketWatches;
    }

    constructor()
      ensures !IsInitialized() && maxWatches == 1000 && !defaultRecursive
      ensures Snapshot() == EmptyRegistry && Valid(Snapshot())
    {
      inotifyFd, maxWatches, defaultRecursive := -1, 1000, false;
      watches, pathToWd, socketWatches := map[], map[], map[];
    }

    /** `initialize`; `created` is the descriptor `inotify_init1` returned (-1 on failure). */
    method Initialize(created: int) returns (ok: bool)
      modifies this
      ensures old(IsInitialized()) ==> ok && inotifyFd == old(inotifyFd)
      ensures !old(IsInitialized()) ==> inotifyFd == created && ok == (created != -1)
      ensures Snapshot() == old(Snapshot()) && maxWatches == old(maxWatches) && defaultRecursive == old(defaultRecursive)
    {
      if inotifyFd != -1 {
        return true;
      }
      inotifyFd := created;
      return created != -1;
    }

    /** `shutdown`: all three maps are cleared. */
    method Shutdown()
      modifies this
      ensures old(IsInitialized()) ==> !IsInitialized() && Snapshot() == EmptyRegistry
      ensures !old(IsInitialized()) ==> Snapshot() == old(Snapshot()) && inotifyFd == old(inotifyFd)
      ensures maxWatches == old(maxWatches)
    {
      if inotifyFd != -1 {
        inotifyFd := -1;
        watches, pathToWd, socketWatches := map[], map[], map[];
      }
    }

    /** `add_watch`; `exists_` is the `stat` result and `wd` what `inotify_add_watch` returned. */
    method AddWatch(fd: int, path: string, mask: bv32, exists_: bool, wd: int) returns (ok: bool)
      modifies this
      ensures !old(IsInitialized()) ==> !ok && Snapshot() == old(Snapshot())
      ensures old(IsInitialized()) ==> (ok, Snapshot()) == WatchAdded(old(Snapshot()), maxWatches, defaultRecursive, fd, path, mask, exists_, wd)
      ensures inotifyFd == old(inotifyFd) && maxWatches == old(maxWatches) && defaultRecursive == old(defaultRecursive)
    {
      if inotifyFd == -1 {
        return false;
      }
      var res := WatchAdded(Snapshot(), maxWatches, defaultRecursive, fd, path, mask, exists_, wd);
      ok := res.0;
      SetRegistry(res.1);
    }

    /** `process_events`, over the events one read returned. */
    method ProcessEvents(raw: seq<RawEvent>, now: int) returns (events: seq<FileEvent>)
      ensures !IsInitialized() ==> events == []
      ensures IsInitialized() ==> events == EventsOf(watches, raw, MaxInotifyEvents, now)
    {
      events := [];
      if inotifyFd == -1 {
        return;
      }
      var i := 0;
      while i < |raw| && |events| < MaxInotifyEvents
        invariant 0 <= i <= |raw| && |events| <= MaxInotifyEvents
        invariant events + EventsOf(watches, raw[i..], MaxInotifyEvents - |events|, now)
                  == EventsOf(watches, raw, MaxInotifyEvents, now)
      {
        var e := raw[i];
        EventsOfNext(watches, raw, i, MaxInotifyEvents - |events|, now);
        if e.wd in watches {
          var fileEvent := ParseInotifyEvent(watches[e.wd].path, e.name, e.mask, e.cookie, now);
          if fileEvent.eventType != Modified || fileEvent.path != [] {
            AppendAssoc(events, [fileEvent], EventsOf(watches, raw[i + 1..], MaxInotifyEvents - |events| - 1, now));
            events := events + [fileEvent];
          }
        }
        i := i + 1;
      }
    }

    method SetMaxWatches(n: nat)
      modifies this
      ensures maxWatches == n && Snapshot() == old(Snapshot()) && inotifyFd == old(inotifyFd)
      ensures defaultRecursive == old(defaultRecursive)
    {
      maxWatches := n;
    }

    method SetRecursiveWatch(recursive: bool)
      modifies this
      ensures defaultRecursive == recursive && Snapshot() == old(Snapshot()) && inotifyFd == old(inotifyFd)
      ensures maxWatches == old(maxWatches)
    {
      defaultRecursive := recursive;
    }

    method RemoveWatch(fd: int, path: string) returns (ok: bool)
      modifies this
      ensures (ok, Snapshot()) == WatchRemoved(old(Snapshot()), fd, path)
      ensures inotifyFd == old(inotifyFd) && maxWatches == old(maxWatches) && defaultRecursive == old(defaultRecursive)
    {
      var res := WatchRemoved(Snapshot(), fd, path);
      ok := res.0;
      SetRegistry(res.1);
    }

    /** `remove_all_watches`, over a copy of the socket's list. */
    method RemoveAllWatches(fd: int)
      modifies this
      ensures Snapshot() == AllWatchesRemoved(old(Snapshot()), fd, ListOf(old(socketWatches), fd))
      ensures inotifyFd == old(inotifyFd) && maxWatches == old(maxWatches) && defaultRecursive == old(defaultRecursive)
    {
      if fd !in socketWatches {
        return;
      }
      var wds := socketWatches[fd];
      var i := 0;
      while i < |wds|
        invariant 0 <= i <= |wds|
        invariant AllWatchesRemoved(Snapshot(), fd, wds[i..]) == AllWatchesRemoved(old(Snapshot()), fd, wds)
        invariant inotifyFd == old(inotifyFd) && maxWatches == old(maxWatches) && defaultRecursive == old(defaultRecursive)
      {
        assert wds[i..][1..] == wds[i + 1..];
        if wds[i] in watches {
          var _ := RemoveWatch(fd, watches[wds[i]].path);
        }
        i := i + 1;
      }
    }
  }

  // ---------------------------------------------------------------------------
  // Per-socket event queues
  // ---------------------------------------------------------------------------

  const MaxQueuedEvents: nat := 1000

  /** `queue_events_for_socket`: append, then keep the newest thousand. */
  function EventsQueued(queue: seq<FileEvent>, events: seq<FileEvent>): (r: seq<FileEvent>)
    ensures |r| <= MaxQueuedEvents
    ensures |r| == if |queue| + |events| > MaxQueuedEvents then MaxQueuedEvents else |queue| + |events|
    ensures r == (queue + events)[|queue + events| - |r|..]
  {
    var all := queue + events;
    if |all| > MaxQueuedEvents then all[|all| - MaxQueuedEvents..] else all
  }

  /** The queue is the newest events delivered so far, whatever the batch sizes. */
  lemma EventsQueuedTwice(q: seq<FileEvent>, a: seq<FileEvent>, b: seq<FileEvent>)
    ensures EventsQueued(EventsQueued(q, a), b) == LastN(q + a + b, MaxQueuedEvents)
  {
    var qa := EventsQueued(q, a);
    var all := q + a + b;
    assert qa + b == all[|all| - |qa + b|..];
  }

  /** The socket events `signal_file_changed` queues for a batch: one per file event, with its path. */
  function ChangeNotices(fd: int, events: seq<FileEvent>, clock: nat -> int): seq<EventNotifier.AsyncEvent>
  {
    seq(|events|, i requires 0 <= i < |events| => EventNotifier.AsyncEvent(fd, EventNotifier.FileChanged, 0, events[i].path, clock(i)))
  }

  /** The notifier events `signal_file_changed` raises for a batch: one per file event, without data. */
  function ChangeSignals(fd: int, events: seq<FileEvent>, clock: nat -> int): seq<EventNotifier.AsyncEvent>
  {
    seq(|events|, i requires 0 <= i < |events| => EventNotifier.AsyncEvent(fd, EventNotifier.FileChanged, 0, "", clock(i)))
  }

  /**
   * The socket lists and the notifier's queue once `signal_file_changed` has run
   * for the first `i` events, from `queues0` and `pending0`; `up` says whether the
   * notifier was initialized and `listening` whether the socket was also registered.
   */
  ghost predicate SignalledUpTo(async: EventNotifier.AsyncEventManager, fd: int, events: seq<FileEvent>,
                                clock: nat -> int, i: nat, up: bool, listening: bool,
                                queues0: map<int, seq<EventNotifier.AsyncEvent>>, pending0: seq<EventNotifier.AsyncEvent>)
    requires i <= |events|
    reads async, async.notifier
  {
    (if up && i > 0
     then async.socketEvents == queues0[fd := EventNotifier.SocketQueuedInTurn(
            EventNotifier.EventsOf(queues0, fd), ChangeNotices(fd, events, clock)[..i])]
     else async.socketEvents == queues0)
    && async.notifier.pending == if listening
       then EventNotifier.EnqueuedInTurn(pending0, ChangeSignals(fd, events, clock)[..i], async.notifier.maxPending)
       else pending0
  }

  /** One turn of the loop of `deliver_file_events`: `signal_file_changed` for the i-th event. */
  method SignalNextFileChange(async: EventNotifier.AsyncEventManager, fd: int, events: seq<FileEvent>,
                              clock: nat -> int, writes: nat -> bool, i: nat, ghost up: bool, ghost listening: bool,
                              ghost queues0: map<int, seq<EventNotifier.AsyncEvent>>, ghost pending0: seq<EventNotifier.AsyncEvent>)
    modifies async, async.notifier
    requires i < |events| && async.Valid()
    requires up == async.notifier.IsInitialized() && listening == (up && fd in async.notifier.registered)
    requires SignalledUpTo(async, fd, events, clock, i, up, listening, queues0, pending0)
    ensures async.Valid() && async.notifier.OnlyPendingChanged()
    ensures SignalledUpTo(async, fd, events, clock, i + 1, up, listening, queues0, pending0)
  {
    ghost var notices := ChangeNotices(fd, events, clock);
    ghost var signals := ChangeSignals(fd, events, clock);
    ghost var queued := EventNotifier.EventsOf(async.socketEvents, fd);
    ghost var before := async.notifier.pending;
    var _ := async.SignalFileChanged(fd, events[i].path, clock(i), writes(i));
    if up {
      assert notices[i] == EventNotifier.AsyncEvent(fd, EventNotifier.FileChanged, 0, events[i].path, clock(i));
      EventNotifier.SocketQueuedInTurnNext(EventNotifier.EventsOf(queues0, fd), notices, i);
    }
    if listening {
      assert signals[i] == EventNotifier.AsyncEvent(fd, EventNotifier.FileChanged, 0, "", clock(i));
      EventNotifier.EnqueuedInTurnNext(pending0, signals, async.notifier.maxPending, i);
    }
  }

  /**
   * The loop of `deliver_file_events`: `signal_file_changed` once per event,
   * the i-th at time `clock(i)` with an eventfd write that `writes(i)` says succeeded.
   */
  method SignalFileChanges(async: EventNotifier.AsyncEventManager, fd: int, events: seq<FileEvent>,
                           clock: nat -> int, writes: nat -> bool)
    modifies async, async.notifier
    requires async.Valid() && events != []
    ensures async.Valid()
    ensures async.notifier.OnlyPendingChanged()
    ensures !old(async.notifier.IsInitialized()) ==> async.socketEvents == old(async.socketEvents)
    ensures old(async.notifier.IsInitialized()) ==>
      async.socketEvents == old(async.socketEvents)[fd := EventNotifier.SocketQueuedInTurn(
        EventNotifier.EventsOf(old(async.socketEvents), fd), ChangeNotices(fd, events, clock))]
    ensures old(async.notifier.IsInitialized()) && fd in old(async.notifier.registered) ==>
      async.notifier.pending == EventNotifier.EnqueuedInTurn(old(async.notifier.pending),
        ChangeSignals(fd, events, clock), async.notifier.maxPending)
    ensures !(old(async.notifier.IsInitialized()) && fd in old(async.notifier.registered)) ==>
      async.notifier.pending == old(async.notifier.pending)
  {
    var n := async.notifier;
    ghost var up := n.IsInitialized();
    ghost var listening := up && fd in n.registered;
    ghost var queues0 := async.socketEvents;
    ghost var pending0 := n.pending;
    ghost var eventFd, registered, maxPending, total, integration := n.eventFd, n.registered, n.maxPending, n.totalProcessed, n.fileIntegration;
    var i := 0;
    while i < |events|
      invariant 0 <= i <= |events|
      invariant async.Valid()
      invariant n.eventFd == eventFd && n.registered == registered && n.maxPending == maxPending
      invariant n.totalProcessed == total && n.fileIntegration == integration
      invariant SignalledUpTo(async, fd, events, clock, i, up, listening, queues0, pending0)
    {
      SignalNextFileChange(async, fd, events, clock, writes, i, up, listening, queues0, pending0);
      assert SignalledUpTo(async, fd, events, clock, i + 1, up, listening, queues0, pending0);
      i := i + 1;
    }
    assert ChangeNotices(fd, events, clock)[..|events|] == ChangeNotices(fd, events, clock);
    assert ChangeSignals(fd, events, clock)[..|events|] == ChangeSignals(fd, events, clock);
  }

  class Manager {
    var pendingEvents: map<int, seq<FileEvent>>

    constructor()
      ensures pendingEvents == map[]
    {
      pendingEvents := map[];
    }

    function QueueOf(fd: int): seq<FileEvent>
      reads this
    {
      if fd in pendingEvents then pendingEvents[fd] else []
    }

    method QueueEventsForSocket(fd: int, events: seq<FileEvent>)
      modifies this
      ensures pendingEvents == old(pendingEvents)[fd := EventsQueued(old(QueueOf(fd)), events)]
    {
      pendingEvents := pendingEvents[fd := EventsQueued(QueueOf(fd), events)];
    }

    /**
     * `deliver_file_events`: a non-empty batch is queued for the socket, then
     * `signal_file_changed` runs once per event; `clock(i)` is the time and
     * `writes(i)` whether the eventfd write succeeded at the i-th call.
     */
    method DeliverFileEvents(async: EventNotifier.AsyncEventManager, fd: int, events: seq<FileEvent>,
                             clock: nat -> int, writes: nat -> bool)
      modifies this, async, async.notifier
      requires async.Valid()
      ensures async.Valid()
      ensures events == [] ==> pendingEvents == old(pendingEvents)
      ensures events != [] ==> pendingEvents == old(pendingEvents)[fd := EventsQueued(old(QueueOf(fd)), events)]
      ensures async.notifier.OnlyPendingChanged()
      ensures events == [] || !old(async.notifier.IsInitialized()) ==>
        async.socketEvents == old(async.socketEvents) && async.notifier.pending == old(async.notifier.pending)
      ensures events != [] && old(async.notifier.IsInitialized()) ==>
        async.socketEvents == old(async.socketEvents)[fd := EventNotifier.SocketQueuedInTurn(
          EventNotifier.EventsOf(old(async.socketEvents), fd), ChangeNotices(fd, events, clock))]
      ensures old(async.notifier.IsInitialized()) && fd in old(async.notifier.registered) ==>
        async.notifier.pending == EventNotifier.EnqueuedInTurn(old(async.notifier.pending),
          ChangeSignals(fd, events, clock), async.notifier.maxPending)
      ensures !(old(async.notifier.IsInitialized()) && fd in old(async.notifier.registered)) ==>
        async.notifier.pending == old(async.notifier.pending)
    {
      if events == [] {
        return;
      }
      QueueEventsForSocket(fd, events);
      SignalFileChanges(async, fd, events, clock, writes);
    }

    /** `external_get_file_events`: everything queued for the socket, leaving its queue empty. */
    method ExternalGetFileEvents(fd: int) returns (events: seq<FileEvent>)
      modifies this
      ensures events == old(QueueOf(fd)) && QueueOf(fd) == []
      ensures forall other :: other != fd ==> QueueOf(other) == old(QueueOf(other))
      ensures fd in old(pendingEvents) ==> fd in pendingEvents
    {
      if fd !in pendingEvents || pendingEvents[fd] == [] {
        return [];
      }
      events := pendingEvents[fd];
      pendingEvents := pendingEvents[fd := []];
    }

    /**
     * `external_monitor_path`: 0 when the path passes the monitor check, the
     * monitor is (or can be) initialised and the watch is added; -1 otherwise.
     * No LPC events requested means the default inotify mask.
     */
    method ExternalMonitorPath(monitor: Monitor, fd: int, path: string, events: bv32, created: int, exists_: bool, wd: int)
      returns (rc: int)
      modifies monitor
      ensures !ValidateMonitorPath(path) ==> rc == -1 && monitor.Snapshot() == old(monitor.Snapshot())
      ensures ValidateMonitorPath(path) && !monitor.IsInitialized() ==> rc == -1 && monitor.Snapshot() == old(monitor.Snapshot())
      ensures ValidateMonitorPath(path) && monitor.IsInitialized() ==>
                (rc == 0, monitor.Snapshot())
                == WatchAdded(old(monitor.Snapshot()), old(monitor.maxWatches), old(monitor.defaultRecursive), fd, path,
                              if events == 0 then DefaultInotifyMask else LpcEventsToInotifyMask(events), exists_, wd)
      ensures rc == 0 || rc == -1
    {
      var ok := WatchPath(monitor, fd, path, if events == 0 then DefaultInotifyMask else LpcEventsToInotifyMask(events),
        created, exists_, wd);
      return if ok then 0 else -1;
    }

    /** `handle_watch_path_option`: the same checks, watching every inotify event. */
    method HandleWatchPathOption(monitor: Monitor, fd: int, path: string, created: int, exists_: bool, wd: int)
      returns (ok: bool)
      modifies monitor
      ensures !ValidateMonitorPath(path) ==> !ok && monitor.Snapshot() == old(monitor.Snapshot())
      ensures ValidateMonitorPath(path) && !monitor.IsInitialized() ==> !ok && monitor.Snapshot() == old(monitor.Snapshot())
      ensures ValidateMonitorPath(path) && monitor.IsInitialized() ==>
                (ok, monitor.Snapshot())
                == WatchAdded(old(monitor.Snapshot()), old(monitor.maxWatches), old(monitor.defaultRecursive), fd, path,
                              InAllEvents, exists_, wd)
    {
      ok := WatchPath(monitor, fd, path, InAllEvents, created, exists_, wd);
    }

    /** The steps `external_monitor_path` and `handle_watch_path_option` share. */
    method WatchPath(monitor: Monitor, fd: int, path: string, mask: bv32, created: int, exists_: bool, wd: int)
      returns (ok: bool)
      modifies monitor
      ensures !ValidateMonitorPath(path) ==> !ok && monitor.Snapshot() == old(monitor.Snapshot())
      ensures ValidateMonitorPath(path) && !monitor.IsInitialized() ==> !ok && monitor.Snapshot() == old(monitor.Snapshot())
      ensures ValidateMonitorPath(path) && monitor.IsInitialized() ==>
                (ok, monitor.Snapshot())
                == WatchAdded(old(monitor.Snapshot()), old(monitor.maxWatches), old(monitor.defaultRecursive), fd, path,
                              mask, exists_, wd)
    {
      if !ValidateMonitorPath(path) {
        return false;
      }
      if !monitor.IsInitialized() {
        ok := monitor.Initialize(created);
        if !ok {
          return false;
        }
      }
      ok := monitor.AddWatch(fd, path, mask, exists_, wd);
    }

    /** `external_stop_monitoring`: 0 when the path was watched, -1 otherwise. */
    method ExternalStopMonitoring(monitor: Monitor, fd: int, path: string) returns (rc: int)
      modifies monitor
      ensures rc == (if path in old(monitor.pathToWd) then 0 else -1)
      ensures monitor.Snapshot() == WatchRemoved(old(monitor.Snapshot()), fd, path).1
    {
      var ok := monitor.RemoveWatch(fd, path);
      return if ok then 0 else -1;
    }

    /** `remove_watch_path_option`. */
    method RemoveWatchPathOption(monitor: Monitor, fd: int, path: string) returns (ok: bool)
      modifies monitor
      ensures (ok, monitor.Snapshot()) == WatchRemoved(old(monitor.Snapshot()), fd, path)
    {
      ok := monitor.RemoveWatch(fd, path);
    }

    /** `cleanup_socket_monitors`: the socket's watches and its queue go. */
    method CleanupSocketMonitors(monitor: Monitor, fd: int)
      modifies this, monitor
      ensures monitor.Snapshot() == AllWatchesRemoved(old(monitor.Snapshot()), fd, ListOf(old(monitor.socketWatches), fd))
      ensures pendingEvents == old(pendingEvents) - {fd}
    {
      monitor.RemoveAllWatches(fd);
      pendingEvents := pendingEvents - {fd};
    }
  }
}
