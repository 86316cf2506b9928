/**
 * The channel registry of the gRPC package (`GrpcChannelManager`): open
 * channels by id with their targets, the backend addresses of each target,
 * the load-balancing policy and the connection settings.  Channel ids come
 * from the clock and a random generator, so the caller supplies them.
 */
module GrpcChannels {
  import opened Text
  import opened Wrappers
  import opened Seqs

  // ---------------------------------------------------------------------------
  // Target addresses
  // ---------------------------------------------------------------------------

  const IntMin: int := -0x8000_0000
  const IntMax: int := 0x7FFF_FFFF

  /**
   * `std::stoi`: leading white space, an optional sign and at least one digit;
   * what follows the digits is ignored.  None stands for the exception thrown
   * when there is no digit or the value does not fit in an `int`.
   */
  function Stoi(s: string): (r: Option<int>)
    ensures r.Some? ==> IntMin <= r.value <= IntMax
    ensures r.Some? ==> exists k :: 0 <= k < |s| && IsDigit(s[k])
  {
    var t := TrimStart(s);
    var signed := t != [] && (t[0] == '+' || t[0] == '-');
    var rest := if signed then t[1..] else t;
    var digits := LeadingDigits(rest);
    if digits == [] then None
    else
      assert digits[0] == rest[0] && rest[0] in s;
      var v: int := DigitsValue(digits);
      var value := if signed && t[0] == '-' then -v else v;
      if value < IntMin || value > IntMax then None else Some(value)
  }

  /** `validate_target_address`: "host" alone, or "host:port" with a port in 1..65535. */
  function ValidateTargetAddress(target: string): (ok: bool)
    ensures ok ==> target != []
    ensures ':' !in target ==> (ok <==> target != [])
    ensures ':' in target ==>
      var colon := FindChar(target, ':', 0);
      (ok <==> colon > 0 && colon + 1 < |target|
               && Stoi(target[colon + 1..]).Some? && 1 <= Stoi(target[colon + 1..]).value <= 65535)
  {
    FindCharMeaning(target, ':', 0);
    if target == [] then false
    else
      var colon := FindChar(target, ':', 0);
      if colon < 0 then true
      else
        var host := target[..colon];
        var port := target[colon + 1..];
        if host == [] || port == [] then false
        else
          match Stoi(port)
          case None => false
          case Some(p) => 1 <= p <= 65535
  }

  lemma {:induction false} AllDigitsLead(s: string)
    requires forall k :: 0 <= k < |s| ==> IsDigit(s[k])
    ensures LeadingDigits(s) == s
  {
    if s != [] {
      AllDigitsLead(s[1..]);
    }
  }

  /** A plain run of digits converts to its value, or fails when that does not fit in an `int`. */
  lemma StoiOfDigits(s: string)
    requires s != [] && forall k :: 0 <= k < |s| ==> IsDigit(s[k])
    ensures Stoi(s) == if DigitsValue(s) <= IntMax then Some(DigitsValue(s) as int) else None
  {
    StoiUnsigned(s);
    var v: int := DigitsValue(s);
    assert v >= 0;
  }

  /** With no white space or sign in front, `Stoi` reads the leading digits as they are. */
  lemma StoiNoSign(t: string)
    requires t != [] && TrimStart(t) == t && t[0] != '+' && t[0] != '-'
    ensures LeadingDigits(t) == [] ==> Stoi(t) == None
    ensures LeadingDigits(t) != [] ==> var v: int := DigitsValue(LeadingDigits(t));
      Stoi(t) == if v < IntMin || v > IntMax then None else Some(v)
  {
  }

  /** A plain run of digits converts to its value, or fails when that lies outside the `int` range. */
  lemma StoiUnsigned(s: string)
    requires s != [] && forall k :: 0 <= k < |s| ==> IsDigit(s[k])
    ensures var v: int := DigitsValue(s); Stoi(s) == if v < IntMin || v > IntMax then None else Some(v)
  {
    assert IsDigit(s[0]) && !IsSpace(s[0]);
    assert TrimStart(s) == s;
    AllDigitsLead(s);
    StoiNoSign(s);
  }

  /** A text that starts with a letter has no number to read. */
  lemma StoiOfName(s: string)
    requires s != [] && IsAlpha(s[0])
    ensures Stoi(s) == None
  {
    assert !IsSpace(s[0]) && s[0] != '+' && s[0] != '-' && !IsDigit(s[0]);
    assert TrimStart(s) == s;
  }

  /** "host:port" with a host free of ':' passes exactly when the port reads as a number in 1..65535. */
  lemma TargetParts(host: string, port: string)
    requires host != [] && ':' !in host
    ensures ValidateTargetAddress(host + ":" + port) <==>
      port != [] && Stoi(port).Some? && 1 <= Stoi(port).value <= 65535
  {
    var t := host + ":" + port;
    assert forall i :: 0 <= i < |host| ==> t[i] == host[i];
    FindCharFirst(t, ':', 0, |host|);
    assert t[|host| + 1..] == port;
  }

  lemma TargetWithPortAccepted(host: string, port: string)
    requires host != [] && ':' !in host
    requires port != [] && forall k :: 0 <= k < |port| ==> IsDigit(port[k])
    requires 1 <= DigitsValue(port) <= 65535
    ensures ValidateTargetAddress(host + ":" + port)
  {
    TargetParts(host, port);
    StoiOfDigits(port);
  }

  lemma TargetsWithoutHostOrPortRefused(host: string, port: string)
    requires host != [] && ':' !in host
    ensures !ValidateTargetAddress("")
    ensures !ValidateTargetAddress(":" + port)
    ensures !ValidateTargetAddress(host + ":")
  {
    assert FindChar(":" + port, ':', 0) == 0;
    TargetParts(host, "");
    assert host + ":" + "" == host + ":";
  }

  lemma PortZeroRefused(host: string, port: string)
    requires host != [] && ':' !in host
    requires port != [] && forall k :: 0 <= k < |port| ==> IsDigit(port[k])
    requires DigitsValue(port) == 0
    ensures !ValidateTargetAddress(host + ":" + port)
  {
    TargetParts(host, port);
    StoiOfDigits(port);
  }

  lemma PortAboveRangeRefused(host: string, port: string)
    requires host != [] && ':' !in host
    requires port != [] && forall k :: 0 <= k < |port| ==> IsDigit(port[k])
    requires DigitsValue(port) > 65535
    ensures !ValidateTargetAddress(host + ":" + port)
  {
    TargetParts(host, port);
    StoiOfDigits(port);
  }

  lemma PortNameRefused(host: string, port: string)
    requires host != [] && ':' !in host
    requires port != [] && IsAlpha(port[0])
    ensures !ValidateTargetAddress(host + ":" + port)
  {
    TargetParts(host, port);
    StoiOfName(port);
  }

  // ---------------------------------------------------------------------------
  // Backend lists
  // ---------------------------------------------------------------------------

  /** Every target with an entry has at least one backend, and no backend twice. */
  predicate BackendsValid(backends: map<string, seq<string>>)
  {
    forall t :: t in backends ==> backends[t] != [] && NoDup(backends[t])
  }

  /** `add_backend_address`: a valid address not yet listed is appended, creating the entry if needed. */
  function BackendAdded(backends: map<string, seq<string>>, target: string, address: string)
    : (r: map<string, seq<string>>)
    ensures !ValidateTargetAddress(address) ==> r == backends
    ensures ValidateTargetAddress(address) ==>
      target in r && address in r[target]
      && r.Keys == backends.Keys + {target}
      && (target in backends ==> |r[target]| >= |backends[target]| && r[target][..|backends[target]|] == backends[target])
    ensures forall t :: t in backends && t != target ==> t in r && r[t] == backends[t]
    ensures BackendsValid(backends) ==> BackendsValid(r)
  {
    if !ValidateTargetAddress(address) then backends
    else
      var list := if target in backends then backends[target] else [];
      if address in list then backends[target := list]
      else
        var list' := list + [address];
        assert list'[..|list|] == list;
        backends[target := list']
  }

  /** `remove_backend_address`: every copy of the address goes; an emptied target entry is erased. */
  function BackendRemoved(backends: map<string, seq<string>>, target: string, address: string)
    : (r: map<string, seq<string>>)
    ensures target !in backends ==> r == backends
    ensures target in r ==> (target in backends && address !in r[target]
                             && forall a :: a in r[target] <==> a in backends[target] && a != address)
    ensures target in backends && target !in r ==> forall a :: a in backends[target] ==> a == address
    ensures forall t :: t in backends && t != target ==> t in r && r[t] == backends[t]
    ensures r.Keys <= backends.Keys
    ensures BackendsValid(backends) ==> BackendsValid(r)
  {
    if target !in backends then backends
    else
      var rest := Erase(backends[target], address);
      EraseNoDup(backends[target], address);
      if rest == [] then backends - {target} else backends[target := rest]
  }

  /** Adding then removing an address not listed before leaves a valid target as it was. */
  lemma AddRemoveBackend(backends: map<string, seq<string>>, target: string, address: string)
    requires BackendsValid(backends) && target in backends && address !in backends[target]
    requires ValidateTargetAddress(address)
    ensures BackendRemoved(BackendAdded(backends, target, address), target, address) == backends
  {
    var list := backends[target];
    EraseAbsent(list, address);
    EraseLast(list, address);
  }

  lemma {:induction false} EraseAbsent(l: seq<string>, x: string)
    requires x !in l
    ensures Erase(l, x) == l
  {
    if l != [] {
      EraseAbsent(l[1..], x);
    }
  }

  lemma {:induction false} EraseLast(l: seq<string>, x: string)
    requires x !in l
    ensures Erase(l + [x], x) == l
  {
    if l == [] {
      assert [x][1..] == [];
    } else {
      assert (l + [x])[1..] == l[1..] + [x];
      EraseLast(l[1..], x);
    }
  }

  // ---------------------------------------------------------------------------
  // The manager
  // ---------------------------------------------------------------------------

  predicate KnownPolicy(policy: string)
  {
    policy == "pick_first" || policy == "round_robin" || policy == "grpclb"
  }

  class ChannelManager {
    var activeChannels: map<string, string>
    var targetBackends: map<string, seq<string>>
    var maxConnectionsPerTarget: int
    var connectionTimeoutMs: nat
    var keepaliveTimeMs: nat
    var keepaliveTimeoutMs: nat
    var loadBalancingPolicy: string

    ghost predicate Valid()
      reads this
    {
      BackendsValid(targetBackends) && KnownPolicy(loadBalancingPolicy)
    }

    constructor()
      ensures Valid()
      ensures activeChannels == map[] && targetBackends == map[]
      ensures maxConnectionsPerTarget == 100 && connectionTimeoutMs == 10000
      ensures keepaliveTimeMs == 30000 && keepaliveTimeoutMs == 5000
      ensures loadBalancingPolicy == "pick_first"
    {
      activeChannels := map[];
      targetBackends := map[];
      maxConnectionsPerTarget := 100;
      connectionTimeoutMs := 10000;
      keepaliveTimeMs := 30000;
      keepaliveTimeoutMs := 5000;
      loadBalancingPolicy := "pick_first";
    }

    /** `create_channel`: `freshId` is the id `generate_channel_id` produced. */
    method CreateChannel(target: string, freshId: string) returns (id: string)
      requires Valid() && freshId != []
      modifies this
      ensures Valid()
      ensures !ValidateTargetAddress(target) ==>
        id == [] && activeChannels == old(activeChannels) && targetBackends == old(targetBackends)
      ensures ValidateTargetAddress(target) ==>
        id == freshId && activeChannels == old(activeChannels)[freshId := target]
        && target in targetBackends
        && targetBackends == (if target in old(targetBackends) then old(targetBackends)
                              else old(targetBackends)[target := [target]])
      ensures loadBalancingPolicy == old(loadBalancingPolicy)
    {
      if !ValidateTargetAddress(target) {
        return [];
      }
      id := freshId;
      activeChannels := activeChannels[id := target];
      if target !in targetBackends {
        targetBackends := targetBackends[target := [target]];
      }
    }

    method CloseChannel(id: string) returns (ok: bool)
      modifies this
      ensures ok <==> id in old(activeChannels)
      ensures activeChannels == old(activeChannels) - {id}
      ensures targetBackends == old(targetBackends) && loadBalancingPolicy == old(loadBalancingPolicy)
    {
      ok := id in activeChannels;
      activeChannels := activeChannels - {id};
    }

    /** `is_channel_ready`: every open channel counts as ready. */
    predicate IsChannelReady(id: string)
      reads this
    {
      id in activeChannels
    }

    method SetMaxConnectionsPerTarget(n: int)
      modifies this
      ensures maxConnectionsPerTarget == n
      ensures activeChannels == old(activeChannels) && targetBackends == old(targetBackends)
      ensures loadBalancingPolicy == old(loadBalancingPolicy)
    {
      maxConnectionsPerTarget := n;
    }

    method SetConnectionTimeout(ms: nat)
      modifies this
      ensures connectionTimeoutMs == ms
      ensures activeChannels == old(activeChannels) && targetBackends == old(targetBackends)
      ensures loadBalancingPolicy == old(loadBalancingPolicy)
    {
      connectionTimeoutMs := ms;
    }

    method SetKeepaliveSettings(timeMs: nat, timeoutMs: nat)
      modifies this
      ensures keepaliveTimeMs == timeMs && keepaliveTimeoutMs == timeoutMs
      ensures activeChannels == old(activeChannels) && targetBackends == old(targetBackends)
      ensures loadBalancingPolicy == old(loadBalancingPolicy)
    {
      keepaliveTimeMs, keepaliveTimeoutMs := timeMs, timeoutMs;
    }

    /** `set_load_balancing_policy`: an unknown policy is ignored. */
    method SetLoadBalancingPolicy(policy: string)
      requires Valid()
      modifies this
      ensures Valid()
      ensures loadBalancingPolicy == (if KnownPolicy(policy) then policy else old(loadBalancingPolicy))
      ensures activeChannels == old(activeChannels) && targetBackends == old(targetBackends)
    {
      if KnownPolicy(policy) {
        loadBalancingPolicy := policy;
      }
    }

    method AddBackendAddress(target: string, address: string)
      requires Valid()
      modifies this
      ensures Valid()
      ensures targetBackends == BackendAdded(old(targetBackends), target, address)
      ensures activeChannels == old(activeChannels) && loadBalancingPolicy == old(loadBalancingPolicy)
    {
      targetBackends := BackendAdded(targetBackends, target, address);
    }

    method RemoveBackendAddress(target: string, address: string)
      requires Valid()
      modifies this
      ensures Valid()
      ensures targetBackends == BackendRemoved(old(targetBackends), target, address)
      ensures activeChannels == old(activeChannels) && loadBalancingPolicy == old(loadBalancingPolicy)
    {
      targetBackends := BackendRemoved(targetBackends, target, address);
    }

    /** `get_channel_stats`: empty for an unknown id. */
    function ChannelStats(id: string): (stats: map<string, string>)
      reads this
      ensures id !in activeChannels <==> stats == map[]
      ensures id in activeChannels ==>
        "channel_id" in stats && stats["channel_id"] == id && "target" in stats
        && stats["target"] == activeChannels[id] && "state" in stats && stats["state"] == "READY"
        && ("total_backends" in stats <==> activeChannels[id] in targetBackends)
    {
      if id !in activeChannels then map[]
      else
        var target := activeChannels[id];
        var base := map["channel_id" := id, "target" := target, "state" := "READY",
                        "connected_backends" := "1", "total_requests" := "0", "failed_requests" := "0"];
        assert "channel_id" in base;
        if target in targetBackends then base["total_backends" := NatToString(|targetBackends[target]|)]
        else base
    }

    /** `get_active_channels`: the open ids. */
    function ActiveChannels(): (ids: set<string>)
      reads this
      ensures forall id :: id in ids <==> IsChannelReady(id)
    {
      activeChannels.Keys
    }

    /** `cleanup_inactive_channels`: no channel is ever judged inactive. */
    method CleanupInactiveChannels()
      modifies this
      ensures activeChannels == old(activeChannels) && targetBackends == old(targetBackends)
      ensures loadBalancingPolicy == old(loadBalancingPolicy)
    {
    }
  }
}
