// What the agent's firewall enforcer does to the kernel chain, command by command.
// Every `nft` command may fail; when and how is an oracle of the host, so a statement about every
// host is a statement about every pattern of failures.
module Enforcement {
  import opened Wrappers
  import opened Strings
  import opened PacketFilter

  datatype PortRule = PortRule(port: Port, protocol: string)

  datatype Entry = Entry(port: Port, protocol: string, handles: seq<nat>)

  // HandleLost: nft added the rule, but no handle could be parsed from its output.
  datatype AddOutcome = Added | Refused | HandleLost

  // The two outcomes are indexed by the number of nft commands issued so far.
  datatype Host = Host(tun: string, addOutcome: nat -> AddOutcome, deleteFails: nat -> bool)

  // orphans: handles of rules in the chain that the enforcer does not track.
  // trail: the chain after each command issued so far.
  datatype Kernel = Kernel(chain: Chain, nextHandle: nat, clock: nat, orphans: set<nat>, trail: seq<Chain>)

  datatype State = State(kernel: Kernel, protected: map<Port, Entry>)

  function Become(k: Kernel, chain: Chain): Kernel {
    k.(chain := chain, clock := k.clock + 1, trail := k.trail + [chain])
  }

  function AddRule(h: Host, k: Kernel, test: Match, verdict: Verdict): (Kernel, Option<nat>) {
    var extended := Become(k, k.chain + [Rule(k.nextHandle, test, verdict)]).(nextHandle := k.nextHandle + 1);
    match h.addOutcome(k.clock)
    case Added => (extended, Some(k.nextHandle))
    case Refused => (Become(k, k.chain), None)
    case HandleLost => (extended.(orphans := k.orphans + {k.nextHandle}), None)
  }

  // A failed delete is only logged: the rule stays and is forgotten.
  function DeleteRule(h: Host, k: Kernel, handle: nat): Kernel {
    if h.deleteFails(k.clock) then
      Become(k, k.chain).(orphans := k.orphans + ({handle} * Handles(k.chain)))
    else
      Become(k, Excluding(k.chain, {handle})).(orphans := k.orphans - {handle})
  }

  function DeleteRules(h: Host, k: Kernel, handles: seq<nat>): Kernel
    decreases |handles|
  {
    if handles == [] then k else DeleteRules(h, DeleteRule(h, k, handles[0]), handles[1..])
  }

  function LoTest(proto: string, port: Port): Match { Match(Some("lo"), proto, port) }

  function TunTest(h: Host, proto: string, port: Port): Match { Match(Some(h.tun), proto, port) }

  function AnyTest(proto: string, port: Port): Match { Match(None, proto, port) }

  function ProtectPort(h: Host, k: Kernel, port: Port, protocol: string): (Kernel, Option<seq<nat>>) {
    var proto := ToLower(protocol);
    var (k1, lo) := AddRule(h, k, LoTest(proto, port), Accept);
    if lo == None then (k1, None) else
      var (k2, tun) := AddRule(h, k1, TunTest(h, proto, port), Accept);
      if tun == None then (DeleteRules(h, k2, [lo.value]), None) else
        var (k3, drop) := AddRule(h, k2, AnyTest(proto, port), Drop);
        if drop == None then (DeleteRules(h, k3, [lo.value, tun.value]), None)
        else (k3, Some([lo.value, tun.value, drop.value]))
  }

  function UnprotectPort(h: Host, s: State, port: Port): State {
    if port in s.protected then
      State(DeleteRules(h, s.kernel, s.protected[port].handles), s.protected - {port})
    else s
  }

  function RemovePorts(h: Host, s: State, ports: seq<Port>): State
    decreases |ports|
  {
    if ports == [] then s else RemovePorts(h, UnprotectPort(h, s, ports[0]), ports[1..])
  }

  function AddDesired(h: Host, s: State, rule: PortRule): State {
    if rule.port in s.protected then s else
      var (k, handles) := ProtectPort(h, s.kernel, rule.port, rule.protocol);
      if handles == None then s.(kernel := k)
      else State(k, s.protected[rule.port := Entry(rule.port, rule.protocol, handles.value)])
  }

  function AddAll(h: Host, s: State, desired: seq<PortRule>): State
    decreases |desired|
  {
    if desired == [] then s else AddAll(h, AddDesired(h, s, desired[0]), desired[1..])
  }

  function Ports(rules: seq<PortRule>): set<Port> {
    set r | r in rules :: r.port
  }

  // The protocol of the first rule for a port.
  function FirstProtocol(desired: seq<PortRule>, port: Port): Option<string> {
    if desired == [] then None
    else if desired[0].port == port then Some(desired[0].protocol)
    else FirstProtocol(desired[1..], port)
  }

  lemma {:induction false} FirstProtocolExists(desired: seq<PortRule>, port: Port)
    ensures FirstProtocol(desired, port).Some? <==> port in Ports(desired)
    ensures FirstProtocol(desired, port).Some? ==> PortRule(port, FirstProtocol(desired, port).value) in desired
  {
    if desired != [] {
      FirstProtocolExists(desired[1..], port);
      assert desired == [desired[0]] + desired[1..];
      if port in Ports(desired) && desired[0].port != port {
        var r :| r in desired && r.port == port;
        assert r in desired[1..];
      }
    }
  }

  // The first, in the order in which they are listed.
  lemma {:induction false} FirstProtocolAt(desired: seq<PortRule>, i: nat)
    requires i < |desired| && forall j :: 0 <= j < i ==> desired[j].port != desired[i].port
    ensures FirstProtocol(desired, desired[i].port) == Some(desired[i].protocol)
  {
    if i > 0 {
      FirstProtocolAt(desired[1..], i - 1);
    }
  }

  lemma {:induction false} FirstProtocolConcat(a: seq<PortRule>, b: seq<PortRule>, port: Port)
    ensures FirstProtocol(a + b, port) == if port in Ports(a) then FirstProtocol(a, port) else FirstProtocol(b, port)
  {
    if a == [] {
      assert a + b == b;
    } else {
      FirstProtocolConcat(a[1..], b, port);
      assert (a + b)[1..] == a[1..] + b;
      assert a == [a[0]] + a[1..];
    }
  }

  function Stale(s: State, desired: seq<PortRule>): set<Port> {
    s.protected.Keys - Ports(desired)
  }

  // `order` is the listing of the stale ports.
  function SyncPolicy(h: Host, s: State, order: seq<Port>, desired: seq<PortRule>): State {
    AddAll(h, RemovePorts(h, s, order), desired)
  }

  function Elements(handles: seq<nat>): set<nat> {
    set x | x in handles
  }

  // --- The invariant ---

  // The rules the enforcer still tracks.
  function Live(k: Kernel): Chain {
    Excluding(k.chain, k.orphans)
  }

  function Triple(h: Host, e: Entry): Chain {
    if |e.handles| != 3 then [] else
      var proto := ToLower(e.protocol);
      [Rule(e.handles[0], LoTest(proto, e.port), Accept),
       Rule(e.handles[1], TunTest(h, proto, e.port), Accept),
       Rule(e.handles[2], AnyTest(proto, e.port), Drop)]
  }

  function Expected(h: Host, protected: map<Port, Entry>, port: Port): Chain {
    if port in protected then Triple(h, protected[port]) else []
  }

  ghost predicate KernelOk(k: Kernel) {
    Ordered(k.chain, k.nextHandle) && k.orphans <= Handles(k.chain)
  }

  ghost predicate EntriesOk(protected: map<Port, Entry>) {
    forall p :: p in protected ==> protected[p].port == p && |protected[p].handles| == 3
  }

  // Accept rules are for loopback or the tunnel, and drop rules for every interface.
  predicate Shaped(h: Host, test: Match, verdict: Verdict) {
    match verdict
    case Accept => test.iif == Some("lo") || test.iif == Some(h.tun)
    case Drop => test.iif == None
  }

  ghost predicate AllShaped(h: Host, chain: Chain) {
    forall r :: r in chain ==> Shaped(h, r.test, r.verdict)
  }

  // Leaving orphans aside, each port carries its lo / tun / drop triple, in that order, or nothing.
  ghost predicate Inv(h: Host, s: State) {
    && KernelOk(s.kernel)
    && AllShaped(h, s.kernel.chain)
    && EntriesOk(s.protected)
    && forall p: Port :: OnPort(Live(s.kernel), p) == Expected(h, s.protected, p)
  }

  const Fresh := State(Kernel([], 0, 0, {}, []), map[])

  // --- One command ---

  lemma AddRuleEffect(h: Host, k: Kernel, test: Match, verdict: Verdict)
    requires KernelOk(k)
    ensures var (k', handle) := AddRule(h, k, test, verdict);
      && KernelOk(k')
      && k.nextHandle <= k'.nextHandle
      && (handle.Some? ==> handle.value == k.nextHandle < k'.nextHandle)
      && Live(k') == Live(k) + (if handle.Some? then [Rule(handle.value, test, verdict)] else [])
  {
    var r := Rule(k.nextHandle, test, verdict);
    AppendHandles(k.chain, r, k.nextHandle);
    ExcludingAppend(k.chain, r, k.orphans);
    if h.addOutcome(k.clock) == HandleLost {
      ExcludingAppend(k.chain, r, k.orphans + {r.handle});
      LiveBelow(k);
      ExcludingNone(Live(k), {r.handle});
      ExcludingTwice(k.chain, k.orphans, {r.handle});
    } else {
      assert k.nextHandle !in k.orphans;
    }
  }

  lemma AppendHandles(chain: Chain, r: Rule, nextHandle: nat)
    requires Ordered(chain, nextHandle) && r.handle == nextHandle
    ensures Ordered(chain + [r], nextHandle + 1)
    ensures Handles(chain + [r]) == Handles(chain) + {nextHandle}
    ensures forall x :: x in Handles(chain) ==> x < nextHandle
  {
    var grown := chain + [r];
    assert grown[|chain|] == r;
    forall q | q in chain ensures q in grown && q.handle < nextHandle {
    }
    assert forall q :: q in grown <==> q in chain || q == r;
  }

  lemma DeleteRuleEffect(h: Host, k: Kernel, handle: nat)
    requires KernelOk(k)
    ensures KernelOk(DeleteRule(h, k, handle))
    ensures Live(DeleteRule(h, k, handle)) == Excluding(Live(k), {handle})
  {
    var k' := DeleteRule(h, k, handle);
    ExcludingKeepsOrder(k.chain, {handle}, k.nextHandle);
    ExcludingMembers(k.chain, {handle});
    ExcludingTwice(k.chain, k.orphans, {handle});
    if h.deleteFails(k.clock) {
      if handle !in Handles(k.chain) {
        ExcludingMembers(k.chain, k.orphans);
        ExcludingNone(Live(k), {handle});
        assert k'.orphans == k.orphans;
      } else {
        assert k'.orphans == k.orphans + {handle};
      }
    } else {
      ExcludingTwice(k.chain, {handle}, k.orphans - {handle});
      assert {handle} + (k.orphans - {handle}) == k.orphans + {handle};
      forall x | x in k'.orphans ensures x in Handles(k'.chain) {
        var q :| q in k.chain && q.handle == x;
        assert q in k'.chain;
      }
    }
  }

  lemma {:induction false} DeleteRulesEffect(h: Host, k: Kernel, handles: seq<nat>)
    requires KernelOk(k)
    ensures KernelOk(DeleteRules(h, k, handles))
    ensures Live(DeleteRules(h, k, handles)) == Excluding(Live(k), Elements(handles))
    decreases |handles|
  {
    if handles == [] {
      ExcludingNone(Live(k), Elements(handles));
    } else {
      DeleteRuleEffect(h, k, handles[0]);
      DeleteRulesEffect(h, DeleteRule(h, k, handles[0]), handles[1..]);
      ExcludingTwice(Live(k), {handles[0]}, Elements(handles[1..]));
      assert {handles[0]} + Elements(handles[1..]) == Elements(handles);
    }
  }

  // Deleting freshly appended rules restores the tracked chain.
  lemma RollbackEffect(h: Host, k: Kernel, base: Chain, added: Chain, handles: seq<nat>)
    requires KernelOk(k) && Live(k) == base + added && |added| == |handles|
    requires forall i :: 0 <= i < |added| ==> added[i].handle == handles[i]
    requires forall r :: r in base ==> r.handle !in handles
    ensures KernelOk(DeleteRules(h, k, handles)) && Live(DeleteRules(h, k, handles)) == base
  {
    DeleteRulesEffect(h, k, handles);
    Undo(base, added, Elements(handles));
  }

  // Protecting a port appends its triple; failing at any of the three commands leaves the
  // tracked rules as they were.
  lemma ProtectPortEffect(h: Host, k: Kernel, port: Port, protocol: string)
    requires KernelOk(k)
    ensures var (k', handles) := ProtectPort(h, k, port, protocol);
      && KernelOk(k')
      && (handles.Some? ==> |handles.value| == 3)
      && Live(k') == Live(k) + (if handles.Some? then Triple(h, Entry(port, protocol, handles.value)) else [])
  {
    var proto := ToLower(protocol);
    LiveBelow(k);
    AddRuleEffect(h, k, LoTest(proto, port), Accept);
    var (k1, lo) := AddRule(h, k, LoTest(proto, port), Accept);
    if lo.Some? {
      ProtectPortRest(h, k, k1, port, protocol, lo.value);
    }
  }

  // From a loopback rule in place.
  lemma ProtectPortRest(h: Host, k: Kernel, k1: Kernel, port: Port, protocol: string, lo: nat)
    requires var proto := ToLower(protocol);
      && AddRule(h, k, LoTest(proto, port), Accept) == (k1, Some(lo))
      && KernelOk(k1) && lo < k1.nextHandle
      && Live(k1) == Live(k) + [Rule(lo, LoTest(proto, port), Accept)]
    requires forall r :: r in Live(k) ==> r.handle < lo
    ensures var (k', handles) := ProtectPort(h, k, port, protocol);
      && KernelOk(k')
      && (handles.Some? ==> |handles.value| == 3)
      && Live(k') == Live(k) + (if handles.Some? then Triple(h, Entry(port, protocol, handles.value)) else [])
  {
    var proto := ToLower(protocol);
    var r1 := Rule(lo, LoTest(proto, port), Accept);
    AddRuleEffect(h, k1, TunTest(h, proto, port), Accept);
    var (k2, tun) := AddRule(h, k1, TunTest(h, proto, port), Accept);
    if tun == None {
      RollbackEffect(h, k2, Live(k), [r1], [lo]);
    } else {
      var r2 := Rule(tun.value, TunTest(h, proto, port), Accept);
      assert Live(k2) == Live(k) + [r1, r2];
      ProtectPortLast(h, k2, Live(k), r1, r2, AnyTest(proto, port));
    }
  }

  // The third add: the drop rule is appended, or the two accept rules go.
  lemma ProtectPortLast(h: Host, k: Kernel, base: Chain, r1: Rule, r2: Rule, test: Match)
    requires KernelOk(k) && Live(k) == base + [r1, r2]
    requires forall r :: r in base ==> r.handle < r1.handle
    requires r1.handle < r2.handle
    ensures var (k', drop) := AddRule(h, k, test, Drop);
      if drop == None then
        var k'' := DeleteRules(h, k', [r1.handle, r2.handle]);
        KernelOk(k'') && Live(k'') == base
      else
        KernelOk(k') && Live(k') == base + [r1, r2, Rule(drop.value, test, Drop)]
  {
    AddRuleEffect(h, k, test, Drop);
    var (k', drop) := AddRule(h, k, test, Drop);
    if drop == None {
      RollbackEffect(h, k', base, [r1, r2], [r1.handle, r2.handle]);
    }
  }

  lemma LiveBelow(k: Kernel)
    requires KernelOk(k)
    ensures forall r :: r in Live(k) ==> r.handle < k.nextHandle
  {
    ExcludingMembers(k.chain, k.orphans);
  }

  // Taking freshly appended rules away again.
  lemma {:induction false} Undo(chain: Chain, added: Chain, handles: set<nat>)
    requires forall r :: r in chain ==> r.handle !in handles
    requires forall i :: 0 <= i < |added| ==> added[i].handle in handles
    ensures Excluding(chain + added, handles) == chain
    decreases |added|
  {
    if added == [] {
      assert chain + added == chain;
      ExcludingNone(chain, handles);
    } else {
      var last := |added| - 1;
      assert chain + added == (chain + added[..last]) + [added[last]];
      ExcludingAppend(chain + added[..last], added[last], handles);
      Undo(chain, added[..last], handles);
    }
  }

  // --- The shape of the rules, forgotten ones included ---

  lemma AddRuleShaped(h: Host, k: Kernel, test: Match, verdict: Verdict)
    requires AllShaped(h, k.chain) && Shaped(h, test, verdict)
    ensures AllShaped(h, AddRule(h, k, test, verdict).0.chain)
  {
  }

  lemma {:induction false} DeleteRulesShaped(h: Host, k: Kernel, handles: seq<nat>)
    requires AllShaped(h, k.chain)
    ensures AllShaped(h, DeleteRules(h, k, handles).chain)
    decreases |handles|
  {
    if handles != [] {
      ExcludingMembers(k.chain, {handles[0]});
      DeleteRulesShaped(h, DeleteRule(h, k, handles[0]), handles[1..]);
    }
  }

  lemma ProtectPortShaped(h: Host, k: Kernel, port: Port, protocol: string)
    requires AllShaped(h, k.chain)
    ensures AllShaped(h, ProtectPort(h, k, port, protocol).0.chain)
  {
    var proto := ToLower(protocol);
    AddRuleShaped(h, k, LoTest(proto, port), Accept);
    var (k1, lo) := AddRule(h, k, LoTest(proto, port), Accept);
    if lo.Some? {
      AddRuleShaped(h, k1, TunTest(h, proto, port), Accept);
      var (k2, tun) := AddRule(h, k1, TunTest(h, proto, port), Accept);
      if tun == None {
        DeleteRulesShaped(h, k2, [lo.value]);
      } else {
        AddRuleShaped(h, k2, AnyTest(proto, port), Drop);
        DeleteRulesShaped(h, AddRule(h, k2, AnyTest(proto, port), Drop).0, [lo.value, tun.value]);
      }
    }
  }

  // --- Every operation keeps the invariant, whatever fails ---

  lemma FreshInv(h: Host)
    ensures Inv(h, Fresh)
  {
  }

  lemma UnprotectPortInv(h: Host, s: State, port: Port)
    requires Inv(h, s)
    ensures Inv(h, UnprotectPort(h, s, port))
  {
    if port in s.protected {
      var e := s.protected[port];
      var s' := UnprotectPort(h, s, port);
      var gone := Elements(e.handles);
      DeleteRulesEffect(h, s.kernel, e.handles);
      DeleteRulesShaped(h, s.kernel, e.handles);
      forall p: Port ensures OnPort(Live(s'.kernel), p) == Expected(h, s'.protected, p) {
        ExcludingOnPort(Live(s.kernel), gone, p);
        if p == port {
          assert Expected(h, s.protected, p) == [] + Triple(h, e);
          Undo([], Triple(h, e), gone);
        } else {
          HandlesBelongToOnePort(h, s, port, p);
          ExcludingNone(OnPort(Live(s.kernel), p), gone);
        }
      }
    }
  }

  lemma SameHandleSameRule(chain: Chain, nextHandle: nat, r: Rule, q: Rule)
    requires Ordered(chain, nextHandle) && r in chain && q in chain && r.handle == q.handle
    ensures r == q
  {
    var i :| 0 <= i < |chain| && chain[i] == r;
    var j :| 0 <= j < |chain| && chain[j] == q;
    assert i == j;
  }

  // A live rule of a port has a handle that no live rule of another port has.
  lemma LiveHandlesApart(k: Kernel, mine: Rule, port: Port, other: Port)
    requires KernelOk(k) && mine in OnPort(Live(k), port) && other != port
    ensures forall r :: r in OnPort(Live(k), other) ==> r.handle != mine.handle
  {
    OnPortMembers(Live(k), other);
    OnPortMembers(Live(k), port);
    ExcludingMembers(k.chain, k.orphans);
    forall r | r in OnPort(Live(k), other) ensures r.handle != mine.handle {
      if r.handle == mine.handle {
        SameHandleSameRule(k.chain, k.nextHandle, mine, r);
      }
    }
  }

  // No other port's rule carries a handle of this port's entry.
  lemma HandlesBelongToOnePort(h: Host, s: State, port: Port, other: Port)
    requires Inv(h, s) && port in s.protected && other != port
    ensures forall r :: r in OnPort(Live(s.kernel), other) ==> r.handle !in s.protected[port].handles
  {
    var e := s.protected[port];
    var mine := OnPort(Live(s.kernel), port);
    assert mine == Triple(h, e);
    forall i | 0 <= i < 3
      ensures forall r :: r in OnPort(Live(s.kernel), other) ==> r.handle != e.handles[i]
    {
      assert mine[i] in mine;
      LiveHandlesApart(s.kernel, mine[i], port, other);
    }
  }

  lemma {:induction false} RemovePortsInv(h: Host, s: State, ports: seq<Port>)
    requires Inv(h, s)
    ensures Inv(h, RemovePorts(h, s, ports))
    decreases |ports|
  {
    if ports != [] {
      UnprotectPortInv(h, s, ports[0]);
      RemovePortsInv(h, UnprotectPort(h, s, ports[0]), ports[1..]);
    }
  }

  lemma AddDesiredInv(h: Host, s: State, rule: PortRule)
    requires Inv(h, s)
    ensures Inv(h, AddDesired(h, s, rule))
  {
    if rule.port !in s.protected {
      ProtectPortEffect(h, s.kernel, rule.port, rule.protocol);
      ProtectPortShaped(h, s.kernel, rule.port, rule.protocol);
      var s' := AddDesired(h, s, rule);
      var (k, handles) := ProtectPort(h, s.kernel, rule.port, rule.protocol);
      if handles.Some? {
        var e := Entry(rule.port, rule.protocol, handles.value);
        forall p: Port ensures OnPort(Live(s'.kernel), p) == Expected(h, s'.protected, p) {
          OnPortAppendAll(Live(s.kernel), Triple(h, e), p);
          OneEntryOnePort(h, e, p);
          assert OnPort(Live(s.kernel), p) == Expected(h, s.protected, p);
        }
      } else {
        assert Live(k) == Live(s.kernel);
      }
    }
  }

  lemma OneEntryOnePort(h: Host, e: Entry, p: Port)
    ensures OnPort(Triple(h, e), p) == if p == e.port then Triple(h, e) else []
  {
    if |e.handles| == 3 {
      var t := Triple(h, e);
      assert t == [] + [t[0]] + [t[1]] + [t[2]];
      OnPortAppend([], t[0], p);
      OnPortAppend([] + [t[0]], t[1], p);
      OnPortAppend([] + [t[0]] + [t[1]], t[2], p);
    }
  }

  lemma {:induction false} OnPortAppendAll(chain: Chain, added: Chain, p: Port)
    ensures OnPort(chain + added, p) == OnPort(chain, p) + OnPort(added, p)
    decreases |added|
  {
    if added == [] {
      assert chain + added == chain;
    } else {
      var last := |added| - 1;
      assert added == added[..last] + [added[last]];
      assert chain + added == (chain + added[..last]) + [added[last]];
      OnPortAppend(chain + added[..last], added[last], p);
      OnPortAppend(added[..last], added[last], p);
      OnPortAppendAll(chain, added[..last], p);
    }
  }

  lemma {:induction false} AddAllInv(h: Host, s: State, desired: seq<PortRule>)
    requires Inv(h, s)
    ensures Inv(h, AddAll(h, s, desired))
    decreases |desired|
  {
    if desired != [] {
      AddDesiredInv(h, s, desired[0]);
      AddAllInv(h, AddDesired(h, s, desired[0]), desired[1..]);
    }
  }

  lemma SyncPolicyInv(h: Host, s: State, order: seq<Port>, desired: seq<PortRule>)
    requires Inv(h, s)
    ensures Inv(h, SyncPolicy(h, s, order, desired))
  {
    RemovePortsInv(h, s, order);
    AddAllInv(h, RemovePorts(h, s, order), desired);
  }
}
