// What happens to loopback and tunnel traffic over whole runs of syncs, at every step between.
module TrustedTraffic {
  import opened Wrappers
  import opened Strings
  import opened PacketFilter
  import opened Enforcement
  import opened EnforcementTheorems
  import opened EnforcementSteps

  // --- Every run, whatever fails ---

  ghost predicate DroppedEver(k: Kernel, p: Packet) {
    exists i :: 0 <= i < |k.trail| && Evaluate(k.trail[i], p) == Drop
  }

  // The trail ends with the chain there is.
  ghost predicate UpToDate(k: Kernel) {
    k.chain == if k.trail == [] then [] else k.trail[|k.trail| - 1]
  }

  lemma DroppedLater(a: Kernel, b: Kernel, p: Packet)
    requires a.trail <= b.trail
    ensures DroppedEver(b, p) <==> DroppedEver(a, p) || DroppedBetween(a, b, p)
  {
    if i :| 0 <= i < |a.trail| && Evaluate(a.trail[i], p) == Drop {
      assert b.trail[i] == a.trail[i];
    }
    if i :| 0 <= i < |b.trail| && Evaluate(b.trail[i], p) == Drop {
      assert i < |a.trail| ==> b.trail[i] == a.trail[i];
    }
  }

  lemma DroppedNow(k: Kernel, p: Packet)
    requires UpToDate(k) && Evaluate(k.chain, p) == Drop
    ensures DroppedEver(k, p)
  {
    assert k.trail[|k.trail| - 1] == k.chain;
  }

  lemma {:induction false} DeleteRulesTrail(h: Host, k: Kernel, handles: seq<nat>)
    requires UpToDate(k)
    ensures k.trail <= DeleteRules(h, k, handles).trail && UpToDate(DeleteRules(h, k, handles))
    decreases |handles|
  {
    if handles != [] {
      DeleteRulesTrail(h, DeleteRule(h, k, handles[0]), handles[1..]);
    }
  }

  lemma ProtectPortTrail(h: Host, k: Kernel, port: Port, protocol: string)
    ensures k.trail <= ProtectPort(h, k, port, protocol).0.trail && UpToDate(ProtectPort(h, k, port, protocol).0)
  {
    var proto := ToLower(protocol);
    var (k1, lo) := AddRule(h, k, LoTest(proto, port), Accept);
    if lo.Some? {
      var (k2, tun) := AddRule(h, k1, TunTest(h, proto, port), Accept);
      if tun == None {
        DeleteRulesTrail(h, k2, [lo.value]);
      } else {
        DeleteRulesTrail(h, AddRule(h, k2, AnyTest(proto, port), Drop).0, [lo.value, tun.value]);
      }
    }
  }

  // Protecting a port cuts the packet off: nothing earlier in the chain decides about it, it is for that
  // port, and the rollback takes its accept rule from under a drop rule whose handle was lost.
  predicate ProtectCuts(h: Host, k: Kernel, port: Port, protocol: string, p: Packet) {
    !Hit(k.chain, p) && p.dport == port && p.proto == ToLower(protocol) && CutsOff(h, k.clock, GateOf(p))
  }

  // Unprotecting one does: the delete of its accept rule succeeds, and the chain without it drops the packet.
  predicate UnprotectCuts(h: Host, s: State, port: Port, p: Packet) {
    port in s.protected && |s.protected[port].handles| == 3
    && !h.deleteFails(s.kernel.clock + GateOf(p))
    && Evaluate(Excluding(s.kernel.chain, {s.protected[port].handles[GateOf(p)]}), p) == Drop
  }

  predicate RemoveCuts(h: Host, s: State, ports: seq<Port>, p: Packet)
    decreases |ports|
  {
    ports != [] && (UnprotectCuts(h, s, ports[0], p) || RemoveCuts(h, UnprotectPort(h, s, ports[0]), ports[1..], p))
  }

  predicate DesiredCuts(h: Host, s: State, rule: PortRule, p: Packet) {
    rule.port !in s.protected && ProtectCuts(h, s.kernel, rule.port, rule.protocol, p)
  }

  predicate AddCuts(h: Host, s: State, desired: seq<PortRule>, p: Packet)
    decreases |desired|
  {
    desired != [] && (DesiredCuts(h, s, desired[0], p) || AddCuts(h, AddDesired(h, s, desired[0]), desired[1..], p))
  }

  predicate RunCuts(h: Host, s: State, syncs: seq<Sync>, p: Packet)
    decreases |syncs|
  {
    syncs != []
    && var s1 := RemovePorts(h, s, syncs[0].order);
    || RemoveCuts(h, s, syncs[0].order, p)
    || AddCuts(h, s1, syncs[0].desired, p)
    || RunCuts(h, AddAll(h, s1, syncs[0].desired), syncs[1..], p)
  }

  ghost predicate Ready(h: Host, s: State) {
    Inv(h, s) && UpToDate(s.kernel) && h.tun != "lo"
  }

  lemma UnprotectStep(h: Host, s: State, port: Port, p: Packet)
    requires Ready(h, s) && Trusted(h, p)
    ensures var v := UnprotectPort(h, s, port);
      Ready(h, v) && (DroppedEver(v.kernel, p) <==> DroppedEver(s.kernel, p) || UnprotectCuts(h, s, port, p))
  {
    UnprotectPortInv(h, s, port);
    if port in s.protected {
      DeleteRulesTrail(h, s.kernel, s.protected[port].handles);
      DroppedLater(s.kernel, UnprotectPort(h, s, port).kernel, p);
      if Evaluate(s.kernel.chain, p) == Drop {
        DroppedNow(s.kernel, p);
      } else {
        UnprotectDrops(h, s, port, p);
      }
    }
  }

  lemma {:induction false} RemoveSteps(h: Host, s: State, ports: seq<Port>, p: Packet)
    requires Ready(h, s) && Trusted(h, p)
    ensures var v := RemovePorts(h, s, ports);
      Ready(h, v) && (DroppedEver(v.kernel, p) <==> DroppedEver(s.kernel, p) || RemoveCuts(h, s, ports, p))
    decreases |ports|
  {
    if ports != [] {
      UnprotectStep(h, s, ports[0], p);
      RemoveSteps(h, UnprotectPort(h, s, ports[0]), ports[1..], p);
    }
  }

  lemma AddStep(h: Host, s: State, rule: PortRule, p: Packet)
    requires Ready(h, s) && Trusted(h, p)
    ensures var v := AddDesired(h, s, rule);
      Ready(h, v) && (DroppedEver(v.kernel, p) <==> DroppedEver(s.kernel, p) || DesiredCuts(h, s, rule, p))
  {
    AddDesiredInv(h, s, rule);
    if rule.port !in s.protected {
      ProtectPortTrail(h, s.kernel, rule.port, rule.protocol);
      DroppedLater(s.kernel, ProtectPort(h, s.kernel, rule.port, rule.protocol).0, p);
      ProtectKeepsTrustedTraffic(h, s.kernel, rule.port, rule.protocol, p);
      if Evaluate(s.kernel.chain, p) == Drop {
        DroppedNow(s.kernel, p);
      }
    }
  }

  lemma {:induction false} AddSteps(h: Host, s: State, desired: seq<PortRule>, p: Packet)
    requires Ready(h, s) && Trusted(h, p)
    ensures var v := AddAll(h, s, desired);
      Ready(h, v) && (DroppedEver(v.kernel, p) <==> DroppedEver(s.kernel, p) || AddCuts(h, s, desired, p))
    decreases |desired|
  {
    if desired != [] {
      AddStep(h, s, desired[0], p);
      AddSteps(h, AddDesired(h, s, desired[0]), desired[1..], p);
    }
  }

  lemma {:induction false} RunSteps(h: Host, s: State, syncs: seq<Sync>, p: Packet)
    requires Ready(h, s) && Trusted(h, p)
    ensures DroppedEver(Run(h, s, syncs).kernel, p) <==> DroppedEver(s.kernel, p) || RunCuts(h, s, syncs, p)
    decreases |syncs|
  {
    if syncs != [] {
      var s1 := RemovePorts(h, s, syncs[0].order);
      RemoveSteps(h, s, syncs[0].order, p);
      AddSteps(h, s1, syncs[0].desired, p);
      RunSteps(h, AddAll(h, s1, syncs[0].desired), syncs[1..], p);
    }
  }

  // In every run from the start, on every host, a loopback or tunnel packet is dropped at some moment exactly
  // when one of the run's operations cuts it off.
  lemma RunCutsTrustedTraffic(h: Host, syncs: seq<Sync>, p: Packet)
    requires h.tun != "lo" && Trusted(h, p)
    ensures DroppedBetween(Fresh.kernel, Run(h, Fresh, syncs).kernel, p) <==> RunCuts(h, Fresh, syncs, p)
  {
    FreshInv(h);
    RunSteps(h, Fresh, syncs, p);
    DroppedLater(Fresh.kernel, Run(h, Fresh, syncs).kernel, p);
  }

  // --- Runs without lost handles and failed deletes ---

  // Nothing is left over from failures, and none happens before a clock reading.
  ghost predicate Clean(h: Host, s: State, until: nat) {
    Inv(h, s) && s.kernel.orphans == {} && h.tun != "lo" && Tidy(h, s.kernel.clock, until)
  }

  lemma TrustedPasses(h: Host, s: State, until: nat, p: Packet)
    requires Clean(h, s, until) && Trusted(h, p)
    ensures Evaluate(s.kernel.chain, p) == Accept
  {
    TrackedRefines(h, s, p);
  }

  predicate Removes(s: State, ports: seq<Port>, p: Packet) {
    p.dport in ports && p.dport in s.protected && ToLower(s.protected[p.dport].protocol) == p.proto
  }

  lemma {:induction false} RemovesCuts(h: Host, s: State, ports: seq<Port>, p: Packet)
    requires Clean(h, s, RemovePorts(h, s, ports).kernel.clock) && Trusted(h, p)
    ensures RemoveCuts(h, s, ports, p) <==> Removes(s, ports, p)
    decreases |ports|
  {
    if ports != [] {
      var s1 := UnprotectPort(h, s, ports[0]);
      UnprotectPortInv(h, s, ports[0]);
      RemovePortsTidy(h, s1, ports[1..]);
      if ports[0] in s.protected {
        DeleteRulesTidy(h, s.kernel, s.protected[ports[0]].handles);
        TrustedPasses(h, s, RemovePorts(h, s, ports).kernel.clock, p);
        UnprotectDrops(h, s, ports[0], p);
        UnprotectCutsTrustedTraffic(h, s, ports[0], p);
      }
      RemovesCuts(h, s1, ports[1..], p);
    }
  }

  // Three adds and two deletes.
  lemma CutOffTakesTime(h: Host, k: Kernel, port: Port, protocol: string, gate: nat)
    requires CutsOff(h, k.clock, gate)
    ensures k.clock + 2 < ProtectPort(h, k, port, protocol).0.clock
  {
    var proto := ToLower(protocol);
    var k1 := AddRule(h, k, LoTest(proto, port), Accept).0;
    var k2 := AddRule(h, k1, TunTest(h, proto, port), Accept).0;
    var k3 := AddRule(h, k2, AnyTest(proto, port), Drop).0;
    DeleteTwo(h, k3, k.nextHandle, k1.nextHandle);
  }

  lemma {:induction false} AddsDoNotCut(h: Host, s: State, desired: seq<PortRule>, p: Packet)
    requires Tidy(h, s.kernel.clock, AddAll(h, s, desired).kernel.clock)
    ensures !AddCuts(h, s, desired, p)
    decreases |desired|
  {
    if desired != [] {
      var rule, s1 := desired[0], AddDesired(h, s, desired[0]);
      ProtectPortTidy(h, s.kernel, rule.port, rule.protocol);
      AddAllTidy(h, s1, desired[1..]);
      if CutsOff(h, s.kernel.clock, GateOf(p)) {
        CutOffTakesTime(h, s.kernel, rule.port, rule.protocol, GateOf(p));
      }
      AddsDoNotCut(h, s1, desired[1..], p);
    }
  }

  // Some sync of the run unprotects the packet's port, kept under the packet's protocol.
  predicate RunRemoves(h: Host, s: State, syncs: seq<Sync>, p: Packet)
    decreases |syncs|
  {
    syncs != [] && (Removes(s, syncs[0].order, p)
      || RunRemoves(h, SyncPolicy(h, s, syncs[0].order, syncs[0].desired), syncs[1..], p))
  }

  lemma {:induction false} RunRemovesCuts(h: Host, s: State, syncs: seq<Sync>, p: Packet)
    requires Clean(h, s, Run(h, s, syncs).kernel.clock) && Trusted(h, p)
    ensures RunCuts(h, s, syncs, p) <==> RunRemoves(h, s, syncs, p)
    decreases |syncs|
  {
    if syncs != [] {
      var s1 := RemovePorts(h, s, syncs[0].order);
      var s2 := AddAll(h, s1, syncs[0].desired);
      RemovePortsTidy(h, s, syncs[0].order);
      AddAllTidy(h, s1, syncs[0].desired);
      NoLeak(h, s2, syncs[1..]);
      SyncPolicyInv(h, s, syncs[0].order, syncs[0].desired);
      RemovesCuts(h, s, syncs[0].order, p);
      AddsDoNotCut(h, s1, syncs[0].desired, p);
      RunRemovesCuts(h, s2, syncs[1..], p);
    }
  }

  // There, a loopback or tunnel packet is dropped at some moment exactly when some sync unprotects its port:
  // protecting one never drops it.
  lemma TidyRunCutsTrustedTraffic(h: Host, syncs: seq<Sync>, p: Packet)
    requires Tidy(h, 0, Run(h, Fresh, syncs).kernel.clock) && h.tun != "lo" && Trusted(h, p)
    ensures DroppedBetween(Fresh.kernel, Run(h, Fresh, syncs).kernel, p) <==> RunRemoves(h, Fresh, syncs, p)
  {
    FreshInv(h);
    RunCutsTrustedTraffic(h, syncs, p);
    RunRemovesCuts(h, Fresh, syncs, p);
  }

  // --- Both cuts happen ---

  // A host on which the third add loses its handle.
  const LOSING := Host("tun", t => if t == 2 then HandleLost else Added, t => false)

  lemma LostHandleCutsLoopback()
    ensures DroppedBetween(Fresh.kernel, ProtectPort(LOSING, Fresh.kernel, 80, "tcp").0, Packet("lo", "tcp", 80))
  {
    assert ToLower("tcp") == "tcp";
    ProtectKeepsTrustedTraffic(LOSING, Fresh.kernel, 80, "tcp", Packet("lo", "tcp", 80));
  }

  // A port is protected by one policy and not by the next.
  lemma NextPolicyCutsLoopback()
    ensures var run := [Sync([], [PortRule(80, "tcp")]), Sync([80], [])];
      DroppedBetween(Fresh.kernel, Run(SOUND, Fresh, run).kernel, Packet("lo", "tcp", 80))
  {
    var run := [Sync([], [PortRule(80, "tcp")]), Sync([80], [])];
    var p := Packet("lo", "tcp", 80);
    assert ToLower("tcp") == "tcp";
    var s := SyncPolicy(SOUND, Fresh, [], [PortRule(80, "tcp")]);
    assert AddDesired(SOUND, Fresh, PortRule(80, "tcp")).protected[80].protocol == "tcp";
    assert [PortRule(80, "tcp")][1..] == [];
    assert run[1..][0] == run[1];
    assert Removes(s, [80], p);
    assert RunRemoves(SOUND, s, run[1..], p);
    TidyRunCutsTrustedTraffic(SOUND, run, p);
  }
}
