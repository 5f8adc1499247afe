// What any run of policy syncs guarantees about the kernel chain and about the traffic it filters.
module EnforcementTheorems {
  import opened Wrappers
  import opened Strings
  import opened PacketFilter
  import opened Enforcement

  // No rule was added without its handle and no delete failed, between two clock readings.
  ghost predicate Tidy(h: Host, from: nat, to: nat) {
    forall t :: from <= t < to ==> h.addOutcome(t) != HandleLost && !h.deleteFails(t)
  }

  ghost predicate FaultFree(h: Host, from: nat, to: nat) {
    forall t :: from <= t < to ==> h.addOutcome(t) == Added && !h.deleteFails(t)
  }

  // A host on which nothing fails.
  const SOUND := Host("tun", t => Added, t => false)

  // --- Conservation of handles ---

  datatype Sync = Sync(order: seq<Port>, desired: seq<PortRule>)

  function Run(h: Host, s: State, syncs: seq<Sync>): State
    decreases |syncs|
  {
    if syncs == [] then s
    else Run(h, SyncPolicy(h, s, syncs[0].order, syncs[0].desired), syncs[1..])
  }

  lemma {:induction false} RunInv(h: Host, s: State, syncs: seq<Sync>)
    requires Inv(h, s)
    ensures Inv(h, Run(h, s, syncs))
    decreases |syncs|
  {
    if syncs != [] {
      SyncPolicyInv(h, s, syncs[0].order, syncs[0].desired);
      RunInv(h, SyncPolicy(h, s, syncs[0].order, syncs[0].desired), syncs[1..]);
    }
  }

  // Whatever failed, every rule in the kernel is either one of a tracked triple or an orphan.
  lemma Conservation(h: Host, syncs: seq<Sync>)
    ensures var s := Run(h, Fresh, syncs);
      |s.kernel.chain| == 3 * |s.protected| + |s.kernel.orphans|
  {
    FreshInv(h);
    RunInv(h, Fresh, syncs);
    ChainLength(h, Run(h, Fresh, syncs));
  }

  // And the tracked rules are exactly those of the entries' triples, all under handles of their own.
  lemma ChainIsTriples(h: Host, syncs: seq<Sync>, r: Rule, q: Rule)
    ensures var s := Run(h, Fresh, syncs);
      && (r in s.kernel.chain && r.handle !in s.kernel.orphans <==>
            r.test.dport in s.protected && r in Triple(h, s.protected[r.test.dport]))
      && (r in s.kernel.chain && q in s.kernel.chain && r.handle == q.handle ==> r == q)
  {
    FreshInv(h);
    RunInv(h, Fresh, syncs);
    var s := Run(h, Fresh, syncs);
    TrackedRule(h, s, r);
    if r in s.kernel.chain && q in s.kernel.chain && r.handle == q.handle {
      SameHandleSameRule(s.kernel.chain, s.kernel.nextHandle, r, q);
    }
  }

  lemma ChainLength(h: Host, s: State)
    requires Inv(h, s)
    ensures |s.kernel.chain| == 3 * |s.protected| + |s.kernel.orphans|
  {
    var live := Live(s.kernel);
    forall p | p in s.protected ensures |OnPort(live, p)| == 3 {
      assert OnPort(live, p) == Triple(h, s.protected[p]);
    }
    forall p: Port | p !in s.protected ensures OnPort(live, p) == [] {
      assert OnPort(live, p) == Expected(h, s.protected, p);
    }
    CountByPort(live, s.protected.Keys);
    ExcludingCount(s.kernel.chain, s.kernel.orphans, s.kernel.nextHandle);
  }

  lemma {:induction false} ExcludingCount(chain: Chain, handles: set<nat>, nextHandle: nat)
    requires Ordered(chain, nextHandle) && handles <= Handles(chain)
    ensures |chain| == |Excluding(chain, handles)| + |handles|
  {
    if chain == [] {
      assert handles == {};
    } else {
      var head := chain[0].handle;
      var rest := handles - {head};
      assert Ordered(chain[1..], nextHandle);
      forall x | x in rest ensures x in Handles(chain[1..]) {
        var q :| q in chain && q.handle == x;
        assert q in chain[1..];
      }
      ExcludingCount(chain[1..], rest, nextHandle);
      IgnoredHandle(chain[1..], handles, head);
    }
  }

  lemma {:induction false} IgnoredHandle(chain: Chain, handles: set<nat>, x: nat)
    requires forall r :: r in chain ==> r.handle != x
    ensures Excluding(chain, handles) == Excluding(chain, handles - {x})
  {
    if chain != [] {
      IgnoredHandle(chain[1..], handles, x);
    }
  }

  // Adds that add nothing when they fail, and deletes that succeed, leave no orphan behind:
  // the rollback of a half-protected port leaks nothing.
  lemma {:induction false} NoLeak(h: Host, s: State, syncs: seq<Sync>)
    ensures s.kernel.clock <= Run(h, s, syncs).kernel.clock
    ensures Tidy(h, s.kernel.clock, Run(h, s, syncs).kernel.clock)
      ==> Run(h, s, syncs).kernel.orphans <= s.kernel.orphans
    decreases |syncs|
  {
    if syncs != [] {
      var s1 := RemovePorts(h, s, syncs[0].order);
      RemovePortsTidy(h, s, syncs[0].order);
      AddAllTidy(h, s1, syncs[0].desired);
      NoLeak(h, SyncPolicy(h, s, syncs[0].order, syncs[0].desired), syncs[1..]);
    }
  }

  lemma {:induction false} DeleteRulesTidy(h: Host, k: Kernel, handles: seq<nat>)
    ensures DeleteRules(h, k, handles).clock == k.clock + |handles|
    ensures Tidy(h, k.clock, k.clock + |handles|) ==> DeleteRules(h, k, handles).orphans <= k.orphans
    decreases |handles|
  {
    if handles != [] {
      DeleteRulesTidy(h, DeleteRule(h, k, handles[0]), handles[1..]);
    }
  }

  lemma ProtectPortTidy(h: Host, k: Kernel, port: Port, protocol: string)
    ensures var (k', handles) := ProtectPort(h, k, port, protocol);
      && k.clock < k'.clock
      && (Tidy(h, k.clock, k'.clock) ==> k'.orphans <= k.orphans)
      && (FaultFree(h, k.clock, k'.clock) ==> handles.Some?)
  {
    var proto := ToLower(protocol);
    var (k1, lo) := AddRule(h, k, LoTest(proto, port), Accept);
    assert h.addOutcome(k.clock) != HandleLost ==> k1.orphans == k.orphans;
    if lo.Some? {
      var (k2, tun) := AddRule(h, k1, TunTest(h, proto, port), Accept);
      if tun == None {
        DeleteRulesTidy(h, k2, [lo.value]);
      } else {
        var (k3, drop) := AddRule(h, k2, AnyTest(proto, port), Drop);
        DeleteRulesTidy(h, k3, [lo.value, tun.value]);
      }
    }
  }

  lemma {:induction false} RemovePortsTidy(h: Host, s: State, ports: seq<Port>)
    ensures var s' := RemovePorts(h, s, ports);
      && s.kernel.clock <= s'.kernel.clock
      && (Tidy(h, s.kernel.clock, s'.kernel.clock) ==> s'.kernel.orphans <= s.kernel.orphans)
    decreases |ports|
  {
    if ports != [] {
      var s1 := UnprotectPort(h, s, ports[0]);
      if ports[0] in s.protected {
        DeleteRulesTidy(h, s.kernel, s.protected[ports[0]].handles);
      }
      RemovePortsTidy(h, s1, ports[1..]);
    }
  }

  lemma {:induction false} AddAllTidy(h: Host, s: State, desired: seq<PortRule>)
    ensures var s' := AddAll(h, s, desired);
      && s.kernel.clock <= s'.kernel.clock
      && (Tidy(h, s.kernel.clock, s'.kernel.clock) ==> s'.kernel.orphans <= s.kernel.orphans)
    decreases |desired|
  {
    if desired != [] {
      ProtectPortTidy(h, s.kernel, desired[0].port, desired[0].protocol);
      AddAllTidy(h, AddDesired(h, s, desired[0]), desired[1..]);
    }
  }

  // --- The filter that the chain implements ---

  predicate Guarded(h: Host, protected: map<Port, Entry>, p: Packet) {
    && p.dport in protected
    && ToLower(protected[p.dport].protocol) == p.proto
    && p.iif != "lo"
    && p.iif != h.tun
  }

  predicate NoOrphanOn(k: Kernel, port: Port) {
    forall r :: r in k.chain && r.test.dport == port ==> r.handle !in k.orphans
  }

  predicate Outside(h: Host, p: Packet) {
    p.iif != "lo" && p.iif != h.tun
  }

  predicate ForgottenDrop(k: Kernel, p: Packet) {
    exists r :: r in k.chain && r.handle in k.orphans && r.verdict == Drop && Matches(r.test, p)
  }

  // First-match evaluation of the chain is the simple predicate on the map, on every port where no
  // forgotten rule is left. Elsewhere it still is for outside traffic, but for what forgotten rules drop in
  // addition: no failure opens a protected port.
  lemma FilterRefines(h: Host, s: State, p: Packet)
    requires Inv(h, s)
    ensures NoOrphanOn(s.kernel, p.dport) ==> (Evaluate(s.kernel.chain, p) == Drop <==> Guarded(h, s.protected, p))
    ensures Outside(h, p) ==>
      (Evaluate(s.kernel.chain, p) == Drop <==> Guarded(h, s.protected, p) || ForgottenDrop(s.kernel, p))
  {
    if NoOrphanOn(s.kernel, p.dport) {
      TrackedRefines(h, s, p);
    }
    if Outside(h, p) {
      OnlyDropsMatch(s.kernel.chain, p);
      OutsideHit(h, s, p);
    }
  }

  lemma TrackedRefines(h: Host, s: State, p: Packet)
    requires Inv(h, s) && NoOrphanOn(s.kernel, p.dport)
    ensures Evaluate(s.kernel.chain, p) == Drop <==> Guarded(h, s.protected, p)
  {
    EvaluateOnPort(s.kernel.chain, p);
    TrackedOnly(s.kernel, p.dport);
    assert OnPort(s.kernel.chain, p.dport) == Expected(h, s.protected, p.dport);
    if p.dport in s.protected {
      EvaluateTriple(h, s.protected[p.dport], p);
    }
  }

  // A tracked rule is one of its port's triple.
  lemma TrackedRule(h: Host, s: State, r: Rule)
    requires Inv(h, s)
    ensures r in s.kernel.chain && r.handle !in s.kernel.orphans <==> r in Expected(h, s.protected, r.test.dport)
  {
    var port := r.test.dport;
    ExcludingMembers(s.kernel.chain, s.kernel.orphans);
    OnPortMembers(Live(s.kernel), port);
    assert OnPort(Live(s.kernel), port) == Expected(h, s.protected, port);
  }

  // The rules that match a packet from outside are its port's own drop rule and forgotten ones.
  lemma OutsideHit(h: Host, s: State, p: Packet)
    requires Inv(h, s) && Outside(h, p)
    ensures Hit(s.kernel.chain, p) <==> Guarded(h, s.protected, p) || ForgottenDrop(s.kernel, p)
  {
    if Guarded(h, s.protected, p) {
      var t := Triple(h, s.protected[p.dport]);
      assert t[2] in t;
      TrackedRule(h, s, t[2]);
    }
    if r :| r in s.kernel.chain && Matches(r.test, p) && r.handle !in s.kernel.orphans {
      TrackedRule(h, s, r);
    }
  }

  lemma TrackedOnly(k: Kernel, port: Port)
    requires NoOrphanOn(k, port)
    ensures OnPort(k.chain, port) == OnPort(Live(k), port)
  {
    OnPortMembers(k.chain, port);
    ExcludingOnPort(k.chain, k.orphans, port);
    ExcludingNone(OnPort(k.chain, port), k.orphans);
  }

  lemma EvaluateTriple(h: Host, e: Entry, p: Packet)
    requires |e.handles| == 3 && e.port == p.dport
    ensures Evaluate(Triple(h, e), p) == Drop
      <==> ToLower(e.protocol) == p.proto && p.iif != "lo" && p.iif != h.tun
  {
    ShortChain(Triple(h, e), p);
  }

  // In a run without lost handles or failed deletes the refinement holds for every packet.
  lemma TidyRunFilters(h: Host, syncs: seq<Sync>, p: Packet)
    requires Tidy(h, 0, Run(h, Fresh, syncs).kernel.clock)
    ensures var s := Run(h, Fresh, syncs);
      && |s.kernel.chain| == 3 * |s.protected|
      && (Evaluate(s.kernel.chain, p) == Drop <==> Guarded(h, s.protected, p))
  {
    var s := Run(h, Fresh, syncs);
    FreshInv(h);
    RunInv(h, Fresh, syncs);
    NoLeak(h, Fresh, syncs);
    assert s.kernel.orphans == {};
    ChainLength(h, s);
    TrackedRefines(h, s, p);
  }
}
