// The chains that exist for a moment while a port is being protected or unprotected, and what they do
// to the traffic that is always meant to pass: loopback and the tunnel.
module EnforcementSteps {
  import opened Wrappers
  import opened Strings
  import opened PacketFilter
  import opened Enforcement
  import opened EnforcementTheorems

  predicate Trusted(h: Host, p: Packet) {
    p.iif == "lo" || p.iif == h.tun
  }

  // Which of a port's accept rules, in the order they are added, lets the packet in.
  function GateOf(p: Packet): nat {
    if p.iif == "lo" then 0 else 1
  }

  ghost predicate DroppedBetween(before: Kernel, after: Kernel, p: Packet) {
    exists i :: |before.trail| <= i < |after.trail| && Evaluate(after.trail[i], p) == Drop
  }

  // --- Protecting ---

  // The third add loses its handle and the rollback then takes the accept rule away.
  predicate CutsOff(h: Host, clock: nat, gate: nat) {
    && h.addOutcome(clock) == Added
    && h.addOutcome(clock + 1) == Added
    && h.addOutcome(clock + 2) == HandleLost
    && !h.deleteFails(clock + 3 + gate)
  }

  // While a port is being protected, trusted traffic is dropped at some step exactly when it was dropped
  // before, or when no earlier rule decides about it, it is traffic to that port, the drop rule was
  // added without its handle, and the accept rule was then rolled back.
  lemma ProtectKeepsTrustedTraffic(h: Host, k: Kernel, port: Port, protocol: string, p: Packet)
    requires KernelOk(k) && h.tun != "lo" && Trusted(h, p)
    ensures DroppedBetween(k, ProtectPort(h, k, port, protocol).0, p) <==>
      || Evaluate(k.chain, p) == Drop
      || (&& !Hit(k.chain, p) && p.dport == port && p.proto == ToLower(protocol)
          && CutsOff(h, k.clock, GateOf(p)))
  {
    var proto := ToLower(protocol);
    var stages := Stages(h, k, port, proto);
    StagesShow(h, k, port, proto);
    StagesAreTrail(h, k, port, protocol);
    DroppedAtStage(k, ProtectPort(h, k, port, protocol).0, stages, p);
    forall i | 0 <= i < |stages|
      ensures Evaluate(stages[i], p) ==
        if Hit(k.chain, p) then Evaluate(k.chain, p)
        else if Exposed(Views(h, k.clock)[i], port, proto, p) then Drop else Accept
    {
      StageVerdict(h, k, port, proto, p, i);
    }
    ExposedIffCutOff(h, k.clock, port, proto, p);
    assert Evaluate(stages[0], p) == Drop <==> Hit(k.chain, p) && Evaluate(k.chain, p) == Drop;
    if !Hit(k.chain, p) {
      UnhitAccepts(k.chain, p);
    }
  }

  lemma UnhitAccepts(chain: Chain, p: Packet)
    requires !Hit(chain, p)
    ensures Evaluate(chain, p) == Accept
  {
    EvaluateConcat(chain, [], p);
    assert chain + [] == chain;
  }

  // The packet is for the port, and its accept rule is missing before the drop rule.
  predicate Exposed(v: View, port: Port, proto: string, p: Packet) {
    p.dport == port && p.proto == proto && v.drop && !(if p.iif == "lo" then v.lo else v.tun)
  }

  lemma DroppedAtStage(before: Kernel, after: Kernel, stages: seq<Chain>, p: Packet)
    requires after.trail == before.trail + stages
    ensures DroppedBetween(before, after, p) <==> exists i :: 0 <= i < |stages| && Evaluate(stages[i], p) == Drop
  {
    var n := |before.trail|;
    if DroppedBetween(before, after, p) {
      var i :| n <= i < |after.trail| && Evaluate(after.trail[i], p) == Drop;
      assert after.trail[i] == stages[i - n];
    }
    if exists i :: 0 <= i < |stages| && Evaluate(stages[i], p) == Drop {
      var i :| 0 <= i < |stages| && Evaluate(stages[i], p) == Drop;
      assert after.trail[n + i] == stages[i];
    }
  }

  lemma ExposedIffCutOff(h: Host, t: nat, port: Port, proto: string, p: Packet)
    requires Trusted(h, p)
    ensures (exists i :: 0 <= i < |Views(h, t)| && Exposed(Views(h, t)[i], port, proto, p))
      <==> p.dport == port && p.proto == proto && CutsOff(h, t, GateOf(p))
  {
    if p.dport == port && p.proto == proto && CutsOff(h, t, GateOf(p)) {
      assert Exposed(Views(h, t)[3 + GateOf(p)], port, proto, p);
    }
  }

  lemma StageVerdict(h: Host, k: Kernel, port: Port, proto: string, p: Packet, i: nat)
    requires KernelOk(k) && h.tun != "lo" && Trusted(h, p) && i < |Views(h, k.clock)|
    ensures |Stages(h, k, port, proto)| == |Views(h, k.clock)|
    ensures Evaluate(Stages(h, k, port, proto)[i], p) ==
      if Hit(k.chain, p) then Evaluate(k.chain, p)
      else if Exposed(Views(h, k.clock)[i], port, proto, p) then Drop else Accept
  {
    var r := NewRules(h, k, port, proto);
    var v := Views(h, k.clock)[i];
    StagesShow(h, k, port, proto);
    EvaluateConcat(k.chain, Show(r, v), p);
    ShowVerdict(h, r, v, port, p);
  }

  // The chains that ProtectPort passes through.
  function Stages(h: Host, k: Kernel, port: Port, proto: string): seq<Chain> {
    var (k1, lo) := AddRule(h, k, LoTest(proto, port), Accept);
    [k1.chain] + if lo == None then [] else StagesFromSecond(h, k1, NewRules(h, k, port, proto))
  }

  function StagesFromSecond(h: Host, k: Kernel, r: seq<Rule>): seq<Chain>
    requires |r| == 3
  {
    var (k2, tun) := AddRule(h, k, r[1].test, r[1].verdict);
    if tun == None then [k2.chain, DeleteRule(h, k2, r[0].handle).chain] else
      var (k3, drop) := AddRule(h, k2, r[2].test, r[2].verdict);
      if drop != None then [k2.chain, k3.chain] else
        var k4 := DeleteRule(h, k3, r[0].handle);
        [k2.chain, k3.chain, k4.chain, DeleteRule(h, k4, r[1].handle).chain]
  }

  lemma StagesAreTrail(h: Host, k: Kernel, port: Port, protocol: string)
    ensures ProtectPort(h, k, port, protocol).0.trail == k.trail + Stages(h, k, port, ToLower(protocol))
  {
    var proto := ToLower(protocol);
    var (k1, lo) := AddRule(h, k, LoTest(proto, port), Accept);
    if lo.Some? {
      var (k2, tun) := AddRule(h, k1, TunTest(h, proto, port), Accept);
      if tun == None {
        DeleteOne(h, k2, lo.value);
      } else {
        var (k3, drop) := AddRule(h, k2, AnyTest(proto, port), Drop);
        DeleteTwo(h, k3, lo.value, tun.value);
      }
    }
  }

  lemma DeleteOne(h: Host, k: Kernel, a: nat)
    ensures DeleteRules(h, k, [a]) == DeleteRule(h, k, a)
  {
    assert [a][1..] == [];
  }

  lemma DeleteTwo(h: Host, k: Kernel, a: nat, b: nat)
    ensures DeleteRules(h, k, [a, b]) == DeleteRule(h, DeleteRule(h, k, a), b)
  {
    assert [a, b][1..] == [b];
    DeleteOne(h, DeleteRule(h, k, a), b);
  }

  // Which of the three new rules are in the chain.
  datatype View = View(lo: bool, tun: bool, drop: bool)

  // The three rules in the order they are added.
  function NewRules(h: Host, k: Kernel, port: Port, proto: string): (r: seq<Rule>)
    ensures |r| == 3
  {
    [Rule(k.nextHandle, LoTest(proto, port), Accept),
     Rule(k.nextHandle + 1, TunTest(h, proto, port), Accept),
     Rule(k.nextHandle + 2, AnyTest(proto, port), Drop)]
  }

  function Show(r: seq<Rule>, v: View): Chain
    requires |r| == 3
  {
    (if v.lo then [r[0]] else []) + (if v.tun then [r[1]] else []) + (if v.drop then [r[2]] else [])
  }

  // The new rules after each command of ProtectPort started at clock t.
  function Views(h: Host, t: nat): seq<View> {
    [View(h.addOutcome(t) != Refused, false, false)]
    + if h.addOutcome(t) != Added then [] else ViewsFromSecond(h, t + 1)
  }

  function ViewsFromSecond(h: Host, t: nat): seq<View> {
    var v2 := View(true, h.addOutcome(t) != Refused, false);
    if h.addOutcome(t) != Added then [v2, v2.(lo := h.deleteFails(t + 1))] else
      var v3 := v2.(drop := h.addOutcome(t + 1) != Refused);
      if h.addOutcome(t + 1) == Added then [v2, v3] else
        var v4 := v3.(lo := h.deleteFails(t + 2));
        [v2, v3, v4, v4.(tun := h.deleteFails(t + 3))]
  }

  lemma ShowVerdict(h: Host, r: seq<Rule>, v: View, port: Port, p: Packet)
    requires |r| == 3 && h.tun != "lo" && Trusted(h, p)
    requires r[0].test == LoTest(r[0].test.proto, port) && r[0].verdict == Accept
    requires r[1].test == TunTest(h, r[0].test.proto, port) && r[1].verdict == Accept
    requires r[2].test == AnyTest(r[0].test.proto, port) && r[2].verdict == Drop
    ensures Evaluate(Show(r, v), p) == Drop <==> Exposed(v, port, r[0].test.proto, p)
  {
    ShortChain(Show(r, v), p);
  }

  lemma ShowExcluding(r: seq<Rule>, v: View)
    requires |r| == 3 && r[0].handle < r[1].handle < r[2].handle
    ensures Excluding(Show(r, v), {r[0].handle}) == Show(r, v.(lo := false))
    ensures Excluding(Show(r, v), {r[1].handle}) == Show(r, v.(tun := false))
  {
    var lo := if v.lo then [r[0]] else [];
    var tun := if v.tun then [r[1]] else [];
    var drop := if v.drop then [r[2]] else [];
    forall i | 0 <= i < 2 ensures Excluding(Show(r, v), {r[i].handle})
      == Excluding(lo, {r[i].handle}) + Excluding(tun, {r[i].handle}) + Excluding(drop, {r[i].handle})
    {
      ExcludingConcat(lo + tun, drop, {r[i].handle});
      ExcludingConcat(lo, tun, {r[i].handle});
    }
    forall i, j | 0 <= i < 3 && 0 <= j < 3
      ensures Excluding([r[i]], {r[j].handle}) == if i == j then [] else [r[i]]
    {
      assert [r[i]][1..] == [];
    }
  }

  // A chain that shows some of the new rules after the rules there were.
  predicate Shows(chain: Chain, base: Chain, r: seq<Rule>, v: View) {
    |r| == 3 && chain == base + Show(r, v)
  }

  // New handles, in order, and none of them in use.
  ghost predicate NewOver(r: seq<Rule>, base: Chain) {
    && |r| == 3 && r[0].handle < r[1].handle < r[2].handle
    && forall b :: b in base ==> b.handle < r[0].handle
  }

  lemma AddShows(h: Host, k: Kernel, base: Chain, r: seq<Rule>, i: nat, v: View)
    requires |r| == 3 && i < 3 && r[i].handle == k.nextHandle
    requires v == View(i > 0, i > 1, false) && Shows(k.chain, base, r, v)
    ensures var put := h.addOutcome(k.clock) != Refused;
      Shows(AddRule(h, k, r[i].test, r[i].verdict).0.chain, base, r,
            View(i > 0 || put, i > 1 || (i == 1 && put), i == 2 && put))
  {
  }

  lemma DeleteShows(h: Host, k: Kernel, base: Chain, r: seq<Rule>, i: nat, v: View)
    requires NewOver(r, base) && i < 2 && Shows(k.chain, base, r, v)
    ensures var kept := h.deleteFails(k.clock);
      Shows(DeleteRule(h, k, r[i].handle).chain, base, r,
            if i == 0 then v.(lo := v.lo && kept) else v.(tun := v.tun && kept))
  {
    var x := r[i].handle;
    ShowExcluding(r, v);
    assert Excluding(k.chain, {x}) == base + Excluding(Show(r, v), {x}) by {
      ExcludingConcat(base, Show(r, v), {x});
      ExcludingNone(base, {x});
    }
  }

  ghost predicate AllShow(base: Chain, r: seq<Rule>, stages: seq<Chain>, views: seq<View>) {
    && |stages| == |views|
    && forall i :: 0 <= i < |stages| ==> Shows(stages[i], base, r, views[i])
  }

  // Every one of those chains is the chain there was with some of the new rules behind it.
  lemma StagesShow(h: Host, k: Kernel, port: Port, proto: string)
    requires KernelOk(k)
    ensures AllShow(k.chain, NewRules(h, k, port, proto), Stages(h, k, port, proto), Views(h, k.clock))
  {
    var r := NewRules(h, k, port, proto);
    AddShows(h, k, k.chain, r, 0, View(false, false, false));
    var (k1, lo) := AddRule(h, k, r[0].test, Accept);
    if lo.Some? {
      StagesAfterFirst(h, k1, k.chain, r);
    }
  }

  lemma StagesAfterFirst(h: Host, k: Kernel, base: Chain, r: seq<Rule>)
    requires NewOver(r, base) && r[1].handle == k.nextHandle && r[2].handle == k.nextHandle + 1
    requires Shows(k.chain, base, r, View(true, false, false))
    ensures AllShow(base, r, StagesFromSecond(h, k, r), ViewsFromSecond(h, k.clock))
  {
    AddShows(h, k, base, r, 1, View(true, false, false));
    var (k2, tun) := AddRule(h, k, r[1].test, r[1].verdict);
    if tun == None {
      DeleteShows(h, k2, base, r, 0, View(true, h.addOutcome(k.clock) != Refused, false));
    } else {
      LastStages(h, k2, base, r);
      var k3 := AddRule(h, k2, r[2].test, r[2].verdict).0;
      var k4 := DeleteRule(h, k3, r[0].handle);
      var v3 := View(true, true, h.addOutcome(k2.clock) != Refused);
      var v4 := v3.(lo := h.deleteFails(k2.clock + 1));
      FourShow(base, r, k2.chain, k3.chain, k4.chain, DeleteRule(h, k4, r[1].handle).chain,
               View(true, true, false), v3, v4, v4.(tun := h.deleteFails(k2.clock + 2)));
    }
  }

  lemma FourShow(base: Chain, r: seq<Rule>, c: Chain, c': Chain, d: Chain, d': Chain,
                 v: View, v': View, w: View, w': View)
    requires Shows(c, base, r, v) && Shows(c', base, r, v') && Shows(d, base, r, w) && Shows(d', base, r, w')
    ensures AllShow(base, r, [c, c'], [v, v']) && AllShow(base, r, [c, c', d, d'], [v, v', w, w'])
  {
  }

  // The third add and the rollback after it.
  lemma LastStages(h: Host, k: Kernel, base: Chain, r: seq<Rule>)
    requires NewOver(r, base) && r[2].handle == k.nextHandle
    requires Shows(k.chain, base, r, View(true, true, false))
    ensures var k3 := AddRule(h, k, r[2].test, r[2].verdict).0;
      var k4 := DeleteRule(h, k3, r[0].handle);
      var v3 := View(true, true, h.addOutcome(k.clock) != Refused);
      var v4 := v3.(lo := h.deleteFails(k.clock + 1));
      && Shows(k3.chain, base, r, v3)
      && Shows(k4.chain, base, r, v4)
      && Shows(DeleteRule(h, k4, r[1].handle).chain, base, r, v4.(tun := h.deleteFails(k.clock + 2)))
  {
    var k3 := AddRule(h, k, r[2].test, r[2].verdict).0;
    var v3 := View(true, true, h.addOutcome(k.clock) != Refused);
    AddShows(h, k, base, r, 2, View(true, true, false));
    DeleteShows(h, k3, base, r, 0, v3);
    DeleteShows(h, DeleteRule(h, k3, r[0].handle), base, r, 1, v3.(lo := h.deleteFails(k.clock + 1)));
  }

  // --- Unprotecting ---

  // The only rule under its handle.
  predicate Sole(chain: Chain, r: Rule) {
    forall q :: q in chain && q.handle == r.handle ==> q == r
  }

  // The rules with an entry's handles are those of its triple.
  lemma TripleHandles(h: Host, s: State, port: Port, i: nat)
    requires Inv(h, s) && port in s.protected && i < 3
    ensures var t := Triple(h, s.protected[port]);
      t[i] in s.kernel.chain && Sole(s.kernel.chain, t[i])
  {
    var t := Triple(h, s.protected[port]);
    assert OnPort(Live(s.kernel), port) == t;
    assert t[i] in t;
    OnPortMembers(Live(s.kernel), port);
    ExcludingMembers(s.kernel.chain, s.kernel.orphans);
    forall r | r in s.kernel.chain && r.handle == t[i].handle ensures r == t[i] {
      SameHandleSameRule(s.kernel.chain, s.kernel.nextHandle, r, t[i]);
    }
  }

  lemma DeleteRuleMembers(h: Host, k: Kernel, handle: nat)
    ensures forall r :: r in DeleteRule(h, k, handle).chain ==> r in k.chain
  {
    ExcludingMembers(k.chain, {handle});
  }

  // One delete, for a packet that the deleted rule does not match or that it could only have dropped.
  lemma DeleteKeepsAccepted(h: Host, k: Kernel, r: Rule, p: Packet)
    requires Sole(k.chain, r) && Evaluate(k.chain, p) == Accept && (!Matches(r.test, p) || r.verdict == Drop)
    ensures Evaluate(DeleteRule(h, k, r.handle).chain, p) == Accept
  {
    if Matches(r.test, p) {
      ExcludingDrop(k.chain, r.handle, p);
    } else {
      ExcludingUnmatched(k.chain, r.handle, p);
    }
  }

  lemma DeleteThree(h: Host, k: Kernel, a: nat, b: nat, c: nat)
    ensures var k1 := DeleteRule(h, k, a);
      var k2 := DeleteRule(h, k1, b);
      var k3 := DeleteRule(h, k2, c);
      DeleteRules(h, k, [a, b, c]) == k3 && k3.trail == k.trail + [k1.chain, k2.chain, k3.chain]
      && k2.clock == k.clock + 2
  {
    assert [a, b, c][1..] == [b, c];
    DeleteTwo(h, DeleteRule(h, k, a), b, c);
  }

  lemma SoleStays(h: Host, k: Kernel, handle: nat, r: Rule)
    requires Sole(k.chain, r)
    ensures Sole(DeleteRule(h, k, handle).chain, r)
  {
    DeleteRuleMembers(h, k, handle);
  }

  predicate DroppedInThree(h: Host, k: Kernel, a: nat, b: nat, c: nat, p: Packet) {
    var k1 := DeleteRule(h, k, a);
    var k2 := DeleteRule(h, k1, b);
    || Evaluate(k1.chain, p) == Drop
    || Evaluate(k2.chain, p) == Drop
    || Evaluate(DeleteRule(h, k2, c).chain, p) == Drop
  }

  // Of three deletes, only the first can cut the packet off.
  lemma FirstGate(h: Host, k: Kernel, lo: Rule, tun: Rule, drop: Rule, p: Packet)
    requires Sole(k.chain, lo) && Sole(k.chain, tun) && Sole(k.chain, drop)
    requires !Matches(tun.test, p) && drop.verdict == Drop && Evaluate(k.chain, p) == Accept
    ensures DroppedInThree(h, k, lo.handle, tun.handle, drop.handle, p) <==>
      !h.deleteFails(k.clock) && Evaluate(Excluding(k.chain, {lo.handle}), p) == Drop
  {
    var k1 := DeleteRule(h, k, lo.handle);
    var k2 := DeleteRule(h, k1, tun.handle);
    SoleStays(h, k, lo.handle, tun);
    SoleStays(h, k, lo.handle, drop);
    SoleStays(h, k1, tun.handle, drop);
    if Evaluate(k1.chain, p) == Accept {
      DeleteKeepsAccepted(h, k1, tun, p);
      DeleteKeepsAccepted(h, k2, drop, p);
    }
  }

  // Only the second.
  lemma SecondGate(h: Host, k: Kernel, lo: Rule, tun: Rule, drop: Rule, p: Packet)
    requires Sole(k.chain, lo) && Sole(k.chain, tun) && Sole(k.chain, drop)
    requires !Matches(lo.test, p) && drop.verdict == Drop && Evaluate(k.chain, p) == Accept
    ensures DroppedInThree(h, k, lo.handle, tun.handle, drop.handle, p) <==>
      !h.deleteFails(k.clock + 1) && Evaluate(Excluding(k.chain, {tun.handle}), p) == Drop
  {
    var k1 := DeleteRule(h, k, lo.handle);
    var k2 := DeleteRule(h, k1, tun.handle);
    SoleStays(h, k, lo.handle, drop);
    SoleStays(h, k1, tun.handle, drop);
    DeleteKeepsAccepted(h, k, lo, p);
    UnmatchedBehind(h, k, lo, tun.handle, p);
    if Evaluate(k2.chain, p) == Accept {
      DeleteKeepsAccepted(h, k2, drop, p);
    }
  }

  // A delete of a rule that does not match makes no difference to a later one.
  lemma UnmatchedBehind(h: Host, k: Kernel, r: Rule, handle: nat, p: Packet)
    requires Sole(k.chain, r) && !Matches(r.test, p)
    ensures Evaluate(Excluding(DeleteRule(h, k, r.handle).chain, {handle}), p)
         == Evaluate(Excluding(k.chain, {handle}), p)
  {
    ExcludingCommutes(k.chain, r.handle, handle);
    ExcludingMembers(k.chain, {handle});
    ExcludingUnmatched(Excluding(k.chain, {handle}), r.handle, p);
  }

  lemma ExcludingCommutes(chain: Chain, a: nat, b: nat)
    ensures Excluding(Excluding(chain, {a}), {b}) == Excluding(Excluding(chain, {b}), {a})
  {
    ExcludingTwice(chain, {a}, {b});
    ExcludingTwice(chain, {b}, {a});
    assert {a} + {b} == {b} + {a};
  }

  lemma ThreeStages(h: Host, k: Kernel, a: nat, b: nat, c: nat, p: Packet)
    ensures DroppedBetween(k, DeleteRules(h, k, [a, b, c]), p) <==> DroppedInThree(h, k, a, b, c, p)
  {
    var k1 := DeleteRule(h, k, a);
    var k2 := DeleteRule(h, k1, b);
    var stages := [k1.chain, k2.chain, DeleteRule(h, k2, c).chain];
    DeleteThree(h, k, a, b, c);
    DroppedAtStage(k, DeleteRules(h, k, [a, b, c]), stages, p);
    assert stages[0] == k1.chain && stages[1] == k2.chain && stages[2] == DeleteRule(h, k2, c).chain;
  }

  // Unprotecting a port drops trusted traffic that was accepted before, at some step, exactly when the
  // delete of its accept rule succeeds and the chain without that rule alone would drop it: the accept
  // rules go before the drop rule, loopback's first.
  lemma UnprotectDrops(h: Host, s: State, port: Port, p: Packet)
    requires Inv(h, s) && port in s.protected && h.tun != "lo" && Trusted(h, p)
    requires Evaluate(s.kernel.chain, p) == Accept
    ensures DroppedBetween(s.kernel, UnprotectPort(h, s, port).kernel, p) <==>
      && !h.deleteFails(s.kernel.clock + GateOf(p))
      && Evaluate(Excluding(s.kernel.chain, {s.protected[port].handles[GateOf(p)]}), p) == Drop
  {
    var e := s.protected[port];
    var t := Triple(h, e);
    assert e.handles == [t[0].handle, t[1].handle, t[2].handle];
    ThreeStages(h, s.kernel, t[0].handle, t[1].handle, t[2].handle, p);
    TripleHandles(h, s, port, 0);
    TripleHandles(h, s, port, 1);
    TripleHandles(h, s, port, 2);
    if p.iif == "lo" {
      FirstGate(h, s.kernel, t[0], t[1], t[2], p);
    } else {
      SecondGate(h, s.kernel, t[0], t[1], t[2], p);
    }
  }

  // Where no forgotten rule is left on the port, that is exactly the traffic to that port, when the delete
  // of its accept rule succeeds.
  lemma UnprotectCutsTrustedTraffic(h: Host, s: State, port: Port, p: Packet)
    requires Inv(h, s) && port in s.protected && NoOrphanOn(s.kernel, port) && h.tun != "lo" && Trusted(h, p)
    requires Evaluate(s.kernel.chain, p) == Accept
    ensures DroppedBetween(s.kernel, UnprotectPort(h, s, port).kernel, p) <==>
      && p.dport == port && p.proto == ToLower(s.protected[port].protocol)
      && !h.deleteFails(s.kernel.clock + GateOf(p))
  {
    var k, e, gate := s.kernel, s.protected[port], GateOf(p);
    var t := Triple(h, e);
    UnprotectDrops(h, s, port, p);
    TripleHandles(h, s, port, gate);
    if p.dport == port && p.proto == ToLower(e.protocol) {
      EvaluateOnPort(Excluding(k.chain, {e.handles[gate]}), p);
      ExcludingOnPort(k.chain, {e.handles[gate]}, port);
      TrackedOnly(k, port);
      OnPortKeepsOrder(k.chain, port, k.nextHandle);
      assert OnPort(k.chain, port) == t == Show(t, View(true, true, true));
      ShowExcluding(t, View(true, true, true));
      ShowVerdict(h, t, View(gate != 0, gate != 1, true), port, p);
    } else {
      ExcludingUnmatched(k.chain, e.handles[gate], p);
    }
  }
}
