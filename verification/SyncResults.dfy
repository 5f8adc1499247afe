// What one policy sync leaves protected, and what a restart restores.
module SyncResults {
  import opened Wrappers
  import opened Strings
  import opened PacketFilter
  import opened Enforcement
  import opened EnforcementTheorems

  lemma {:induction false} RemovePortsEntries(h: Host, s: State, ports: seq<Port>)
    ensures RemovePorts(h, s, ports).protected == s.protected - (set p | p in ports)
    decreases |ports|
  {
    if ports != [] {
      RemovePortsEntries(h, UnprotectPort(h, s, ports[0]), ports[1..]);
      assert ports == [ports[0]] + ports[1..];
    }
  }

  ghost predicate Extends(before: map<Port, Entry>, after: map<Port, Entry>, desired: seq<PortRule>) {
    && before.Keys <= after.Keys <= before.Keys + Ports(desired)
    && (forall p :: p in before ==> after[p] == before[p])
    && (forall p :: p in after && p !in before ==> PortRule(p, after[p].protocol) in desired)
  }

  ghost predicate ExtendsFully(before: map<Port, Entry>, after: map<Port, Entry>, desired: seq<PortRule>) {
    && after.Keys == before.Keys + Ports(desired)
    && (forall p :: p in after && p !in before ==> Some(after[p].protocol) == FirstProtocol(desired, p))
  }

  lemma AddDesiredEntries(h: Host, s: State, rule: PortRule)
    ensures Extends(s.protected, AddDesired(h, s, rule).protected, [rule])
  {
  }

  lemma ExtendsTwice(a: map<Port, Entry>, b: map<Port, Entry>, c: map<Port, Entry>, desired: seq<PortRule>)
    requires desired != [] && Extends(a, b, [desired[0]]) && Extends(b, c, desired[1..])
    ensures Extends(a, c, desired)
  {
    assert Ports(desired) == Ports([desired[0]]) + Ports(desired[1..]);
  }

  lemma {:induction false} AddAllEntries(h: Host, s: State, desired: seq<PortRule>)
    ensures Extends(s.protected, AddAll(h, s, desired).protected, desired)
    decreases |desired|
  {
    if desired != [] {
      var s1 := AddDesired(h, s, desired[0]);
      AddDesiredEntries(h, s, desired[0]);
      AddAllEntries(h, s1, desired[1..]);
      ExtendsTwice(s.protected, s1.protected, AddAll(h, s1, desired[1..]).protected, desired);
    }
  }

  lemma {:induction false} AddAllFaultFree(h: Host, s: State, desired: seq<PortRule>)
    requires FaultFree(h, s.kernel.clock, AddAll(h, s, desired).kernel.clock)
    ensures ExtendsFully(s.protected, AddAll(h, s, desired).protected, desired)
    decreases |desired|
  {
    if desired != [] {
      var s1 := AddDesired(h, s, desired[0]);
      ProtectPortTidy(h, s.kernel, desired[0].port, desired[0].protocol);
      AddAllTidy(h, s1, desired[1..]);
      AddAllFaultFree(h, s1, desired[1..]);
      AddAllEntries(h, s1, desired[1..]);
      assert Ports(desired) == {desired[0].port} + Ports(desired[1..]);
    }
  }

  // One sync. In general: ports kept from before keep their whole entry, nothing undesired
  // survives, and a new port takes the protocol of one of its rules. Without failures: exactly the
  // desired ports, each new one with the protocol of its first rule.
  lemma SyncPolicyResult(h: Host, s: State, order: seq<Port>, desired: seq<PortRule>)
    requires Lists(order, Stale(s, desired))
    ensures var s' := SyncPolicy(h, s, order, desired);
      && s.protected.Keys * Ports(desired) <= s'.protected.Keys <= Ports(desired)
      && (forall p :: p in s.protected && p in s'.protected ==> s'.protected[p] == s.protected[p])
      && (forall p :: p in s'.protected && p !in s.protected ==> PortRule(p, s'.protected[p].protocol) in desired)
      && (FaultFree(h, s.kernel.clock, s'.kernel.clock) ==>
            && s'.protected.Keys == Ports(desired)
            && forall p :: p in s'.protected ==> Some(s'.protected[p].protocol) == Effective(s, desired, p))
  {
    var s1 := RemovePorts(h, s, order);
    RemovePortsEntries(h, s, order);
    assert (set p | p in order) == Stale(s, desired);
    RemovePortsTidy(h, s, order);
    AddAllEntries(h, s1, desired);
    if FaultFree(h, s.kernel.clock, SyncPolicy(h, s, order, desired).kernel.clock) {
      AddAllFaultFree(h, s1, desired);
    }
  }

  // The protocol a desired port ends up with: an entry is keyed by port alone, so a port that is
  // already protected keeps its protocol, and of several rules for a new port the first wins.
  function Effective(s: State, desired: seq<PortRule>, port: Port): Option<string> {
    if port in s.protected then Some(s.protected[port].protocol) else FirstProtocol(desired, port)
  }

  predicate OneProtocolPerPort(s: State, desired: seq<PortRule>) {
    forall r :: r in desired ==>
      match Effective(s, desired, r.port)
      case Some(protocol) => ToLower(r.protocol) == ToLower(protocol)
      case None => false
  }

  ghost predicate AllRulesEnforced(h: Host, chain: Chain, desired: seq<PortRule>) {
    forall r, iif :: r in desired && Outside(h, Packet(iif, ToLower(r.protocol), r.port))
      ==> Evaluate(chain, Packet(iif, ToLower(r.protocol), r.port)) == Drop
  }

  // After a sync without failures every desired (port, protocol) is closed to outside traffic if and
  // only if no rule asks for another protocol than its port's effective one.
  lemma EnforcedIffOneProtocolPerPort(h: Host, s: State, order: seq<Port>, desired: seq<PortRule>)
    requires Inv(h, s) && s.kernel.orphans == {} && Lists(order, Stale(s, desired))
    requires FaultFree(h, s.kernel.clock, SyncPolicy(h, s, order, desired).kernel.clock)
    ensures AllRulesEnforced(h, SyncPolicy(h, s, order, desired).kernel.chain, desired)
      <==> OneProtocolPerPort(s, desired)
  {
    var s' := SyncPolicy(h, s, order, desired);
    var s1 := RemovePorts(h, s, order);
    SyncPolicyInv(h, s, order, desired);
    SyncPolicyResult(h, s, order, desired);
    RemovePortsTidy(h, s, order);
    AddAllTidy(h, s1, desired);
    assert s'.kernel.orphans == {};
    forall r | r in desired ensures
      && r.port in s'.protected
      && Some(s'.protected[r.port].protocol) == Effective(s, desired, r.port)
    {
    }
    forall p: Packet ensures Evaluate(s'.kernel.chain, p) == Drop <==> Guarded(h, s'.protected, p) {
      TrackedRefines(h, s', p);
    }
    if AllRulesEnforced(h, s'.kernel.chain, desired) {
      forall r | r in desired ensures ToLower(r.protocol) == ToLower(s'.protected[r.port].protocol) {
        var p := Packet("lo" + h.tun + "x", ToLower(r.protocol), r.port);
        assert |p.iif| == 3 + |h.tun|;
        assert Outside(h, p);
        assert Guarded(h, s'.protected, p);
      }
    }
  }

  // So the effective rule of a port closes it to outside packets of its protocol, in whatever case the rule
  // and the column it comes from spell it, and to no others.
  lemma ClosedInAnyCase(h: Host, s: State, order: seq<Port>, desired: seq<PortRule>, r: PortRule, p: Packet)
    requires Inv(h, s) && s.kernel.orphans == {} && Lists(order, Stale(s, desired))
    requires FaultFree(h, s.kernel.clock, SyncPolicy(h, s, order, desired).kernel.clock)
    requires r in desired && Effective(s, desired, r.port) == Some(r.protocol)
    requires p.dport == r.port && Outside(h, p) && forall c :: c in p.proto ==> !IsUpper(c)
    ensures Evaluate(SyncPolicy(h, s, order, desired).kernel.chain, p) == Drop <==> SameButForCase(r.protocol, p.proto)
  {
    var s' := SyncPolicy(h, s, order, desired);
    var s1 := RemovePorts(h, s, order);
    SyncPolicyInv(h, s, order, desired);
    SyncPolicyResult(h, s, order, desired);
    RemovePortsTidy(h, s, order);
    AddAllTidy(h, s1, desired);
    assert s'.kernel.orphans == {};
    TrackedRefines(h, s', p);
    LowerCase(r.protocol, p.proto);
    LowerCase(p.proto, p.proto);
  }

  // A clean first sync with the default spelling.
  lemma DefaultSpellingCloses(p: Packet)
    requires Outside(SOUND, p) && p.dport == 22 && p.proto in {"tcp", "udp"}
    ensures Evaluate(SyncPolicy(SOUND, Fresh, [], [PortRule(22, "TCP")]).kernel.chain, p) == Drop <==> p.proto == "tcp"
  {
    var desired := [PortRule(22, "TCP")];
    FreshInv(SOUND);
    KnownCases();
    assert desired[0] in desired;
    ClosedInAnyCase(SOUND, Fresh, [], desired, desired[0], p);
    LowerCase("TCP", p.proto);
  }

  // Two rules for one port: the second protocol stays open.
  lemma SecondProtocolStaysOpen()
    ensures var desired := [PortRule(53, "tcp"), PortRule(53, "udp")];
      !AllRulesEnforced(SOUND, SyncPolicy(SOUND, Fresh, [], desired).kernel.chain, desired)
  {
    var desired := [PortRule(53, "tcp"), PortRule(53, "udp")];
    FreshInv(SOUND);
    EnforcedIffOneProtocolPerPort(SOUND, Fresh, [], desired);
    assert desired[1] in desired && FirstProtocol(desired, 53) == Some("tcp");
    assert ToLower("tcp") == "tcp" && ToLower("udp") == "udp";
  }

  // --- Persistence ---

  // The saved state: one rule per entry, in whatever order the map lists its keys.
  function Saved(protected: map<Port, Entry>, order: seq<Port>): seq<PortRule>
    requires forall p :: p in order ==> p in protected
  {
    seq(|order|, i requires 0 <= i < |order| => PortRule(order[i], protected[order[i]].protocol))
  }

  function Restore(h: Host, s: State, order: seq<Port>, saved: seq<PortRule>): State {
    if saved == [] then s else SyncPolicy(h, s, order, saved)
  }

  lemma SavedPorts(protected: map<Port, Entry>, order: seq<Port>)
    requires Lists(order, protected.Keys)
    ensures Ports(Saved(protected, order)) == protected.Keys
    ensures forall q :: q in protected ==> FirstProtocol(Saved(protected, order), q) == Some(protected[q].protocol)
  {
    var saved := Saved(protected, order);
    forall q | q in protected ensures PortRule(q, protected[q].protocol) in saved {
      var i :| 0 <= i < |order| && order[i] == q;
      assert saved[i].port == q;
    }
    forall q | q in protected ensures FirstProtocol(saved, q) == Some(protected[q].protocol) {
      FirstProtocolExists(saved, q);
    }
  }

  // Restoring a saved state on a fresh enforcer brings back the same ports and protocols, and a
  // chain that treats every packet alike, whatever order the ports were saved in.
  lemma SaveThenRestore(h: Host, s: State, order: seq<Port>, h': Host, stale: seq<Port>, p: Packet)
    requires Inv(h, s) && s.kernel.orphans == {} && Lists(order, s.protected.Keys)
    requires h'.tun == h.tun && Lists(stale, {})
    requires FaultFree(h', 0, Restore(h', Fresh, stale, Saved(s.protected, order)).kernel.clock)
    ensures var s' := Restore(h', Fresh, stale, Saved(s.protected, order));
      && s'.protected.Keys == s.protected.Keys
      && (forall q :: q in s.protected ==> s'.protected[q].protocol == s.protected[q].protocol)
      && Evaluate(s'.kernel.chain, p) == Evaluate(s.kernel.chain, p)
  {
    var saved := Saved(s.protected, order);
    var s' := Restore(h', Fresh, stale, saved);
    FreshInv(h');
    SavedPorts(s.protected, order);
    assert Stale(Fresh, saved) == {};
    SyncPolicyInv(h', Fresh, stale, saved);
    SyncPolicyResult(h', Fresh, stale, saved);
    RemovePortsTidy(h', Fresh, stale);
    AddAllTidy(h', RemovePorts(h', Fresh, stale), saved);
    TrackedRefines(h, s, p);
    TrackedRefines(h', s', p);
  }
}
