// The agent's enforcer as an object that edits its map and the kernel chain in place, proved
// against the functions of module Enforcement.
module FirewallEnforcer {
  import opened Wrappers
  import opened Strings
  import opened PacketFilter
  import opened Enforcement
  import SyncResults

  // The kernel side: what `nft` commands do to the input chain.
  class Nft {
    const host: Host
    var chain: Chain
    var nextHandle: nat
    var clock: nat
    ghost var orphans: set<nat>
    ghost var trail: seq<Chain>

    ghost function Kernel(): Kernel
      reads this
    {
      Enforcement.Kernel(chain, nextHandle, clock, orphans, trail)
    }

    constructor (host: Host)
      ensures this.host == host && Kernel() == Fresh.kernel
    {
      this.host := host;
      chain, nextHandle, clock := [], 0, 0;
      orphans, trail := {}, [];
    }

    method AddRule(test: Match, verdict: Verdict) returns (handle: Option<nat>)
      modifies this
      ensures (Kernel(), handle) == Enforcement.AddRule(host, old(Kernel()), test, verdict)
    {
      var outcome := host.addOutcome(clock);
      handle := None;
      if outcome != Refused {
        chain := chain + [Rule(nextHandle, test, verdict)];
        if outcome == Added {
          handle := Some(nextHandle);
        } else {
          orphans := orphans + {nextHandle};
        }
        nextHandle := nextHandle + 1;
      }
      clock := clock + 1;
      trail := trail + [chain];
    }

    method DeleteRule(handle: nat)
      modifies this
      ensures Kernel() == Enforcement.DeleteRule(host, old(Kernel()), handle)
    {
      if host.deleteFails(clock) {
        orphans := orphans + ({handle} * Handles(chain));
      } else {
        chain := Excluding(chain, {handle});
        orphans := orphans - {handle};
      }
      clock := clock + 1;
      trail := trail + [chain];
    }
  }

  class Enforcer {
    const nft: Nft
    var protected: map<Port, Entry>

    ghost function State(): State
      reads this, nft
    {
      Enforcement.State(nft.Kernel(), protected)
    }

    constructor (nft: Nft)
      ensures this.nft == nft && protected == map[]
    {
      this.nft := nft;
      protected := map[];
    }

    method DeleteRules(handles: seq<nat>)
      modifies nft
      ensures nft.Kernel() == Enforcement.DeleteRules(nft.host, old(nft.Kernel()), handles)
    {
      for i := 0 to |handles|
        invariant Enforcement.DeleteRules(nft.host, nft.Kernel(), handles[i..])
               == Enforcement.DeleteRules(nft.host, old(nft.Kernel()), handles)
      {
        assert handles[i..][1..] == handles[i + 1..];
        nft.DeleteRule(handles[i]);
      }
    }

    method ProtectPort(port: Port, protocol: string) returns (handles: Option<seq<nat>>)
      modifies nft
      ensures (nft.Kernel(), handles) == Enforcement.ProtectPort(nft.host, old(nft.Kernel()), port, protocol)
    {
      var proto := ToLower(protocol);
      var added: seq<nat> := [];
      var lo := nft.AddRule(LoTest(proto, port), Accept);
      if lo == None {
        return None;
      }
      added := added + [lo.value];
      var tun := nft.AddRule(TunTest(nft.host, proto, port), Accept);
      if tun == None {
        assert added == [lo.value];
        DeleteRules(added);
        return None;
      }
      added := added + [tun.value];
      var drop := nft.AddRule(AnyTest(proto, port), Drop);
      if drop == None {
        DeleteRules(added);
        return None;
      }
      added := added + [drop.value];
      assert added == [lo.value, tun.value, drop.value];
      return Some(added);
    }

    // The keys that are no longer desired, in the map's own order.
    method StalePorts(desired: seq<PortRule>) returns (order: seq<Port>)
      ensures Lists(order, Stale(State(), desired))
    {
      order := [];
      var left := protected.Keys;
      while left != {}
        invariant left <= protected.Keys
        invariant forall p :: p in order ==> p !in left
        invariant Lists(order, (protected.Keys - left) - Ports(desired))
        decreases left
      {
        var p :| p in left;
        left := left - {p};
        if p !in Ports(desired) {
          order := order + [p];
        }
      }
    }

    method SyncPolicy(desired: seq<PortRule>) returns (ghost order: seq<Port>)
      modifies this, nft
      ensures Lists(order, Stale(old(State()), desired))
      ensures State() == Enforcement.SyncPolicy(nft.host, old(State()), order, desired)
    {
      var stale := StalePorts(desired);
      order := stale;
      for i := 0 to |stale|
        invariant RemovePorts(nft.host, State(), stale[i..]) == RemovePorts(nft.host, old(State()), stale)
      {
        assert stale[i..][1..] == stale[i + 1..];
        UnprotectPort(stale[i]);
      }
      for i := 0 to |desired|
        invariant AddAll(nft.host, State(), desired[i..])
               == AddAll(nft.host, RemovePorts(nft.host, old(State()), stale), desired)
      {
        assert desired[i..][1..] == desired[i + 1..];
        var rule := desired[i];
        if rule.port !in protected {
          var handles := ProtectPort(rule.port, rule.protocol);
          if handles.Some? {
            protected := protected[rule.port := Entry(rule.port, rule.protocol, handles.value)];
          }
        }
      }
    }

    method UnprotectPort(port: Port)
      modifies this, nft
      ensures State() == Enforcement.UnprotectPort(nft.host, old(State()), port)
    {
      if port in protected {
        var entry := protected[port];
        protected := protected - {port};
        DeleteRules(entry.handles);
      }
    }

    // The entries in whatever order the map yields them.
    method GetState() returns (saved: seq<PortRule>)
      requires EntriesOk(protected)
      ensures exists order :: Lists(order, protected.Keys) && saved == SyncResults.Saved(protected, order)
    {
      saved := [];
      ghost var order: seq<Port> := [];
      var left := protected.Keys;
      while left != {}
        invariant left <= protected.Keys
        invariant forall p :: p in order ==> p !in left
        invariant Lists(order, protected.Keys - left)
        invariant saved == SyncResults.Saved(protected, order)
        decreases left
      {
        var p :| p in left;
        left := left - {p};
        var entry := protected[p];
        order := order + [p];
        saved := saved + [PortRule(entry.port, entry.protocol)];
      }
    }

    method RestoreFromState(saved: seq<PortRule>) returns (ghost order: seq<Port>)
      modifies this, nft
      ensures saved != [] ==> Lists(order, Stale(old(State()), saved))
      ensures State() == SyncResults.Restore(nft.host, old(State()), order, saved)
      ensures State() == if saved == [] then old(State())
                         else Enforcement.SyncPolicy(nft.host, old(State()), order, saved)
    {
      order := [];
      if saved != [] {
        order := SyncPolicy(saved);
      }
    }

    // An inbound policy message: only the action "sync" touches the firewall.
    method HandleFirewallPolicy(action: string, rules: seq<PortRule>) returns (ghost order: seq<Port>)
      modifies this, nft
      ensures action == "sync" ==> Lists(order, Stale(old(State()), rules))
      ensures State() == if action == "sync"
                         then Enforcement.SyncPolicy(nft.host, old(State()), order, rules)
                         else old(State())
    {
      order := [];
      if action == "sync" {
        order := SyncPolicy(rules);
      }
    }
  }
}
