// The nftables input chain that the agent edits: an ordered list of rules, each known to the
// kernel by a handle, evaluated first match first, with policy accept.
module PacketFilter {
  import opened Wrappers

  type Port = p: int | 0 <= p < 0x1_0000 witness 0

  datatype Verdict = Accept | Drop

  // iif == None is a rule without an `iifname` test.
  datatype Match = Match(iif: Option<string>, proto: string, dport: Port)

  datatype Rule = Rule(handle: nat, test: Match, verdict: Verdict)

  datatype Packet = Packet(iif: string, proto: string, dport: Port)

  type Chain = seq<Rule>

  predicate Matches(m: Match, p: Packet) {
    && (m.iif == None || m.iif == Some(p.iif))
    && m.proto == p.proto
    && m.dport == p.dport
  }

  function Evaluate(chain: Chain, p: Packet): Verdict {
    if chain == [] then Accept
    else if Matches(chain[0].test, p) then chain[0].verdict
    else Evaluate(chain[1..], p)
  }

  // The rules of one port, in chain order.
  function OnPort(chain: Chain, port: Port): Chain {
    if chain == [] then []
    else (if chain[0].test.dport == port then [chain[0]] else []) + OnPort(chain[1..], port)
  }

  // The rules whose handle is not in a set; `nft delete rule ... handle h` leaves Excluding(chain, {h}).
  function Excluding(chain: Chain, handles: set<nat>): Chain {
    if chain == [] then []
    else (if chain[0].handle in handles then [] else [chain[0]]) + Excluding(chain[1..], handles)
  }

  function Handles(chain: Chain): set<nat> {
    set r | r in chain :: r.handle
  }

  // The kernel hands out growing handles and appends, so handles grow along the chain.
  ghost predicate Ordered(chain: Chain, nextHandle: nat) {
    && (forall i, j :: 0 <= i < j < |chain| ==> chain[i].handle < chain[j].handle)
    && (forall i :: 0 <= i < |chain| ==> chain[i].handle < nextHandle)
  }

  // A packet sees only the rules of its own destination port.
  lemma {:induction false} EvaluateOnPort(chain: Chain, p: Packet)
    ensures Evaluate(chain, p) == Evaluate(OnPort(chain, p.dport), p)
  {
    if chain != [] {
      EvaluateOnPort(chain[1..], p);
      var rest := OnPort(chain[1..], p.dport);
      if chain[0].test.dport == p.dport {
        assert ([chain[0]] + rest)[1..] == rest;
      } else {
        assert [] + rest == rest;
      }
    }
  }

  lemma {:induction false} OnPortAppend(chain: Chain, r: Rule, port: Port)
    ensures OnPort(chain + [r], port) == OnPort(chain, port) + (if r.test.dport == port then [r] else [])
  {
    if chain == [] {
      assert [] + [r] == [r];
      assert [r][1..] == [];
    } else {
      assert (chain + [r])[1..] == chain[1..] + [r];
      OnPortAppend(chain[1..], r, port);
      var first := if chain[0].test.dport == port then [chain[0]] else [];
      var last := if r.test.dport == port then [r] else [];
      assert first + (OnPort(chain[1..], port) + last) == (first + OnPort(chain[1..], port)) + last;
    }
  }

  lemma {:induction false} ExcludingAppend(chain: Chain, r: Rule, handles: set<nat>)
    ensures Excluding(chain + [r], handles)
         == Excluding(chain, handles) + (if r.handle in handles then [] else [r])
  {
    if chain == [] {
      assert [] + [r] == [r];
      assert [r][1..] == [];
    } else {
      assert (chain + [r])[1..] == chain[1..] + [r];
      ExcludingAppend(chain[1..], r, handles);
      var first := if chain[0].handle in handles then [] else [chain[0]];
      var last := if r.handle in handles then [] else [r];
      assert first + (Excluding(chain[1..], handles) + last) == (first + Excluding(chain[1..], handles)) + last;
    }
  }

  lemma {:induction false} ExcludingMembers(chain: Chain, handles: set<nat>)
    ensures forall r :: r in Excluding(chain, handles) <==> r in chain && r.handle !in handles
  {
    if chain != [] {
      ExcludingMembers(chain[1..], handles);
      assert chain == [chain[0]] + chain[1..];
    }
  }

  lemma {:induction false} ExcludingTwice(chain: Chain, a: set<nat>, b: set<nat>)
    ensures Excluding(Excluding(chain, a), b) == Excluding(chain, a + b)
  {
    if chain != [] {
      ExcludingTwice(chain[1..], a, b);
      var rest := Excluding(chain[1..], a);
      if chain[0].handle !in a {
        assert ([chain[0]] + rest)[1..] == rest;
      } else {
        assert [] + rest == rest;
      }
    }
  }

  lemma {:induction false} ExcludingOnPort(chain: Chain, handles: set<nat>, port: Port)
    ensures OnPort(Excluding(chain, handles), port) == Excluding(OnPort(chain, port), handles)
  {
    if chain != [] {
      ExcludingOnPort(chain[1..], handles, port);
      var kept := Excluding(chain[1..], handles);
      var mine := OnPort(chain[1..], port);
      assert ([chain[0]] + kept)[1..] == kept && [] + kept == kept;
      assert ([chain[0]] + mine)[1..] == mine && [] + mine == mine;
    }
  }

  lemma {:induction false} ExcludingNone(chain: Chain, handles: set<nat>)
    requires forall r :: r in chain ==> r.handle !in handles
    ensures Excluding(chain, handles) == chain
  {
    if chain != [] {
      ExcludingNone(chain[1..], handles);
    }
  }

  lemma {:induction false} ExcludingKeepsOrder(chain: Chain, handles: set<nat>, nextHandle: nat)
    requires Ordered(chain, nextHandle)
    ensures Ordered(Excluding(chain, handles), nextHandle)
  {
    if chain != [] {
      assert Ordered(chain[1..], nextHandle);
      ExcludingKeepsOrder(chain[1..], handles, nextHandle);
      ExcludingMembers(chain[1..], handles);
      var rest := Excluding(chain[1..], handles);
      forall j | 0 <= j < |rest| ensures chain[0].handle < rest[j].handle {
        assert rest[j] in chain[1..];
      }
    }
  }

  lemma {:induction false} OnPortMembers(chain: Chain, port: Port)
    ensures forall r :: r in OnPort(chain, port) <==> r in chain && r.test.dport == port
  {
    if chain != [] {
      OnPortMembers(chain[1..], port);
      assert chain == [chain[0]] + chain[1..];
    }
  }

  // The rules of every other port.
  function OffPort(chain: Chain, port: Port): Chain {
    if chain == [] then []
    else (if chain[0].test.dport == port then [] else [chain[0]]) + OffPort(chain[1..], port)
  }

  lemma {:induction false} SplitByPort(chain: Chain, port: Port, other: Port)
    ensures |chain| == |OnPort(chain, port)| + |OffPort(chain, port)|
    ensures OnPort(OffPort(chain, port), other) == if other == port then [] else OnPort(chain, other)
  {
    if chain != [] {
      SplitByPort(chain[1..], port, other);
      var rest := OffPort(chain[1..], port);
      assert ([chain[0]] + rest)[1..] == rest && [] + rest == rest;
    }
  }

  // A chain with exactly three rules on each port of a set and none elsewhere.
  lemma {:induction false} CountByPort(chain: Chain, ports: set<Port>)
    requires forall p :: p in ports ==> |OnPort(chain, p)| == 3
    requires forall p: Port :: p !in ports ==> OnPort(chain, p) == []
    ensures |chain| == 3 * |ports|
    decreases |ports|
  {
    if ports == {} {
      NoPortsNoRules(chain);
    } else {
      var p :| p in ports;
      var rest := ports - {p};
      var others := OffPort(chain, p);
      forall q: Port ensures OnPort(others, q) == if q == p then [] else OnPort(chain, q) {
        SplitByPort(chain, p, q);
      }
      CountByPort(others, rest);
      SplitByPort(chain, p, p);
    }
  }

  lemma NoPortsNoRules(chain: Chain)
    requires forall p: Port :: OnPort(chain, p) == []
    ensures chain == []
  {
    if chain != [] {
      assert chain[0] in chain;
      OnPortMembers(chain, chain[0].test.dport);
      assert false;
    }
  }

  lemma ShortChain(c: Chain, p: Packet)
    requires |c| <= 3
    ensures Evaluate(c, p) ==
      if |c| > 0 && Matches(c[0].test, p) then c[0].verdict
      else if |c| > 1 && Matches(c[1].test, p) then c[1].verdict
      else if |c| > 2 && Matches(c[2].test, p) then c[2].verdict
      else Accept
  {
    if |c| == 3 {
      assert c[1..] == [c[1], c[2]] && c[1..][1..] == [c[2]] && c[1..][1..][1..] == [];
    }
  }

  lemma {:induction false} ExcludingConcat(a: Chain, b: Chain, handles: set<nat>)
    ensures Excluding(a + b, handles) == Excluding(a, handles) + Excluding(b, handles)
  {
    if a == [] {
      assert a + b == b;
    } else {
      assert (a + b)[1..] == a[1..] + b;
      ExcludingConcat(a[1..], b, handles);
    }
  }

  lemma OrderedBehind(r: Rule, rest: Chain, nextHandle: nat)
    requires Ordered(rest, nextHandle) && r.handle < nextHandle && forall x :: x in rest ==> r.handle < x.handle
    ensures Ordered([r] + rest, nextHandle)
  {
  }

  lemma {:induction false} OnPortKeepsOrder(chain: Chain, port: Port, nextHandle: nat)
    requires Ordered(chain, nextHandle)
    ensures Ordered(OnPort(chain, port), nextHandle)
  {
    if chain != [] {
      OnPortKeepsOrder(chain[1..], port, nextHandle);
      OnPortMembers(chain[1..], port);
      var rest := OnPort(chain[1..], port);
      if chain[0].test.dport == port {
        OrderedBehind(chain[0], rest, nextHandle);
      } else {
        assert OnPort(chain, port) == rest;
      }
    }
  }

  // --- What a packet meets first ---

  predicate Hit(chain: Chain, p: Packet) {
    exists r :: r in chain && Matches(r.test, p)
  }

  lemma {:induction false} EvaluateConcat(a: Chain, b: Chain, p: Packet)
    ensures Evaluate(a + b, p) == if Hit(a, p) then Evaluate(a, p) else Evaluate(b, p)
  {
    if a == [] {
      assert a + b == b;
    } else {
      EvaluateConcat(a[1..], b, p);
      assert (a + b)[1..] == a[1..] + b;
      assert a == [a[0]] + a[1..];
    }
  }

  // Deleting rules that do not match a packet makes no difference to it.
  lemma {:induction false} ExcludingUnmatched(chain: Chain, handle: nat, p: Packet)
    requires forall r :: r in chain && r.handle == handle ==> !Matches(r.test, p)
    ensures Evaluate(Excluding(chain, {handle}), p) == Evaluate(chain, p)
  {
    if chain != [] {
      ExcludingUnmatched(chain[1..], handle, p);
      var rest := Excluding(chain[1..], {handle});
      assert ([chain[0]] + rest)[1..] == rest && [] + rest == rest;
    }
  }

  // Deleting a drop rule does not take away what was accepted.
  lemma {:induction false} ExcludingDrop(chain: Chain, handle: nat, p: Packet)
    requires forall r :: r in chain && r.handle == handle ==> r.verdict == Drop
    requires Evaluate(chain, p) == Accept
    ensures Evaluate(Excluding(chain, {handle}), p) == Accept
  {
    if chain != [] {
      var rest := Excluding(chain[1..], {handle});
      assert ([chain[0]] + rest)[1..] == rest && [] + rest == rest;
      if chain[0].handle == handle || !Matches(chain[0].test, p) {
        ExcludingDrop(chain[1..], handle, p);
      }
    }
  }

  // A packet that only drop rules match is dropped as soon as there is one.
  lemma {:induction false} OnlyDropsMatch(chain: Chain, p: Packet)
    requires forall r :: r in chain && Matches(r.test, p) ==> r.verdict == Drop
    ensures Evaluate(chain, p) == Drop <==> Hit(chain, p)
  {
    if chain != [] {
      OnlyDropsMatch(chain[1..], p);
      assert chain == [chain[0]] + chain[1..];
    }
  }
}
