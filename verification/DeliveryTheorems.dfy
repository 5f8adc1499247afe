// What every run of the delivery protocol guarantees.
module DeliveryTheorems {
  import opened Wrappers
  import opened Strings
  import opened PacketFilter
  import opened Enforcement
  import opened EnforcementTheorems
  import opened PolicyPorts
  import opened Delivery

  // Nothing of a policy is on its way to the agent: the producer is between snapshots, the agent's
  // connection has drained the channel, and the agent has consumed its stream.
  predicate Quiescent(s: Sys, agent: nat) {
    && agent in s.agents
    && s.agents[agent].current.Some?
    && s.agents[agent].current.value in s.conns
    && Idle(s)
    && var c := s.conns[s.agents[agent].current.value];
       c.phase.Selecting? && c.next == s.broadcast && c.taken == |c.sent|
  }

  lemma Settled(h: Hosts, s: Sys, agent: nat)
    requires SysInv(h, s) && Quiescent(s, agent) && s.snapshots != []
    ensures s.agents[agent].applied == PushedRules(s.snapshots[|s.snapshots| - 1])
    ensures s.agents[agent].applied.Some? && Inv(h(agent), s.agents[agent].fw)
    ensures s.agents[agent].clean ==>
      Applied(s.agents[agent].before, s.agents[agent].applied.value, s.agents[agent].fw.protected)
  {
    assert AgentOk(h, s, agent);
    assert ConnOk(s.broadcast, |s.snapshots|, s.conns[s.agents[agent].current.value]);
    assert s.snapshots[|s.snapshots| - 1] in s.snapshots;
  }

  // In every run, a quiescent agent has applied the newest accepted policy, last.
  lemma Convergence(h: Hosts, s0: Sys, run: seq<Action>, agent: nat)
    requires Initial(s0) && ValidRun(h, s0, run)
    requires Quiescent(After(h, s0, run), agent) && After(h, s0, run).snapshots != []
    ensures var s := After(h, s0, run);
      s.agents[agent].applied == PushedRules(s.snapshots[|s.snapshots| - 1])
  {
    InitialInv(h, s0);
    ReachableInv(h, s0, run);
    Settled(h, After(h, s0, run), agent);
  }

  // From database rows to packets: a quiescent agent whose last sync met no failure protects exactly
  // the ports that the rows of the newest accepted snapshot declare. It drops a packet from outside
  // exactly when it is to one of those ports, with the protocol the port is kept under, or a rule
  // forgotten in an earlier failure drops it; and where no such rule is left, it drops no other packet.
  // The protocol is the one the port was under before that sync, or else that of the first row declaring it.
  lemma EndToEnd(h: Hosts, s0: Sys, run: seq<Action>, agent: nat, p: Packet)
    requires Initial(s0) && ValidRun(h, s0, run)
    requires Quiescent(After(h, s0, run), agent) && After(h, s0, run).snapshots != []
    requires After(h, s0, run).agents[agent].clean
    ensures var s := After(h, s0, run);
      var fw := s.agents[agent].fw;
      var closed := Declared(s.snapshots[|s.snapshots| - 1], p.dport)
                    && p.dport in fw.protected && ToLower(fw.protected[p.dport].protocol) == p.proto;
      && (p.dport in fw.protected <==> Declared(s.snapshots[|s.snapshots| - 1], p.dport))
      && (p.dport in fw.protected ==>
            KeptUnder(s.agents[agent].before, s.snapshots[|s.snapshots| - 1], p.dport, fw.protected[p.dport].protocol))
      && (Outside(h(agent), p) ==>
            (Evaluate(fw.kernel.chain, p) == Drop <==> closed || ForgottenDrop(fw.kernel, p)))
      && (NoOrphanOn(fw.kernel, p.dport) ==>
            (Evaluate(fw.kernel.chain, p) == Drop <==> closed && Outside(h(agent), p)))
  {
    var s := After(h, s0, run);
    InitialInv(h, s0);
    ReachableInv(h, s0, run);
    Settled(h, s, agent);
    AppliedPort(s.snapshots[|s.snapshots| - 1], s.agents[agent].before, s.agents[agent].fw.protected, p.dport);
    FilterRefines(h(agent), s.agents[agent].fw, p);
  }

  ghost predicate KeptUnder(before: map<Port, Entry>, rows: seq<ResourceRow>, port: Port, protocol: string) {
    if port in before then protocol == before[port].protocol
    else forall i: nat :: FirstFor(rows, i, port) ==> protocol == Protocol(rows[i])
  }

  lemma AppliedPort(rows: seq<ResourceRow>, before: map<Port, Entry>, protected: map<Port, Entry>, port: Port)
    requires PushedRules(rows).Some? && Applied(before, PushedRules(rows).value, protected)
    ensures port in protected <==> Declared(rows, port)
    ensures port in protected ==> KeptUnder(before, rows, port, protected[port].protocol)
  {
    PushedPorts(rows, port);
    forall i: nat | FirstFor(rows, i, port)
      ensures FirstProtocol(PushedRules(rows).value, port) == Some(Protocol(rows[i]))
    {
      FirstPushed(rows, i, port);
    }
  }

  predicate Declared(rows: seq<ResourceRow>, port: Port) {
    exists row :: row in rows && Declares(row, port)
  }

  // In every run the messages of a connection after its first one carry strictly newer and newer
  // policies: at most one step back can happen, from the first message to the second.
  lemma AtMostOneStepBack(h: Hosts, s0: Sys, run: seq<Action>, c: nat, i: nat)
    requires Initial(s0) && ValidRun(h, s0, run) && c in After(h, s0, run).conns
    requires i + 1 < |After(h, s0, run).conns[c].sent|
    ensures var sent := After(h, s0, run).conns[c].sent;
      sent[i + 1] < sent[i] ==> i == 0
  {
    var s := After(h, s0, run);
    InitialInv(h, s0);
    ReachableInv(h, s0, run);
    assert ConnOk(s.broadcast, |s.snapshots|, s.conns[c]);
  }

  lemma Prepend(h: Hosts, s: Sys, a: Action, run: seq<Action>)
    requires Enabled(s, a) && ValidRun(h, Step(h, s, a), run)
    ensures ValidRun(h, s, [a] + run) && After(h, s, [a] + run) == After(h, Step(h, s, a), run)
  {
    assert ([a] + run)[1..] == run;
  }

  // --- When it happens ---

  // Of the policies up to the stored one, the connection has at most the stored one itself to receive.
  predicate ReadsInTime(s: Sys, c: nat) {
    c in s.conns && s.conns[c].next + 1 >= |s.snapshots|
  }

  predicate Rising(sent: seq<nat>) {
    forall i, j :: 0 <= i < j < |sent| ==> sent[i] <= sent[j]
  }

  predicate SameProcess(run: seq<Action>) {
    forall i :: 0 <= i < |run| ==> !run[i].Restart?
  }

  // What the connection has sent after a run is free of steps back.
  ghost predicate NoStepBack(h: Hosts, s: Sys, run: seq<Action>, c: nat) {
    ValidRun(h, s, run) && SameProcess(run) ==> c in After(h, s, run).conns && Rising(After(h, s, run).conns[c].sent)
  }

  // A connection whose next messages are all at least as new as those sent.
  predicate Forward(c: Conn) {
    && c.phase != Starting && Rising(c.sent)
    && (forall i :: 0 <= i < |c.sent| ==> c.sent[i] <= c.next)
    && (c.phase.Sending? ==> c.phase.policy <= c.next && forall i :: 0 <= i < |c.sent| ==> c.sent[i] <= c.phase.policy)
  }

  lemma ForwardStep(s: Sys, a: Action, c: nat)
    requires Enabled(s, a) && !a.Restart? && c in s.conns && Forward(s.conns[c])
    ensures Forward(ConnStep(s, a, c))
  {
  }

  lemma {:induction false} ForwardRun(h: Hosts, s: Sys, run: seq<Action>, c: nat)
    requires ValidRun(h, s, run) && SameProcess(run) && c in s.conns && Forward(s.conns[c])
    ensures c in After(h, s, run).conns && Forward(After(h, s, run).conns[c])
    decreases |run|
  {
    if run != [] {
      var s1 := Step(h, s, run[0]);
      assert c in s1.conns;
      StepIsConnStep(h, s, run[0], c);
      ForwardStep(s, run[0], c);
      assert forall i :: 0 <= i < |run| - 1 ==> run[1..][i] == run[i + 1];
      ForwardRun(h, s1, run[1..], c);
    }
  }

  // From a read that comes too late: the newest policy goes out, then what the receiver still holds.
  lemma LateReadStepsBack(h: Hosts, s: Sys, c: nat) returns (run: seq<Action>)
    requires c in s.conns && s.conns[c].next + 1 < |s.snapshots| && s.broadcast <= |s.snapshots| <= s.broadcast + 1
    requires s.conns[c].phase == Sending(|s.snapshots| - 1) && s.conns[c].sent == []
    ensures ValidRun(h, s, run) && SameProcess(run) && c in After(h, s, run).conns
    ensures !Rising(After(h, s, run).conns[c].sent)
  {
    var s1 := Step(h, s, Send(c));
    if s1.conns[c].next + CAPACITY < s.broadcast {
      var s2 := Step(h, s1, Lag(c));
      var s3 := Step(h, s2, Inbound(c));
      run := ReceiveNext(h, s3, c);
      Prepend(h, s2, Inbound(c), run);
      run := [Inbound(c)] + run;
      Prepend(h, s1, Lag(c), run);
      run := [Lag(c)] + run;
    } else {
      run := ReceiveNext(h, s1, c);
    }
    Prepend(h, s, Send(c), run);
    run := [Send(c)] + run;
  }

  lemma ReceiveNext(h: Hosts, s: Sys, c: nat) returns (run: seq<Action>)
    requires Listening(s, c) && s.conns[c].next < s.broadcast <= s.conns[c].next + CAPACITY
    requires |s.conns[c].sent| == 1 && s.conns[c].next < s.conns[c].sent[0]
    ensures ValidRun(h, s, run) && SameProcess(run) && c in After(h, s, run).conns
    ensures !Rising(After(h, s, run).conns[c].sent)
  {
    var s1 := Step(h, s, Receive(c));
    var s2 := Step(h, s1, Send(c));
    assert s2.conns[c].sent == [s.conns[c].sent[0], s.conns[c].next];
    assert s2.conns[c].sent[1] < s2.conns[c].sent[0];
    Prepend(h, s1, Send(c), []);
    Prepend(h, s, Receive(c), [Send(c)] + []);
    run := [Receive(c)] + ([Send(c)] + []);
  }

  // In every reachable state, reading the stored policy leads to no step back, however the process goes
  // on, exactly when the connection has at most the newest broadcast still to receive.
  lemma InOrderIffReadInTime(h: Hosts, s0: Sys, before: seq<Action>, c: nat)
    requires Initial(s0) && ValidRun(h, s0, before) && Enabled(After(h, s0, before), ReadLatest(c))
    ensures var s := After(h, s0, before);
      ReadsInTime(s, c) <==> forall run :: NoStepBack(h, Step(h, s, ReadLatest(c)), run, c)
  {
    var s := After(h, s0, before);
    var s1 := Step(h, s, ReadLatest(c));
    InitialInv(h, s0);
    ReachableInv(h, s0, before);
    assert ConnOk(s.broadcast, |s.snapshots|, s.conns[c]);
    if ReadsInTime(s, c) {
      forall run ensures NoStepBack(h, s1, run, c) {
        if ValidRun(h, s1, run) && SameProcess(run) {
          ForwardRun(h, s1, run, c);
        }
      }
    } else {
      var run := LateReadStepsBack(h, s1, c);
      assert !NoStepBack(h, s1, run, c);
    }
  }

  // So it does happen: an agent that subscribes before a policy is broadcast and reads
  // the stored policy after a newer one was stored is sent the newer policy, then the older one.
  lemma OlderAfterNewer(h: Hosts, s0: Sys, older: seq<ResourceRow>, newer: seq<ResourceRow>, agent: nat)
    returns (run: seq<Action>)
    requires Initial(s0) && agent in s0.agents
    requires PushedRules(older).Some? && PushedRules(newer).Some?
    ensures ValidRun(h, s0, run)
    ensures var s := After(h, s0, run);
      s.snapshots == [older, newer] && 0 in s.conns && s.conns[0].sent == [1, 0]
  {
    var s1 := Step(h, s0, Subscribe(0, agent));
    var s2 := Step(h, s1, AcceptSnapshot(older));
    var s3 := Step(h, s2, Broadcast);
    var s4 := Step(h, s3, AcceptSnapshot(newer));
    run := ReadAndReceive(h, s4);
    Prepend(h, s3, AcceptSnapshot(newer), run);
    run := [AcceptSnapshot(newer)] + run;
    Prepend(h, s2, Broadcast, run);
    run := [Broadcast] + run;
    Prepend(h, s1, AcceptSnapshot(older), run);
    run := [AcceptSnapshot(older)] + run;
    Prepend(h, s0, Subscribe(0, agent), run);
    run := [Subscribe(0, agent)] + run;
  }

  lemma ReadAndReceive(h: Hosts, s: Sys) returns (run: seq<Action>)
    requires 0 in s.conns && |s.snapshots| == 2 && s.broadcast == 1
    requires s.conns[0].phase == Starting && s.conns[0].next == 0 && s.conns[0].sent == []
    ensures ValidRun(h, s, run)
    ensures var v := After(h, s, run); v.snapshots == s.snapshots && 0 in v.conns && v.conns[0].sent == [1, 0]
  {
    var s1 := Step(h, s, ReadLatest(0));
    var s2 := Step(h, s1, Send(0));
    var s3 := Step(h, s2, Receive(0));
    assert s3.conns[0].phase == Sending(0);
    var s4 := Step(h, s3, Send(0));
    assert s4.conns[0].sent == [1, 0];
    Prepend(h, s3, Send(0), []);
    Prepend(h, s2, Receive(0), [Send(0)] + []);
    Prepend(h, s1, Send(0), [Receive(0)] + ([Send(0)] + []));
    Prepend(h, s, ReadLatest(0), [Send(0)] + ([Receive(0)] + ([Send(0)] + [])));
    run := [ReadLatest(0)] + ([Send(0)] + ([Receive(0)] + ([Send(0)] + [])));
  }

  // --- Draining ---

  function Positions(from: nat, to: nat): seq<nat>
    requires from <= to
  {
    seq(to - from, i requires 0 <= i < to - from => from + i)
  }

  lemma {:induction false} DrainRetained(h: Hosts, s: Sys, c: nat) returns (run: seq<Action>)
    requires Listening(s, c) && s.conns[c].next <= s.broadcast <= s.conns[c].next + CAPACITY
    ensures ValidRun(h, s, run) && |run| == 2 * (s.broadcast - s.conns[c].next)
    ensures After(h, s, run) == Put(s, c, s.conns[c].(
      next := s.broadcast, sent := s.conns[c].sent + Positions(s.conns[c].next, s.broadcast)))
    decreases s.broadcast - s.conns[c].next
  {
    var conn := s.conns[c];
    if conn.next == s.broadcast {
      run := [];
      assert conn.sent + Positions(conn.next, s.broadcast) == conn.sent;
      assert Put(s, c, conn) == s;
    } else {
      var s1 := Step(h, s, Receive(c));
      var s2 := Step(h, s1, Send(c));
      run := DrainRetained(h, s2, c);
      Prepend(h, s1, Send(c), run);
      run := [Send(c)] + run;
      Prepend(h, s, Receive(c), run);
      run := [Receive(c)] + run;
      assert s2.conns[c].sent + Positions(conn.next + 1, s.broadcast)
        == conn.sent + Positions(conn.next, s.broadcast);
    }
  }

  // However far behind, a listening connection catches up in at most 34 steps of its own, sending
  // exactly the retained broadcasts in order: the whole backlog, or its last 16 after a lag.
  lemma Drain(h: Hosts, s: Sys, c: nat) returns (run: seq<Action>)
    requires Listening(s, c) && s.conns[c].next <= s.broadcast
    ensures ValidRun(h, s, run) && |run| <= 34
    ensures var conn := s.conns[c];
      var from := if conn.next + 16 < s.broadcast then s.broadcast - 16 else conn.next;
      After(h, s, run) == Put(s, c, conn.(
        next := s.broadcast, sent := conn.sent + Positions(from, s.broadcast)))
  {
    if s.conns[c].next + CAPACITY < s.broadcast {
      var s1 := Step(h, s, Lag(c));
      var s2 := Step(h, s1, Inbound(c));
      run := DrainRetained(h, s2, c);
      Prepend(h, s1, Inbound(c), run);
      run := [Inbound(c)] + run;
      Prepend(h, s, Lag(c), run);
      run := [Lag(c)] + run;
    } else {
      run := DrainRetained(h, s, c);
    }
  }

  // A connection that has lagged sends nothing more until its agent sends something, however many policies are
  // broadcast in the meantime.
  lemma SilentAfterLag(h: Hosts, s: Sys, c: nat, run: seq<Action>)
    requires Enabled(s, Lag(c)) && ValidRun(h, Step(h, s, Lag(c)), run) && NotWoken(run, c)
    ensures var v := After(h, Step(h, s, Lag(c)), run);
      c in v.conns && v.conns[c].sent == s.conns[c].sent
  {
    Silent(h, Step(h, s, Lag(c)), c, run);
  }

  predicate NotWoken(run: seq<Action>, c: nat) {
    forall i :: 0 <= i < |run| ==> !run[i].Restart? && run[i] != Inbound(c)
  }

  lemma {:induction false} Silent(h: Hosts, s: Sys, c: nat, run: seq<Action>)
    requires c in s.conns && (s.conns[c].phase == Selecting(false) || s.conns[c].phase == Closed)
    requires ValidRun(h, s, run) && (if s.conns[c].phase == Closed then SameProcess(run) else NotWoken(run, c))
    ensures c in After(h, s, run).conns && After(h, s, run).conns[c].sent == s.conns[c].sent
    decreases |run|
  {
    if run != [] {
      var s1 := Step(h, s, run[0]);
      assert c in s1.conns;
      StepIsConnStep(h, s, run[0], c);
      assert forall i :: 0 <= i < |run| - 1 ==> run[1..][i] == run[i + 1];
      Silent(h, s1, c, run[1..]);
    }
  }

  // A connection that has ended sends nothing more at all.
  lemma SilentAfterClose(h: Hosts, s: Sys, c: nat, run: seq<Action>)
    requires Enabled(s, Close(c)) && ValidRun(h, Step(h, s, Close(c)), run) && SameProcess(run)
    ensures var v := After(h, Step(h, s, Close(c)), run);
      c in v.conns && v.conns[c].sent == s.conns[c].sent
  {
    Silent(h, Step(h, s, Close(c)), c, run);
  }

  // --- What a connection has sent ---

  predicate OwnSteps(run: seq<Action>, c: nat) {
    forall i :: 0 <= i < |run| ==> !run[i].Restart? && run[i] != Lag(c) && run[i] != Close(c)
  }

  // After the stored policy, if there was one, exactly the policies broadcast since `from`, in order.
  predicate SentSince(c: Conn, from: nat, head: seq<nat>) {
    && from <= c.next
    && match c.phase
       case Selecting(_) => c.sent == head + Positions(from, c.next)
       case Sending(policy) => c.sent + [policy] == head + Positions(from, c.next)
       case _ => false
  }

  lemma SinceStep(s: Sys, a: Action, c: nat, from: nat, head: seq<nat>)
    requires Enabled(s, a) && !a.Restart? && a != Lag(c) && a != Close(c)
    requires c in s.conns && SentSince(s.conns[c], from, head)
    ensures SentSince(ConnStep(s, a, c), from, head)
  {
    var conn := s.conns[c];
    if a == Receive(c) {
      assert head + Positions(from, conn.next + 1) == head + Positions(from, conn.next) + [conn.next];
    }
  }

  lemma {:induction false} SinceRun(h: Hosts, s: Sys, run: seq<Action>, c: nat, from: nat, head: seq<nat>)
    requires ValidRun(h, s, run) && OwnSteps(run, c) && c in s.conns && SentSince(s.conns[c], from, head)
    ensures c in After(h, s, run).conns && SentSince(After(h, s, run).conns[c], from, head)
    decreases |run|
  {
    if run != [] {
      var s1 := Step(h, s, run[0]);
      assert c in s1.conns;
      StepIsConnStep(h, s, run[0], c);
      SinceStep(s, run[0], c, from, head);
      assert forall i :: 0 <= i < |run| - 1 ==> run[1..][i] == run[i + 1];
      SinceRun(h, s1, run[1..], c, from, head);
    }
  }

  // A connection that subscribes, reads the stored policy some time later and then never lags has sent, or
  // is about to send, that policy and then every policy broadcast since it subscribed, each once in order.
  lemma SendsWhatItSubscribedFor(h: Hosts, s: Sys, c: nat, agent: nat, wait: seq<Action>, run: seq<Action>)
    requires Enabled(s, Subscribe(c, agent))
    requires var s1 := Step(h, s, Subscribe(c, agent)); ValidRun(h, s1, wait) && Waits(wait, c)
    requires var s2 := After(h, Step(h, s, Subscribe(c, agent)), wait); Enabled(s2, ReadLatest(c))
    requires var s3 := Step(h, After(h, Step(h, s, Subscribe(c, agent)), wait), ReadLatest(c));
      ValidRun(h, s3, run) && OwnSteps(run, c)
    ensures var s2 := After(h, Step(h, s, Subscribe(c, agent)), wait);
      var v := After(h, Step(h, s2, ReadLatest(c)), run);
      && c in v.conns
      && SentSince(v.conns[c], s.broadcast, if s2.snapshots == [] then [] else [|s2.snapshots| - 1])
  {
    var s1 := Step(h, s, Subscribe(c, agent));
    WaitRun(h, s1, wait, c);
    var s2 := After(h, s1, wait);
    var s3 := Step(h, s2, ReadLatest(c));
    var head := if s2.snapshots == [] then [] else [|s2.snapshots| - 1];
    assert head + Positions(s.broadcast, s.broadcast) == head;
    SinceRun(h, s3, run, c, s.broadcast, head);
  }

  // Nothing the connection itself does.
  predicate Waits(run: seq<Action>, c: nat) {
    forall i :: 0 <= i < |run| ==> !run[i].Restart? && run[i] != ReadLatest(c) && run[i] != Close(c)
  }

  lemma {:induction false} WaitRun(h: Hosts, s: Sys, run: seq<Action>, c: nat)
    requires ValidRun(h, s, run) && Waits(run, c)
    requires c in s.conns && s.conns[c].phase == Starting && s.conns[c].sent == []
    ensures var v := After(h, s, run);
      c in v.conns && v.conns[c].phase == Starting && v.conns[c].sent == [] && v.conns[c].next == s.conns[c].next
    decreases |run|
  {
    if run != [] {
      var s1 := Step(h, s, run[0]);
      assert c in s1.conns;
      StepIsConnStep(h, s, run[0], c);
      assert forall i :: 0 <= i < |run| - 1 ==> run[1..][i] == run[i + 1];
      WaitRun(h, s1, run[1..], c);
    }
  }
}
