// How a connector hands firewall policies to its agents: it stores the newest policy, then
// broadcasts it; each agent connection subscribes, then reads the stored policy, then drains the
// broadcast channel. Every interleaving of these steps, of any number of connections, is a run.
module Delivery {
  import opened Wrappers
  import opened PacketFilter
  import opened Enforcement
  import opened EnforcementTheorems
  import opened PolicyPorts
  import SyncResults

  // The broadcast channel keeps this many messages for slow receivers.
  const CAPACITY := 16

  // A policy is named by the position of its snapshot among those accepted so far.
  // Selecting(false): the receive branch has just failed with a lag error and stays disabled until
  // the other branch of the select completes.
  datatype Phase = Starting | Sending(policy: nat) | Selecting(armed: bool) | Closed

  // next: the receiver's position in the broadcast log; sent: what went out on the stream;
  // taken: how much of it the agent has consumed.
  datatype Conn = Conn(agent: nat, phase: Phase, next: nat, sent: seq<nat>, taken: nat)

  // applied, clean, before: the policy of the last sync, whether that sync met no nft failure, and what was
  // protected before it.
  datatype Agent = Agent(
    current: Option<nat>, fw: State, applied: Option<seq<PortRule>>, clean: bool, before: map<Port, Entry>)

  // broadcast: how many of the accepted snapshots have been broadcast.
  datatype Sys = Sys(snapshots: seq<seq<ResourceRow>>, broadcast: nat, conns: map<nat, Conn>, agents: map<nat, Agent>)

  datatype Action =
    | AcceptSnapshot(rows: seq<ResourceRow>)
    | Broadcast
    | Restart
    | Subscribe(conn: nat, agent: nat)
    | ReadLatest(conn: nat)
    | Send(conn: nat)
    | Receive(conn: nat)
    | Lag(conn: nat)
    | Inbound(conn: nat)
    | Close(conn: nat)
    | Take(agent: nat, order: seq<Port>)

  type Hosts = nat -> Host

  predicate Idle(s: Sys) { s.broadcast == |s.snapshots| }

  ghost predicate Enabled(s: Sys, a: Action) {
    match a
    // One task handles control messages, so a snapshot is broadcast before the next is looked at.
    case AcceptSnapshot(rows) => Idle(s) && PushedRules(rows).Some?
    case Broadcast => s.broadcast < |s.snapshots|
    case Restart => true
    case Subscribe(c, agent) => c !in s.conns && agent in s.agents
    case ReadLatest(c) => c in s.conns && s.conns[c].phase == Starting
    case Send(c) => c in s.conns && s.conns[c].phase.Sending?
    case Receive(c) => Listening(s, c) && s.conns[c].next < s.broadcast <= s.conns[c].next + CAPACITY
    case Lag(c) => Listening(s, c) && s.conns[c].next + CAPACITY < s.broadcast
    case Inbound(c) => c in s.conns && s.conns[c].phase.Selecting?
    case Close(c) => c in s.conns
    case Take(agent, order) =>
      && HasMail(s, agent)
      && Lists(order, Stale(s.agents[agent].fw, Mail(s, agent)))
  }

  predicate Listening(s: Sys, c: nat) { c in s.conns && s.conns[c].phase == Selecting(true) }

  predicate HasMail(s: Sys, agent: nat) {
    && agent in s.agents
    && s.agents[agent].current.Some?
    && var c := s.agents[agent].current.value;
       c in s.conns && s.conns[c].taken < |s.conns[c].sent|
  }

  function Rules(s: Sys, policy: nat): seq<PortRule> {
    if policy < |s.snapshots| && PushedRules(s.snapshots[policy]).Some?
    then PushedRules(s.snapshots[policy]).value else []
  }

  function Mail(s: Sys, agent: nat): seq<PortRule>
    requires HasMail(s, agent)
  {
    var c := s.conns[s.agents[agent].current.value];
    Rules(s, c.sent[c.taken])
  }

  function Put(s: Sys, id: nat, c: Conn): Sys { s.(conns := s.conns[id := c]) }

  ghost function Step(h: Hosts, s: Sys, a: Action): Sys
    requires Enabled(s, a)
  {
    match a
    case AcceptSnapshot(rows) => s.(snapshots := s.snapshots + [rows])
    case Broadcast => s.(broadcast := s.broadcast + 1)
    // The connector process starts over; agents keep their rules.
    case Restart => Sys([], 0, map[], map i | i in s.agents :: s.agents[i].(current := None))
    case Subscribe(c, agent) =>
      Put(s, c, Conn(agent, Starting, s.broadcast, [], 0))
        .(agents := s.agents[agent := s.agents[agent].(current := Some(c))])
    case ReadLatest(c) =>
      Put(s, c, s.conns[c].(phase := if s.snapshots == [] then Selecting(true) else Sending(|s.snapshots| - 1)))
    case Send(c) =>
      Put(s, c, s.conns[c].(phase := Selecting(true), sent := s.conns[c].sent + [s.conns[c].phase.policy]))
    case Receive(c) =>
      Put(s, c, s.conns[c].(phase := Sending(s.conns[c].next), next := s.conns[c].next + 1))
    case Lag(c) =>
      Put(s, c, s.conns[c].(phase := Selecting(false), next := s.broadcast - CAPACITY))
    case Inbound(c) => Put(s, c, s.conns[c].(phase := Selecting(true)))
    case Close(c) => Put(s, c, s.conns[c].(phase := Closed))
    case Take(i, order) =>
      var agent := s.agents[i];
      var id := agent.current.value;
      var fw := SyncPolicy(h(i), agent.fw, order, Mail(s, i));
      var clean := FaultFree(h(i), agent.fw.kernel.clock, fw.kernel.clock);
      Put(s, id, s.conns[id].(taken := s.conns[id].taken + 1))
        .(agents := s.agents[i := Agent(agent.current, fw, Some(Mail(s, i)), clean, agent.fw.protected)])
  }

  ghost predicate ValidRun(h: Hosts, s: Sys, run: seq<Action>)
    decreases |run|
  {
    run == [] || (Enabled(s, run[0]) && ValidRun(h, Step(h, s, run[0]), run[1..]))
  }

  ghost function After(h: Hosts, s: Sys, run: seq<Action>): Sys
    requires ValidRun(h, s, run)
    decreases |run|
  {
    if run == [] then s else After(h, Step(h, s, run[0]), run[1..])
  }

  // No snapshot yet, no connection, and agents that have protected nothing.
  predicate Initial(s: Sys) {
    && s.snapshots == [] && s.broadcast == 0 && s.conns == map[]
    && forall i :: i in s.agents ==> s.agents[i] == Agent(None, Fresh, None, false, map[])
  }

  // --- The invariant ---

  ghost predicate ProducerOk(s: Sys) {
    && s.broadcast <= |s.snapshots| <= s.broadcast + 1
    && forall rows :: rows in s.snapshots ==> PushedRules(rows).Some?
  }

  // b broadcasts out of n accepted snapshots. A connection that has caught up with an idle producer
  // has sent, or is about to send, the newest policy.
  predicate CaughtUp(b: nat, n: nat, c: Conn) {
    c.next == b == n ==>
      match c.phase
      case Sending(policy) => policy + 1 == n
      case Selecting(_) => if c.sent == [] then n == 0 else c.sent[|c.sent| - 1] + 1 == n
      case _ => true
  }

  // Apart from the first message, policies go out in the order they were broadcast.
  predicate InOrder(b: nat, n: nat, c: Conn) {
    && c.taken <= |c.sent|
    && c.next <= b <= n
    && (forall i :: 0 <= i < |c.sent| ==> c.sent[i] < n)
    && (forall i :: 1 <= i < |c.sent| ==> c.sent[i] < c.next)
    && (forall i, j :: 1 <= i < j < |c.sent| ==> c.sent[i] < c.sent[j])
    && match c.phase
       case Starting => c.sent == []
       case Sending(policy) => policy < n
         && (c.sent != [] ==> policy < c.next && forall i :: 1 <= i < |c.sent| ==> c.sent[i] < policy)
       case _ => true
  }

  predicate ConnOk(b: nat, n: nat, c: Conn) {
    CaughtUp(b, n, c) && InOrder(b, n, c)
  }

  // The desired ports, each under the protocol it had or that of its first rule.
  predicate Applied(before: map<Port, Entry>, desired: seq<PortRule>, protected: map<Port, Entry>) {
    && protected.Keys == Ports(desired)
    && forall p :: p in protected ==>
      Some(protected[p].protocol) ==
        if p in before then Some(before[p].protocol) else FirstProtocol(desired, p)
  }

  ghost predicate FirewallOk(h: Host, agent: Agent) {
    && Inv(h, agent.fw)
    && (agent.applied.Some? && agent.clean ==> Applied(agent.before, agent.applied.value, agent.fw.protected))
  }

  // The agent's connection is its own, and it has applied last what it took from it last.
  predicate LinkOk(s: Sys, i: nat, agent: Agent) {
    agent.current.Some? ==>
      && agent.current.value in s.conns
      && s.conns[agent.current.value].agent == i
      && var c := s.conns[agent.current.value];
         0 < c.taken <= |c.sent| ==> agent.applied == Some(Rules(s, c.sent[c.taken - 1]))
  }

  ghost predicate AgentOk(h: Hosts, s: Sys, i: nat)
    requires i in s.agents
  {
    FirewallOk(h(i), s.agents[i]) && LinkOk(s, i, s.agents[i])
  }

  ghost predicate SysInv(h: Hosts, s: Sys) {
    && ProducerOk(s)
    && (forall id :: id in s.conns ==> ConnOk(s.broadcast, |s.snapshots|, s.conns[id]))
    && (forall i :: i in s.agents ==> AgentOk(h, s, i))
  }

  lemma InitialInv(h: Hosts, s: Sys)
    requires Initial(s)
    ensures SysInv(h, s)
  {
    forall i | i in s.agents ensures AgentOk(h, s, i) {
      FreshInv(h(i));
    }
  }

  lemma StepProducer(h: Hosts, s: Sys, a: Action)
    requires ProducerOk(s) && Enabled(s, a)
    ensures ProducerOk(Step(h, s, a))
  {
  }

  // How an action changes one connection that exists before it.
  function ConnStep(s: Sys, a: Action, id: nat): Conn
    requires id in s.conns
  {
    var c := s.conns[id];
    match a
    case ReadLatest(x) =>
      if x != id then c else c.(phase := if s.snapshots == [] then Selecting(true) else Sending(|s.snapshots| - 1))
    case Send(x) =>
      if x != id || !c.phase.Sending? then c else c.(phase := Selecting(true), sent := c.sent + [c.phase.policy])
    case Receive(x) => if x != id then c else c.(phase := Sending(c.next), next := c.next + 1)
    case Lag(x) =>
      if x != id || s.broadcast < CAPACITY then c else c.(phase := Selecting(false), next := s.broadcast - CAPACITY)
    case Inbound(x) => if x != id then c else c.(phase := Selecting(true))
    case Close(x) => if x != id then c else c.(phase := Closed)
    case Take(i, _) =>
      if i in s.agents && s.agents[i].current == Some(id) then c.(taken := c.taken + 1) else c
    case _ => c
  }

  lemma StepIsConnStep(h: Hosts, s: Sys, a: Action, id: nat)
    requires Enabled(s, a) && id in Step(h, s, a).conns
    ensures if id in s.conns then Step(h, s, a).conns[id] == ConnStep(s, a, id)
            else a.Subscribe? && Step(h, s, a).conns[id] == Conn(a.agent, Starting, s.broadcast, [], 0)
  {
  }

  lemma ConnStepOk(s: Sys, a: Action, id: nat)
    requires ProducerOk(s) && Enabled(s, a) && !a.Restart?
    requires id in s.conns && ConnOk(s.broadcast, |s.snapshots|, s.conns[id])
    ensures ConnOk(s.broadcast + (if a.Broadcast? then 1 else 0),
                   |s.snapshots| + (if a.AcceptSnapshot? then 1 else 0), ConnStep(s, a, id))
  {
    var c := s.conns[id];
    var c' := ConnStep(s, a, id);
    if a.Send? && a.conn == id {
      forall i | 1 <= i < |c'.sent| ensures c'.sent[i] < c'.next && forall j :: 1 <= j < i ==> c'.sent[j] < c'.sent[i] {
        assert i < |c.sent| ==> c'.sent[i] == c.sent[i];
      }
    }
  }

  lemma StepConns(h: Hosts, s: Sys, a: Action)
    requires SysInv(h, s) && Enabled(s, a)
    ensures forall id :: id in Step(h, s, a).conns ==>
      ConnOk(Step(h, s, a).broadcast, |Step(h, s, a).snapshots|, Step(h, s, a).conns[id])
  {
    forall id | id in Step(h, s, a).conns
      ensures ConnOk(Step(h, s, a).broadcast, |Step(h, s, a).snapshots|, Step(h, s, a).conns[id])
    {
      StepIsConnStep(h, s, a, id);
      if id in s.conns {
        ConnStepOk(s, a, id);
      }
    }
  }

  // Only its own Take changes an agent's firewall, and only Subscribe and Restart its connection.
  lemma TakeAgent(h: Hosts, s: Sys, a: Action)
    requires SysInv(h, s) && Enabled(s, a) && a.Take?
    ensures AgentOk(h, Step(h, s, a), a.agent)
  {
    var i := a.agent;
    var fw := s.agents[i].fw;
    var s' := Step(h, s, a);
    assert AgentOk(h, s, i);
    SyncPolicyInv(h(i), fw, a.order, Mail(s, i));
    SyncResults.SyncPolicyResult(h(i), fw, a.order, Mail(s, i));
    assert s'.agents[i].applied == Some(Mail(s, i));
    assert Rules(s', s.conns[s.agents[i].current.value].sent[s.conns[s.agents[i].current.value].taken]) == Mail(s, i);
  }

  lemma RulesStay(s: Sys, s': Sys, policy: nat)
    requires s.snapshots <= s'.snapshots && policy < |s.snapshots|
    ensures Rules(s', policy) == Rules(s, policy)
  {
    assert s'.snapshots[policy] == s.snapshots[policy];
  }

  // An agent's clause survives when its firewall is untouched, and its connection is a new one or
  // has at most sent more.
  lemma AgentFrame(h: Hosts, s: Sys, s': Sys, i: nat)
    requires i in s.agents && AgentOk(h, s, i) && i in s'.agents
    requires s'.agents[i] == s.agents[i].(current := s'.agents[i].current)
    requires s'.agents[i].current.Some? ==>
      var id := s'.agents[i].current.value;
      && id in s'.conns && s'.conns[id].agent == i
      && (s'.conns[id].taken == 0 ||
           (&& s.agents[i].current == Some(id)
            && s.snapshots <= s'.snapshots
            && InOrder(s.broadcast, |s.snapshots|, s.conns[id])
            && s'.conns[id].taken == s.conns[id].taken
            && s.conns[id].sent <= s'.conns[id].sent))
    ensures AgentOk(h, s', i)
  {
    assert FirewallOk(h(i), s'.agents[i]);
    if s'.agents[i].current.Some? {
      var id := s'.agents[i].current.value;
      if s'.conns[id].taken != 0 {
        SameLastTaken(s, s', s.conns[id], s'.conns[id]);
      }
    }
  }

  lemma SameLastTaken(s: Sys, s': Sys, c: Conn, c': Conn)
    requires s.snapshots <= s'.snapshots && InOrder(s.broadcast, |s.snapshots|, c)
    requires 0 < c.taken == c'.taken && c.sent <= c'.sent
    ensures c.taken <= |c.sent| && Rules(s', c'.sent[c'.taken - 1]) == Rules(s, c.sent[c.taken - 1])
  {
    RulesStay(s, s', c.sent[c.taken - 1]);
  }

  lemma AgentStep(h: Hosts, s: Sys, a: Action, i: nat)
    requires Enabled(s, a) && i in s.agents && !(a.Take? && a.agent == i)
    ensures var s' := Step(h, s, a);
      && i in s'.agents
      && s'.agents[i] == s.agents[i].(current := s'.agents[i].current)
      && (a.Restart? ==> s'.agents[i].current == None)
      && (!a.Restart? ==> s.snapshots <= s'.snapshots)
      && (a.Subscribe? && a.agent == i ==> s'.agents[i].current == Some(a.conn) && a.conn in s'.conns)
      && (!a.Restart? && !(a.Subscribe? && a.agent == i) ==> s'.agents[i].current == s.agents[i].current)
      && (!a.Restart? ==> s.conns.Keys <= s'.conns.Keys)
  {
  }

  lemma OtherAgent(h: Hosts, s: Sys, a: Action, i: nat)
    requires SysInv(h, s) && Enabled(s, a) && i in s.agents && !(a.Take? && a.agent == i)
    ensures AgentOk(h, Step(h, s, a), i)
  {
    assert AgentOk(h, s, i);
    AgentStep(h, s, a, i);
    if a.Subscribe? && a.agent == i {
      StepIsConnStep(h, s, a, a.conn);
    } else if !a.Restart? && s.agents[i].current.Some? {
      var id := s.agents[i].current.value;
      assert ConnOk(s.broadcast, |s.snapshots|, s.conns[id]);
      StepIsConnStep(h, s, a, id);
      if a.Take? {
        assert AgentOk(h, s, a.agent);
      }
    }
    AgentFrame(h, s, Step(h, s, a), i);
  }

  lemma StepAgents(h: Hosts, s: Sys, a: Action)
    requires SysInv(h, s) && Enabled(s, a)
    ensures forall i :: i in Step(h, s, a).agents ==> AgentOk(h, Step(h, s, a), i)
  {
    forall i | i in Step(h, s, a).agents ensures AgentOk(h, Step(h, s, a), i) {
      if a.Take? && a.agent == i {
        TakeAgent(h, s, a);
      } else {
        OtherAgent(h, s, a, i);
      }
    }
  }

  lemma {:induction false} ReachableInv(h: Hosts, s: Sys, run: seq<Action>)
    requires SysInv(h, s) && ValidRun(h, s, run)
    ensures SysInv(h, After(h, s, run))
    decreases |run|
  {
    if run != [] {
      StepProducer(h, s, run[0]);
      StepConns(h, s, run[0]);
      StepAgents(h, s, run[0]);
      ReachableInv(h, Step(h, s, run[0]), run[1..]);
    }
  }
}
