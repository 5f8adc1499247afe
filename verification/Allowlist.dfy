// The agent allowlist, kept by the controller and replicated to connectors over their control streams.
module Allowlist {
  datatype Agent = Agent(id: string, spiffe: string)

  // --- The two ends ---

  // The registry keeps the first entry of each agent id.
  function Registered(items: seq<Agent>, id: string, spiffe: string): seq<Agent> {
    if exists i :: 0 <= i < |items| && items[i].id == id then items else items + [Agent(id, spiffe)]
  }

  class AgentRegistry {
    var items: seq<Agent>
    var seen: set<string>

    ghost predicate Valid()
      reads this
    {
      && (forall id :: id in seen <==> exists i :: 0 <= i < |items| && items[i].id == id)
      && forall i, j :: 0 <= i < j < |items| ==> items[i].id != items[j].id
    }

    constructor ()
      ensures Valid() && items == []
    {
      items, seen := [], {};
    }

    method Add(id: string, spiffe: string)
      requires Valid()
      modifies this
      ensures Valid() && items == Registered(old(items), id, spiffe)
    {
      if id in seen {
        return;
      }
      seen := seen + {id};
      items := items + [Agent(id, spiffe)];
      assert items[|items| - 1].id == id;
      assert forall i :: 0 <= i < |old(items)| ==> items[i] == old(items)[i];
    }
  }

  function Ids(items: seq<Agent>): set<string> {
    (set i | 0 <= i < |items| :: items[i].spiffe) - {""}
  }

  lemma IdsMean(items: seq<Agent>, x: string)
    ensures x in Ids(items) <==> x != "" && exists i :: 0 <= i < |items| && items[i].spiffe == x
  {
  }

  // An agent registers once, behind those there are, and its entry does not change after.
  lemma RegisteredMeans(items: seq<Agent>, id: string, spiffe: string)
    ensures items <= Registered(items, id, spiffe)
    ensures |Registered(items, id, spiffe)| ==
      |items| + if exists i :: 0 <= i < |items| && items[i].id == id then 0 else 1
    ensures |Registered(items, id, spiffe)| > |items| ==> Registered(items, id, spiffe)[|items|] == Agent(id, spiffe)
  {
  }

  datatype Message = AllowList(items: seq<Agent>) | Allow(spiffe: string)

  function Apply(m: Message, s: set<string>): set<string> {
    match m
    case AllowList(items) => Ids(items)
    case Allow(spiffe) => if spiffe == "" then s else s + {spiffe}
  }

  class AgentAllowlist {
    var inner: set<string>

    constructor ()
      ensures inner == {}
    {
      inner := {};
    }

    method Replace(items: seq<Agent>)
      modifies this
      ensures inner == Apply(AllowList(items), old(inner))
    {
      inner := {};
      for i := 0 to |items|
        invariant inner == Ids(items[..i])
      {
        assert forall x :: x in Ids(items[..i + 1]) <==> x in Ids(items[..i]) || (x == items[i].spiffe && x != "") by {
          assert items[..i + 1] == items[..i] + [items[i]];
          assert forall j :: 0 <= j < i ==> items[..i][j] == items[..i + 1][j];
          assert items[..i + 1][i] == items[i];
        }
        if items[i].spiffe != "" {
          inner := inner + {items[i].spiffe};
        }
      }
      assert items[..|items|] == items;
    }

    method Add(spiffe: string)
      modifies this
      ensures inner == Apply(Allow(spiffe), old(inner))
    {
      if spiffe == "" {
        return;
      }
      inner := inner + {spiffe};
    }
  }

  // What a connector's set becomes once it has taken every queued message.
  function Fold(queue: seq<Message>, s: set<string>): set<string> {
    if queue == [] then s
    else Apply(queue[|queue| - 1], Fold(queue[..|queue| - 1], s))
  }

  // A message that brings an identity: a list that has it, or its announcement.
  predicate Brings(m: Message, x: string) {
    match m
    case AllowList(items) => exists i :: 0 <= i < |items| && items[i].spiffe == x
    case Allow(spiffe) => spiffe == x
  }

  // The outcome has exactly the identities that some message brings, after which no list comes, or that were
  // there when no list comes at all.
  lemma {:induction false} FoldMeans(queue: seq<Message>, s: set<string>, x: string)
    requires x != ""
    ensures x in Fold(queue, s) <==>
      || (x in s && forall j :: 0 <= j < |queue| ==> !queue[j].AllowList?)
      || exists i :: 0 <= i < |queue| && Brings(queue[i], x) && forall j :: i < j < |queue| ==> !queue[j].AllowList?
  {
    if queue != [] {
      var n := |queue| - 1;
      FoldMeans(queue[..n], s, x);
      assert forall j :: 0 <= j < n ==> queue[..n][j] == queue[j];
      assert x in Apply(queue[n], {}) <==> Brings(queue[n], x);
    }
  }

  lemma FoldLast(queue: seq<Message>, m: Message, s: set<string>)
    ensures Fold(queue + [m], s) == Apply(m, Fold(queue, s))
  {
    assert (queue + [m])[..|queue|] == queue;
  }

  // Taking the first message leaves the outcome as it is.
  lemma {:induction false} FoldFirst(queue: seq<Message>, s: set<string>)
    requires queue != []
    ensures Fold(queue[1..], Apply(queue[0], s)) == Fold(queue, s)
  {
    var n := |queue| - 1;
    if n > 0 {
      FoldFirst(queue[..n], s);
      assert queue[..n][1..] == queue[1..][..n - 1];
    }
  }

  // --- Replication, as interleaved steps ---

  // A control stream joins the clients, lists the registry, sends the list, and is then live.
  datatype Phase = Joined | Listed(items: seq<Agent>) | Live

  datatype Stream = Stream(key: string, phase: Phase, queue: seq<Message>, allowed: set<string>)

  // A broadcast in progress: the agent is registered; then the clients are copied and sent to one by one.
  datatype Note = Added(spiffe: string) | Sending(spiffe: string, targets: set<nat>)

  datatype World = World(items: seq<Agent>, clients: map<string, nat>, streams: map<nat, Stream>, notes: map<nat, Note>)

  datatype Action =
    | Connect(c: nat, key: string, allowed: set<string>)
    | List(c: nat)
    | SendList(c: nat)
    | Greet(c: nat)
    | Disconnect(c: nat)
    | Register(n: nat, id: string, spiffe: string)
    | Capture(n: nat)
    | SendAllow(n: nat, c: nat)
    | Deliver(c: nat)

  const INITIAL := World([], map[], map[], map[])

  predicate Enabled(w: World, a: Action) {
    match a
    case Connect(c, _, _) =>
      c !in w.streams && forall n :: n in w.notes && w.notes[n].Sending? ==> c !in w.notes[n].targets
    case List(c) => c in w.streams && w.streams[c].phase.Joined?
    case SendList(c) => c in w.streams && w.streams[c].phase.Listed?
    case Greet(c) => c in w.streams && w.streams[c].phase.Joined?
    case Disconnect(c) => c in w.streams
    case Register(n, _, _) => n !in w.notes
    case Capture(n) => n in w.notes && w.notes[n].Added?
    case SendAllow(n, c) => n in w.notes && w.notes[n].Sending? && c in w.notes[n].targets
    case Deliver(c) => c in w.streams && w.streams[c].queue != []
  }

  function SetStream(w: World, c: nat, s: Stream): World {
    w.(streams := w.streams[c := s])
  }

  function Sent(w: World, c: nat, m: Message): World {
    if c !in w.streams then w
    else SetStream(w, c, w.streams[c].(queue := w.streams[c].queue + [m]))
  }

  function DoSendList(w: World, c: nat, items: seq<Agent>): World
    requires c in w.streams
  {
    SetStream(w, c, w.streams[c].(phase := Live, queue := w.streams[c].queue + [AllowList(items)]))
  }

  // A stream is removed from the clients by its connector's key, whichever stream holds that key by then.
  function Step(w: World, a: Action): World
    requires Enabled(w, a)
  {
    match a
    case Connect(c, key, allowed) =>
      SetStream(w.(clients := w.clients[key := c]), c, Stream(key, Joined, [], allowed))
    case List(c) => SetStream(w, c, w.streams[c].(phase := Listed(w.items)))
    case SendList(c) => DoSendList(w, c, w.streams[c].phase.items)
    case Greet(c) => DoSendList(w, c, w.items)
    case Disconnect(c) => w.(clients := w.clients - {w.streams[c].key}, streams := w.streams - {c})
    case Register(n, id, spiffe) => w.(items := Registered(w.items, id, spiffe), notes := w.notes[n := Added(spiffe)])
    case Capture(n) => w.(notes := w.notes[n := Sending(w.notes[n].spiffe, w.clients.Values)])
    case SendAllow(n, c) =>
      Sent(w, c, Allow(w.notes[n].spiffe)).(notes := w.notes[n := w.notes[n].(targets := w.notes[n].targets - {c})])
    case Deliver(c) =>
      var s := w.streams[c];
      SetStream(w, c, s.(queue := s.queue[1..], allowed := Apply(s.queue[0], s.allowed)))
  }

  // --- Coverage ---

  function Outcome(w: World, c: nat): set<string>
    requires c in w.streams
  {
    Fold(w.streams[c].queue, w.streams[c].allowed)
  }

  // Some broadcast will still reach the stream, or has not copied the clients yet.
  ghost predicate Pending(w: World, c: nat, x: string) {
    exists n :: n in w.notes && w.notes[n].spiffe == x && (w.notes[n].Added? || c in w.notes[n].targets)
  }

  ghost predicate PendingBut(w: World, c: nat, x: string, but: nat) {
    exists n :: n in w.notes && n != but && w.notes[n].spiffe == x && (w.notes[n].Added? || c in w.notes[n].targets)
  }

  // Every registered identity is in the stream's outcome or still on its way.
  ghost predicate Covered(w: World, c: nat)
    requires c in w.streams
  {
    forall x :: x in Ids(w.items) ==> x in Outcome(w, c) || Pending(w, c, x)
  }

  // Sending a list covers the stream exactly when what was registered since the listing is still on its way.
  lemma SendListCovers(w: World, c: nat)
    requires Enabled(w, SendList(c))
    ensures Covered(Step(w, SendList(c)), c) <==>
      forall x :: x in Ids(w.items) ==> x in Ids(w.streams[c].phase.items) || Pending(w, c, x)
  {
    var s := w.streams[c];
    FoldLast(s.queue, AllowList(s.phase.items), s.allowed);
    var v := Step(w, SendList(c));
    assert Outcome(v, c) == Ids(s.phase.items);
    forall x ensures Pending(v, c, x) <==> Pending(w, c, x) {
    }
  }

  // Copying the clients keeps a stream covered exactly when it is one of them or has the agent anyway.
  lemma CaptureCovers(w: World, n: nat, c: nat)
    requires Enabled(w, Capture(n)) && c in w.streams && Covered(w, c)
    ensures var x := w.notes[n].spiffe;
      Covered(Step(w, Capture(n)), c) <==>
        c in w.clients.Values || x !in Ids(w.items) || x in Outcome(w, c) || PendingBut(w, c, x, n)
  {
    var v := Step(w, Capture(n));
    assert Outcome(v, c) == Outcome(w, c);
    var x := w.notes[n].spiffe;
    forall y ensures Pending(v, c, y) <==> PendingBut(w, c, y, n) || (y == x && c in w.clients.Values) {
      if c in w.clients.Values {
        assert v.notes[n].spiffe == x && c in v.notes[n].targets;
      }
      if m :| m in w.notes && m != n && w.notes[m].spiffe == y && (w.notes[m].Added? || c in w.notes[m].targets) {
        assert v.notes[m] == w.notes[m];
      }
    }
    forall y ensures Pending(w, c, y) <==> PendingBut(w, c, y, n) || y == x {
      assert w.notes[n].Added?;
    }
  }
}
