// When replication delivers every registered agent, and the two interleavings that lose one.
module AllowlistTheorems {
  import opened Allowlist

  predicate ValidRun(w: World, run: seq<Action>)
    decreases |run|
  {
    run != [] ==> Enabled(w, run[0]) && ValidRun(Step(w, run[0]), run[1..])
  }

  function After(w: World, run: seq<Action>): World
    requires ValidRun(w, run)
    decreases |run|
  {
    if run == [] then w else After(Step(w, run[0]), run[1..])
  }

  lemma RegisteredIds(items: seq<Agent>, id: string, spiffe: string, x: string)
    ensures x in Ids(Registered(items, id, spiffe)) ==> x in Ids(items) || x == spiffe
  {
    if x in Ids(Registered(items, id, spiffe)) && x != spiffe {
      var r := Registered(items, id, spiffe);
      var i :| 0 <= i < |r| && r[i].spiffe == x;
      assert items[i].spiffe == x;
    }
  }

  lemma PendingStays(w: World, v: World, c: nat)
    requires forall n :: n in w.notes ==> n in v.notes && v.notes[n].spiffe == w.notes[n].spiffe
    requires forall n :: n in w.notes && (w.notes[n].Added? || c in w.notes[n].targets) ==>
      v.notes[n].Added? || c in v.notes[n].targets
    ensures forall x :: Pending(w, c, x) ==> Pending(v, c, x)
  {
  }

  lemma RegisterCovers(w: World, c: nat, n: nat, id: string, spiffe: string)
    requires Enabled(w, Register(n, id, spiffe)) && c in w.streams && Covered(w, c)
    ensures Covered(Step(w, Register(n, id, spiffe)), c)
  {
    var v := Step(w, Register(n, id, spiffe));
    PendingStays(w, v, c);
    forall x | x in Ids(v.items) ensures x in Outcome(v, c) || Pending(v, c, x) {
      RegisteredIds(w.items, id, spiffe, x);
      assert v.notes[n].spiffe == spiffe;
    }
  }

  lemma SendAllowCovers(w: World, c: nat, n: nat, d: nat)
    requires Enabled(w, SendAllow(n, d)) && c in w.streams && Covered(w, c)
    ensures Covered(Step(w, SendAllow(n, d)), c)
  {
    var v := Step(w, SendAllow(n, d));
    FoldLast(w.streams[c].queue, Allow(w.notes[n].spiffe), w.streams[c].allowed);
    forall x | x in Ids(v.items) ensures x in Outcome(v, c) || Pending(v, c, x) {
      assert x in Outcome(w, c) ==> x in Outcome(v, c);
      if x !in Outcome(v, c) {
        var m :| m in w.notes && w.notes[m].spiffe == x && (w.notes[m].Added? || c in w.notes[m].targets);
        assert v.notes[m].spiffe == x;
      }
    }
  }

  lemma DeliverCovers(w: World, c: nat, d: nat)
    requires Enabled(w, Deliver(d)) && c in w.streams && Covered(w, c)
    ensures Covered(Step(w, Deliver(d)), c) && Outcome(Step(w, Deliver(d)), c) == Outcome(w, c)
  {
    FoldFirst(w.streams[d].queue, w.streams[d].allowed);
    PendingStays(w, Step(w, Deliver(d)), c);
  }

  // Of the steps that leave a stream alone, only the copying of the clients can uncover it.
  lemma OtherStepsCover(w: World, a: Action, c: nat)
    requires Enabled(w, a) && c in w.streams && Covered(w, c) && !a.Capture?
    requires a.SendList? || a.Greet? || a.Disconnect? ==> a.c != c
    ensures c in Step(w, a).streams && Covered(Step(w, a), c)
  {
    if a.Register? {
      RegisterCovers(w, c, a.n, a.id, a.spiffe);
    } else if a.SendAllow? {
      SendAllowCovers(w, c, a.n, a.c);
    } else if a.Deliver? {
      DeliverCovers(w, c, a.c);
    } else {
      PendingStays(w, Step(w, a), c);
    }
  }

  // --- Exactly when nothing is lost ---

  predicate IsLive(w: World, c: nat) {
    c in w.streams && w.streams[c].phase.Live?
  }

  // Sending the list: what was registered since the listing is still on its way. Copying the clients: a live
  // stream is one of them, or has the agent anyway.
  ghost predicate Guarded(w: World, a: Action, c: nat)
    requires Enabled(w, a)
  {
    && (a == SendList(c) ==>
          forall x :: x in Ids(w.items) ==> x in Ids(w.streams[c].phase.items) || Pending(w, c, x))
    && (a.Capture? && IsLive(w, c) ==>
          var x := w.notes[a.n].spiffe;
          c in w.clients.Values || x !in Ids(w.items) || x in Outcome(w, c) || PendingBut(w, c, x, a.n))
  }

  lemma GreetCovers(w: World, c: nat)
    requires Enabled(w, Greet(c))
    ensures Covered(Step(w, Greet(c)), c)
  {
    FoldLast(w.streams[c].queue, AllowList(w.items), w.streams[c].allowed);
  }

  // One step leaves a live stream without a gap exactly when it meets its guard.
  lemma StepCovers(w: World, a: Action, c: nat)
    requires Enabled(w, a) && (IsLive(w, c) ==> Covered(w, c))
    ensures (IsLive(Step(w, a), c) ==> Covered(Step(w, a), c)) <==> Guarded(w, a, c)
  {
    if a == SendList(c) {
      SendListCovers(w, c);
    } else if a == Greet(c) {
      GreetCovers(w, c);
    } else if IsLive(w, c) && a != Disconnect(c) {
      if a.Capture? {
        CaptureCovers(w, a.n, c);
      } else {
        OtherStepsCover(w, a, c);
      }
    }
  }

  ghost predicate AlwaysCovered(w: World, run: seq<Action>, c: nat)
    requires ValidRun(w, run)
    decreases |run|
  {
    && (IsLive(w, c) ==> Covered(w, c))
    && (run != [] ==> AlwaysCovered(Step(w, run[0]), run[1..], c))
  }

  ghost predicate AllGuarded(w: World, run: seq<Action>, c: nat)
    requires ValidRun(w, run)
    decreases |run|
  {
    run != [] ==> Guarded(w, run[0], c) && AllGuarded(Step(w, run[0]), run[1..], c)
  }

  lemma {:induction false} CoveredIffGuardedFrom(w: World, run: seq<Action>, c: nat)
    requires ValidRun(w, run) && (IsLive(w, c) ==> Covered(w, c))
    ensures AlwaysCovered(w, run, c) <==> AllGuarded(w, run, c)
    decreases |run|
  {
    if run != [] {
      StepCovers(w, run[0], c);
      if Guarded(w, run[0], c) {
        CoveredIffGuardedFrom(Step(w, run[0]), run[1..], c);
      }
    }
  }

  // In every run, a stream is covered in every state from its list on exactly when each sending of its list,
  // and each copying of the clients while it is live, meets its guard.
  lemma CoveredIffGuarded(run: seq<Action>, c: nat)
    requires ValidRun(INITIAL, run)
    ensures AlwaysCovered(INITIAL, run, c) <==> AllGuarded(INITIAL, run, c)
  {
    CoveredIffGuardedFrom(INITIAL, run, c);
  }

  lemma {:induction false} CoveredAtEnd(w: World, run: seq<Action>, c: nat)
    requires ValidRun(w, run) && AlwaysCovered(w, run, c)
    ensures IsLive(After(w, run), c) ==> Covered(After(w, run), c)
    decreases |run|
  {
    if run != [] {
      CoveredAtEnd(Step(w, run[0]), run[1..], c);
    }
  }

  // --- Orderly runs ---

  // Listing and sending are one step, and a connector connects again only after its old stream is removed.
  predicate Orderly(w: World, a: Action) {
    !a.List? && !a.SendList?
    && (a.Connect? ==> forall c :: c in w.streams ==> w.streams[c].key != a.key)
  }

  predicate OrderlyRun(w: World, run: seq<Action>)
    requires ValidRun(w, run)
    decreases |run|
  {
    run != [] ==> Orderly(w, run[0]) && OrderlyRun(Step(w, run[0]), run[1..])
  }

  // Every stream is the one its connector's key leads to.
  ghost predicate OneStreamEach(w: World) {
    forall c :: c in w.streams ==> w.streams[c].key in w.clients && w.clients[w.streams[c].key] == c
  }

  lemma OrderlyStep(w: World, a: Action, c: nat)
    requires OneStreamEach(w) && Enabled(w, a) && Orderly(w, a)
    ensures OneStreamEach(Step(w, a)) && Guarded(w, a, c)
  {
    if IsLive(w, c) {
      assert w.clients[w.streams[c].key] in w.clients.Values;
    }
  }

  lemma {:induction false} OrderlyGuarded(w: World, run: seq<Action>, c: nat)
    requires OneStreamEach(w) && ValidRun(w, run) && OrderlyRun(w, run)
    ensures AllGuarded(w, run, c)
    decreases |run|
  {
    if run != [] {
      OrderlyStep(w, run[0], c);
      OrderlyGuarded(Step(w, run[0]), run[1..], c);
    }
  }

  // Without a gap in the whole run, a connector past its initial list ends, once no broadcast is on its way to
  // it, with every identity in the registry; and an orderly run leaves none.
  lemma Replicated(run: seq<Action>, c: nat)
    requires ValidRun(INITIAL, run) && (OrderlyRun(INITIAL, run) || AllGuarded(INITIAL, run, c))
    requires var w := After(INITIAL, run); IsLive(w, c) && forall x :: !Pending(w, c, x)
    ensures var w := After(INITIAL, run); Ids(w.items) <= Outcome(w, c)
    ensures var w := After(INITIAL, run); w.streams[c].queue == [] ==> Ids(w.items) <= w.streams[c].allowed
  {
    if OrderlyRun(INITIAL, run) {
      OrderlyGuarded(INITIAL, run, c);
    }
    CoveredIffGuarded(run, c);
    CoveredAtEnd(INITIAL, run, c);
  }

  // --- What goes wrong otherwise ---

  lemma RunStep(w: World, a: Action, rest: seq<Action>)
    requires Enabled(w, a) && ValidRun(Step(w, a), rest)
    ensures ValidRun(w, [a] + rest) && After(w, [a] + rest) == After(Step(w, a), rest)
  {
    assert ([a] + rest)[1..] == rest;
  }

  // A live client of the controller that no broadcast is under way to, without a registered identity.
  ghost predicate Lost(w: World, c: nat, x: string) {
    && IsLive(w, c)
    && x in Ids(w.items) && x !in Outcome(w, c) && !Pending(w, c, x)
  }

  // An agent registered and announced between the listing and the sending of the list: the list that
  // arrives after the announcement erases it.
  lemma LateListLoses(w: World, c: nat, n: nat, id: string, x: string) returns (run: seq<Action>)
    requires c in w.streams && w.streams[c].phase.Joined? && c in w.clients.Values
    requires n !in w.notes && x != "" && x !in Ids(w.items)
    requires forall i :: 0 <= i < |w.items| ==> w.items[i].id != id
    requires forall m :: m in w.notes ==> w.notes[m].spiffe != x
    ensures ValidRun(w, run) && Lost(After(w, run), c, x)
  {
    var w1 := Step(w, List(c));
    var w2 := Step(w1, Register(n, id, x));
    var w3 := Step(w2, Capture(n));
    var w4 := Step(w3, SendAllow(n, c));
    var w5 := Step(w4, SendList(c));
    assert w5.items[|w.items|].spiffe == x;
    FoldLast(w4.streams[c].queue, AllowList(w.items), w4.streams[c].allowed);
    assert Lost(w5, c, x);
    RunStep(w4, SendList(c), []);
    RunStep(w3, SendAllow(n, c), [SendList(c)] + []);
    RunStep(w2, Capture(n), [SendAllow(n, c)] + ([SendList(c)] + []));
    RunStep(w1, Register(n, id, x), [Capture(n)] + ([SendAllow(n, c)] + ([SendList(c)] + [])));
    RunStep(w, List(c), [Register(n, id, x)] + ([Capture(n)] + ([SendAllow(n, c)] + ([SendList(c)] + []))));
    run := [List(c)] + ([Register(n, id, x)] + ([Capture(n)] + ([SendAllow(n, c)] + ([SendList(c)] + []))));
  }

  // A connector that reconnects before its old stream is removed: the removal takes the new stream off
  // the clients, and agents registered from then on are not announced to it.
  lemma OldStreamLoses(w: World, stale: nat, c: nat, n: nat, id: string, x: string) returns (run: seq<Action>)
    requires stale in w.streams && IsLive(w, c) && stale != c && w.streams[stale].key == w.streams[c].key
    requires forall k :: k in w.clients && w.clients[k] == c ==> k == w.streams[c].key
    requires n !in w.notes && x != "" && x !in Outcome(w, c)
    requires forall i :: 0 <= i < |w.items| ==> w.items[i].id != id
    requires forall m :: m in w.notes ==> w.notes[m].spiffe != x
    ensures ValidRun(w, run) && Lost(After(w, run), c, x)
  {
    var w1 := Step(w, Disconnect(stale));
    var w2 := Step(w1, Register(n, id, x));
    var w3 := Step(w2, Capture(n));
    assert c !in w2.clients.Values;
    assert w3.items[|w.items|].spiffe == x;
    assert Lost(w3, c, x);
    RunStep(w2, Capture(n), []);
    RunStep(w1, Register(n, id, x), [Capture(n)] + []);
    RunStep(w, Disconnect(stale), [Register(n, id, x)] + ([Capture(n)] + []));
    run := [Disconnect(stale)] + ([Register(n, id, x)] + ([Capture(n)] + []));
  }

  // Both happen from the start.
  lemma RunsThatLose() returns (late: seq<Action>, overlap: seq<Action>)
    ensures ValidRun(INITIAL, late) && Lost(After(INITIAL, late), 0, "x")
    ensures ValidRun(INITIAL, overlap) && Lost(After(INITIAL, overlap), 1, "x")
  {
    var w1 := Step(INITIAL, Connect(0, "k", {}));
    assert w1.clients["k"] == 0;
    late := LateListLoses(w1, 0, 2, "a", "x");
    RunStep(INITIAL, Connect(0, "k", {}), late);
    late := [Connect(0, "k", {})] + late;

    var w2 := Step(w1, Greet(0));
    var w3 := Step(w2, Connect(1, "k", {}));
    var w4 := Step(w3, Greet(1));
    FoldLast([], AllowList([]), {});
    overlap := OldStreamLoses(w4, 0, 1, 2, "a", "x");
    RunStep(w3, Greet(1), overlap);
    RunStep(w2, Connect(1, "k", {}), [Greet(1)] + overlap);
    RunStep(w1, Greet(0), [Connect(1, "k", {})] + ([Greet(1)] + overlap));
    RunStep(INITIAL, Connect(0, "k", {}), [Greet(0)] + ([Connect(1, "k", {})] + ([Greet(1)] + overlap)));
    overlap := [Connect(0, "k", {})] + ([Greet(0)] + ([Connect(1, "k", {})] + ([Greet(1)] + overlap)));
  }
}
