// Rotation, revocation and expiry over every run of session requests.
module SessionTheorems {
  import opened Wrappers
  import opened Sessions

  ghost predicate Reachable(hash: Hash, run: seq<Action>) {
    Hashes(hash) && ValidRun(hash, INITIAL, run)
  }

  lemma ReachableInv(hash: Hash, run: seq<Action>)
    requires Reachable(hash, run)
    ensures Inv(hash, After(hash, INITIAL, run))
  {
    RunKeeps(hash, INITIAL, run);
  }

  // A refresh token is accepted exactly when it is the newest of a device session that is stored, not
  // revoked and not expired, whatever requests came before or overlap.
  lemma OnlyNewestAccepted(hash: Hash, run: seq<Action>, token: string)
    requires Reachable(hash, run)
    ensures var w := After(hash, INITIAL, run);
      ReadSucceeds(hash, w, token) <==>
        exists id :: id in w.rows && !w.rows[id].revoked && w.now <= w.rows[id].expiresAt
                     && w.rows[id].kind.DeviceSession? && id in w.newest && w.newest[id] == token
  {
    ReachableInv(hash, run);
    var w := After(hash, INITIAL, run);
    var r := Find(w.rows, hash(token));
    if r.Some? {
      FindNewest(hash, w, token);
    }
    forall id | id in w.rows && w.rows[id].kind.DeviceSession? && id in w.newest && w.newest[id] == token
      ensures r == Some(id) && token != ""
    {
      assert RowOk(hash, w, id, w.rows[id]) && NewestOk(w, id);
    }
  }

  // No refresh or revoke request reaches an admin session.
  lemma AdminUnreachable(hash: Hash, run: seq<Action>, token: string)
    requires Reachable(hash, run)
    ensures var w := After(hash, INITIAL, run);
      var r := Find(w.rows, hash(token));
      r.Some? ==> w.rows[r.value].kind.DeviceSession?
  {
    ReachableInv(hash, run);
    var w := After(hash, INITIAL, run);
    if Find(w.rows, hash(token)).Some? {
      FindNewest(hash, w, token);
    }
  }

  // --- Revocation and expiry ---

  // The same session later: a revocation stands.
  predicate SameSession(a: Session, b: Session) {
    a.user == b.user && a.ws == b.ws && a.expiresAt == b.expiresAt && a.kind == b.kind && (a.revoked ==> b.revoked)
  }

  predicate Kept(w: World, v: World, id: string) {
    && w.now <= v.now
    && id in w.limit && id in v.limit && v.limit[id] == w.limit[id]
    && (id in v.rows ==> id in w.rows && SameSession(w.rows[id], v.rows[id]))
  }

  lemma StepStable(hash: Hash, w: World, a: Action, id: string)
    requires Inv(hash, w) && Enabled(w, a) && id in w.limit
    ensures Kept(w, Step(hash, w, a), id)
  {
    assert forall h :: h in w.readers ==> ReaderOk(w, w.readers[h]);
  }

  // While a session is stored its expiry and kind never change and a revocation stands.
  lemma {:induction false} Stable(hash: Hash, w: World, run: seq<Action>, id: string)
    requires Hashes(hash) && Inv(hash, w) && ValidRun(hash, w, run) && id in w.limit
    ensures Kept(w, After(hash, w, run), id)
    decreases |run|
  {
    if run != [] {
      StepStable(hash, w, run[0], id);
      StepKeeps(hash, w, run[0]);
      Stable(hash, Step(hash, w, run[0]), run[1..], id);
    }
  }

  // A session that is revoked or expired is never usable again.
  lemma NeverUsableAgain(hash: Hash, before: seq<Action>, run: seq<Action>, id: string)
    requires Reachable(hash, before) && ValidRun(hash, After(hash, INITIAL, before), run)
    requires var w := After(hash, INITIAL, before); id in w.rows && !Usable(w.rows[id], w.now)
    ensures var v := After(hash, After(hash, INITIAL, before), run); id in v.rows ==> !Usable(v.rows[id], v.now)
  {
    ReachableInv(hash, before);
    var w := After(hash, INITIAL, before);
    assert RowOk(hash, w, id, w.rows[id]);
    Stable(hash, w, run, id);
  }

  // What a sign-in stores: a device session for thirty days, an admin session for one, and no other row.
  lemma SignInStores(hash: Hash, w: World, a: Action)
    requires Enabled(w, a)
    ensures var v := Step(hash, w, a);
      && (a.Grant? && a.stored ==>
            a.id in v.rows && v.rows == w.rows[a.id := v.rows[a.id]] && v.rows[a.id]
              == Session(a.user, a.ws, DeviceSession, hash(a.token), w.now + 30 * 24 * 3600, false))
      && (a.Login? ==>
            a.id in v.rows && v.rows == w.rows[a.id := v.rows[a.id]] && v.rows[a.id]
              == Session(a.user, a.ws, AdminSession, "", w.now + 24 * 3600, false))
      && (a.Grant? && !a.stored ==> v.rows == w.rows)
  {
  }

  // --- A revocation happens ---

  // The stored sessions that a request revokes: by id, by user, or by the newest token of the session.
  ghost predicate Names(w: World, a: Action, id: string) {
    id in w.rows
    && match a
       case Revoke(x) => x == id
       case RevokeUser(user) => w.rows[id].user == user
       case RevokeToken(token) => id in w.newest && w.newest[id] == token && w.rows[id].kind.DeviceSession?
       case _ => false
  }

  predicate Revokes(a: Action) {
    a.Revoke? || a.RevokeUser? || a.RevokeToken?
  }

  // It revokes exactly those, and leaves everything else as it was.
  lemma RevocationHappens(hash: Hash, run: seq<Action>, a: Action, id: string)
    requires Reachable(hash, run) && Revokes(a) && id in After(hash, INITIAL, run).rows
    ensures var w := After(hash, INITIAL, run);
      var v := Step(hash, w, a);
      && v == w.(rows := v.rows) && v.rows.Keys == w.rows.Keys
      && v.rows[id] == w.rows[id].(revoked := w.rows[id].revoked || Names(w, a, id))
  {
    ReachableInv(hash, run);
    var w := After(hash, INITIAL, run);
    assert RowOk(hash, w, id, w.rows[id]);
    if a.RevokeToken? {
      var r := Find(w.rows, hash(a.token));
      if r.Some? {
        FindNewest(hash, w, a.token);
      }
      if Names(w, a, id) {
        assert NewestOk(w, id);
      }
    }
  }

  // From then on no token of that session is accepted, whatever is requested.
  lemma NoTokenAfterRevocation(hash: Hash, run: seq<Action>, a: Action, id: string, rest: seq<Action>, token: string)
    requires Reachable(hash, run) && Revokes(a) && Names(After(hash, INITIAL, run), a, id)
    requires ValidRun(hash, Step(hash, After(hash, INITIAL, run), a), rest)
    requires var v := After(hash, Step(hash, After(hash, INITIAL, run), a), rest);
      token in v.owner && v.owner[token] == id
    ensures !ReadSucceeds(hash, After(hash, Step(hash, After(hash, INITIAL, run), a), rest), token)
  {
    var w := After(hash, INITIAL, run);
    var w1 := Step(hash, w, a);
    var v := After(hash, w1, rest);
    ReachableInv(hash, run);
    RevocationHappens(hash, run, a, id);
    assert RowOk(hash, w, id, w.rows[id]);
    StepKeeps(hash, w, a);
    RunKeeps(hash, w1, rest);
    Stable(hash, w1, rest, id);
    if Find(v.rows, hash(token)).Some? {
      FindNewest(hash, v, token);
    }
  }

  // Every access token lives for a quarter of an hour from some moment after its session was checked, when
  // the session had not expired; and the session still has that expiry.
  lemma AccessChecked(hash: Hash, run: seq<Action>, i: nat)
    requires Reachable(hash, run) && i < |After(hash, INITIAL, run).access|
    ensures var w := After(hash, INITIAL, run);
      var a := w.access[i];
      && a.id in w.limit && a.checkedAt <= w.limit[a.id]
      && a.checkedAt + 15 * 60 <= a.exp <= w.now + 15 * 60
      && (a.id in w.rows ==> w.rows[a.id].expiresAt == w.limit[a.id])
  {
    ReachableInv(hash, run);
    var w := After(hash, INITIAL, run);
    var a := w.access[i];
    assert AccessOk(w, a);
    if a.id in w.rows {
      assert RowOk(hash, w, a.id, w.rows[a.id]);
    }
  }

  // Cleaning deletes exactly the sessions that are expired.
  lemma CleaningDeletes(hash: Hash, w: World, id: string)
    ensures var v := Step(hash, w, Clean);
      && v == w.(rows := v.rows)
      && (id in v.rows <==> id in w.rows && w.now <= w.rows[id].expiresAt)
      && (id in v.rows ==> v.rows[id] == w.rows[id])
  {
  }

  // --- How long access tokens live ---

  // The access token outlives its session by at most a quarter of an hour.
  predicate Within(w: World, a: Access) {
    a.id in w.limit && a.exp <= w.limit[a.id] + 15 * 60
  }

  ghost predicate AllWithin(w: World) {
    forall i :: 0 <= i < |w.access| ==> Within(w, w.access[i])
  }

  // A rotation that comes no later than its session's expiry.
  predicate Timely(w: World, a: Action)
    requires Enabled(w, a)
  {
    a.Rotate? ==>
      var id := w.readers[a.h].id;
      id in w.limit && w.now <= w.limit[id]
  }

  ghost predicate AllTimely(hash: Hash, w: World, run: seq<Action>)
    requires ValidRun(hash, w, run)
    decreases |run|
  {
    run != [] ==> Timely(w, run[0]) && AllTimely(hash, Step(hash, w, run[0]), run[1..])
  }

  ghost predicate Extends(w: World, v: World) {
    w.access <= v.access && forall id :: id in w.limit ==> id in v.limit && v.limit[id] == w.limit[id]
  }

  lemma StepExtends(hash: Hash, w: World, a: Action)
    requires Enabled(w, a)
    ensures Extends(w, Step(hash, w, a))
  {
  }

  lemma {:induction false} RunExtends(hash: Hash, w: World, run: seq<Action>)
    requires ValidRun(hash, w, run)
    ensures Extends(w, After(hash, w, run))
    decreases |run|
  {
    if run != [] {
      StepExtends(hash, w, run[0]);
      RunExtends(hash, Step(hash, w, run[0]), run[1..]);
    }
  }

  lemma StepWithin(hash: Hash, w: World, a: Action)
    requires Inv(hash, w) && Enabled(w, a) && AllWithin(w)
    ensures AllWithin(Step(hash, w, a)) <==> Timely(w, a)
  {
    var v := Step(hash, w, a);
    StepExtends(hash, w, a);
    if a.Rotate? {
      assert ReaderOk(w, w.readers[a.h]);
      assert v.access[|w.access|].id == w.readers[a.h].id;
      assert Timely(w, a) <==> Within(v, v.access[|w.access|]);
    }
  }

  lemma {:induction false} AccessBoundFrom(hash: Hash, w: World, run: seq<Action>)
    requires Hashes(hash) && Inv(hash, w) && ValidRun(hash, w, run) && AllWithin(w)
    ensures AllWithin(After(hash, w, run)) <==> AllTimely(hash, w, run)
    decreases |run|
  {
    if run != [] {
      var v := Step(hash, w, run[0]);
      StepKeeps(hash, w, run[0]);
      StepWithin(hash, w, run[0]);
      if Timely(w, run[0]) {
        AccessBoundFrom(hash, v, run[1..]);
      } else {
        AccessHasLimit(hash, v);
        RunExtends(hash, v, run[1..]);
        var i :| 0 <= i < |v.access| && !Within(v, v.access[i]);
        assert After(hash, v, run[1..]).access[i] == v.access[i];
      }
    }
  }

  lemma AccessHasLimit(hash: Hash, w: World)
    requires Inv(hash, w)
    ensures forall i :: 0 <= i < |w.access| ==> w.access[i].id in w.limit
  {
    assert forall i :: 0 <= i < |w.access| ==> AccessOk(w, w.access[i]);
  }

  // In every run no device access token outlives its session by more than a quarter of an hour exactly when
  // no rotation comes later than its session's expiry.
  lemma AccessBound(hash: Hash, run: seq<Action>)
    requires Reachable(hash, run)
    ensures AllWithin(After(hash, INITIAL, run)) <==> AllTimely(hash, INITIAL, run)
  {
    AccessBoundFrom(hash, INITIAL, run);
  }

  // A request that reads its session in time and rotates after the expiry exceeds the bound.
  lemma SlowRefreshExceeds(hash: Hash) returns (run: seq<Action>)
    requires Hashes(hash)
    ensures Reachable(hash, run) && !AllWithin(After(hash, INITIAL, run))
  {
    var grant := Grant("s", "u", "w", "t", true);
    var wait := Tick(DEVICE_SESSION + 1);
    var w1 := Step(hash, INITIAL, grant);
    assert "s" in w1.rows && Find(w1.rows, hash("t")) == Some("s");
    var w2 := Step(hash, w1, Read(0, "t"));
    var w3 := Step(hash, w2, wait);
    var w4 := Step(hash, w3, Rotate(0, "x"));
    assert !Within(w4, w4.access[1]);
    RunStep(hash, w3, Rotate(0, "x"), []);
    RunStep(hash, w2, wait, [Rotate(0, "x")] + []);
    RunStep(hash, w1, Read(0, "t"), [wait] + ([Rotate(0, "x")] + []));
    RunStep(hash, INITIAL, grant, [Read(0, "t")] + ([wait] + ([Rotate(0, "x")] + [])));
    run := [grant] + ([Read(0, "t")] + ([wait] + ([Rotate(0, "x")] + [])));
  }

  lemma RunStep(hash: Hash, w: World, a: Action, rest: seq<Action>)
    requires Enabled(w, a) && ValidRun(hash, Step(hash, w, a), rest)
    ensures ValidRun(hash, w, [a] + rest) && After(hash, w, [a] + rest) == After(hash, Step(hash, w, a), rest)
  {
    assert ([a] + rest)[1..] == rest;
  }

  // --- One redemption a token ---

  ghost predicate NoDuplicates(s: seq<string>) {
    forall i, j :: 0 <= i < j < |s| ==> s[i] != s[j]
  }

  // A rotation that still finds the token it was asked with to be the session's newest.
  predicate Undisturbed(w: World, a: Action)
    requires Enabled(w, a)
  {
    a.Rotate? ==>
      var r := w.readers[a.h];
      r.id in w.newest && w.newest[r.id] == r.token
  }

  ghost predicate AllUndisturbed(hash: Hash, w: World, run: seq<Action>)
    requires ValidRun(hash, w, run)
    decreases |run|
  {
    run != [] ==> Undisturbed(w, run[0]) && AllUndisturbed(hash, Step(hash, w, run[0]), run[1..])
  }

  // As the statement could check it: a stored row still has the hash of the token.
  lemma UndisturbedIsHashUnchanged(hash: Hash, before: seq<Action>, h: nat, next: string)
    requires Reachable(hash, before)
    requires var w := After(hash, INITIAL, before); Enabled(w, Rotate(h, next)) && w.readers[h].id in w.rows
    ensures var w := After(hash, INITIAL, before);
      Undisturbed(w, Rotate(h, next)) <==> w.rows[w.readers[h].id].hash == hash(w.readers[h].token)
  {
    ReachableInv(hash, before);
    var w := After(hash, INITIAL, before);
    var r := w.readers[h];
    assert ReaderOk(w, r) && RowOk(hash, w, r.id, w.rows[r.id]);
  }

  // As long as nothing was disturbed, the tokens that are no longer newest are those redeemed, once each.
  ghost predicate Rotated(w: World) {
    NoDuplicates(w.redeemed)
    && forall t :: t in w.owner && w.owner[t] in w.newest ==> (t in w.redeemed <==> w.newest[w.owner[t]] != t)
  }

  lemma RotationRedeems(hash: Hash, w: World, h: nat, next: string)
    requires Inv(hash, w) && Enabled(w, Rotate(h, next)) && Rotated(w) && Undisturbed(w, Rotate(h, next))
    ensures Rotated(DoRotate(hash, w, h, next))
  {
    var r := w.readers[h];
    assert ReaderOk(w, r) && NewestOk(w, r.id);
  }

  lemma OtherStepsRedeemNothing(hash: Hash, w: World, a: Action)
    requires Inv(hash, w) && Enabled(w, a) && Rotated(w) && !a.Rotate?
    ensures Rotated(Step(hash, w, a))
  {
    if a.Grant? {
      assert forall t :: t in w.owner ==> w.owner[t] in w.newest && NewestOk(w, w.owner[t]);
    }
  }

  // Redeemed tokens are never forgotten, so a duplicate stays one.
  lemma {:induction false} DuplicateStays(hash: Hash, w: World, run: seq<Action>)
    requires ValidRun(hash, w, run)
    ensures !NoDuplicates(w.redeemed) ==> !NoDuplicates(After(hash, w, run).redeemed)
    decreases |run|
  {
    if run != [] {
      var v := Step(hash, w, run[0]);
      assert w.redeemed <= v.redeemed;
      DuplicateStays(hash, v, run[1..]);
    }
  }

  lemma {:induction false} RedeemedOnceFrom(hash: Hash, w: World, run: seq<Action>)
    requires Hashes(hash) && Inv(hash, w) && ValidRun(hash, w, run) && Rotated(w)
    ensures NoDuplicates(After(hash, w, run).redeemed) <==> AllUndisturbed(hash, w, run)
    decreases |run|
  {
    if run != [] {
      var a := run[0];
      var v := Step(hash, w, a);
      StepKeeps(hash, w, a);
      if !a.Rotate? {
        OtherStepsRedeemNothing(hash, w, a);
        RedeemedOnceFrom(hash, v, run[1..]);
      } else if Undisturbed(w, a) {
        RotationRedeems(hash, w, a.h, a.next);
        RedeemedOnceFrom(hash, v, run[1..]);
      } else {
        var r := w.readers[a.h];
        assert ReaderOk(w, r) && r.token in w.redeemed;
        var i :| 0 <= i < |w.redeemed| && w.redeemed[i] == r.token;
        assert v.redeemed[i] == v.redeemed[|w.redeemed|];
        DuplicateStays(hash, v, run[1..]);
      }
    }
  }

  // Each refresh token succeeds at most once exactly when every rotation finds its token still newest.
  lemma RedeemedOnce(hash: Hash, run: seq<Action>)
    requires Reachable(hash, run)
    ensures NoDuplicates(After(hash, INITIAL, run).redeemed) <==> AllUndisturbed(hash, INITIAL, run)
  {
    RedeemedOnceFrom(hash, INITIAL, run);
  }

  // --- Serial runs ---

  // No request reads a session that another request is refreshing.
  ghost predicate OneReaderEach(hash: Hash, w: World, run: seq<Action>)
    requires ValidRun(hash, w, run)
    decreases |run|
  {
    run != [] ==>
      && (run[0].Read? && ReadSucceeds(hash, w, run[0].token) ==>
            forall h :: h in w.readers ==> w.readers[h].id != Find(w.rows, hash(run[0].token)).value)
      && OneReaderEach(hash, Step(hash, w, run[0]), run[1..])
  }

  ghost predicate ReadersCurrent(w: World) {
    && (forall h :: h in w.readers ==> w.readers[h].id in w.newest && w.newest[w.readers[h].id] == w.readers[h].token)
    && (forall g, h :: g in w.readers && h in w.readers && g != h ==> w.readers[g].id != w.readers[h].id)
  }

  lemma StepReadersCurrent(hash: Hash, w: World, a: Action)
    requires Hashes(hash) && Inv(hash, w) && Enabled(w, a) && ReadersCurrent(w)
    requires a.Read? && ReadSucceeds(hash, w, a.token) ==>
      forall h :: h in w.readers ==> w.readers[h].id != Find(w.rows, hash(a.token)).value
    ensures ReadersCurrent(Step(hash, w, a))
  {
    if a.Read? && ReadSucceeds(hash, w, a.token) {
      FindNewest(hash, w, a.token);
    }
    assert forall h :: h in w.readers ==> ReaderOk(w, w.readers[h]) && NewestOk(w, w.readers[h].id);
  }

  lemma {:induction false} SerialUndisturbed(hash: Hash, w: World, run: seq<Action>)
    requires Hashes(hash) && Inv(hash, w) && ValidRun(hash, w, run) && ReadersCurrent(w) && OneReaderEach(hash, w, run)
    ensures AllUndisturbed(hash, w, run)
    decreases |run|
  {
    if run != [] {
      StepKeeps(hash, w, run[0]);
      StepReadersCurrent(hash, w, run[0]);
      SerialUndisturbed(hash, Step(hash, w, run[0]), run[1..]);
    }
  }

  // When refreshes of one session do not overlap, each refresh token succeeds at most once.
  lemma SerialRedeemedOnce(hash: Hash, run: seq<Action>)
    requires Reachable(hash, run) && OneReaderEach(hash, INITIAL, run)
    ensures NoDuplicates(After(hash, INITIAL, run).redeemed)
  {
    SerialUndisturbed(hash, INITIAL, run);
    RedeemedOnce(hash, run);
  }

  lemma BothRotate(hash: Hash, w: World, id: string, token: string, x: string, y: string)
    requires w.readers == map[] && ReadSucceeds(hash, w, token) && Find(w.rows, hash(token)) == Some(id)
    requires x !in w.owner && y !in w.owner && x != y && x != "" && y != ""
    ensures var run := [Read(0, token), Read(1, token), Rotate(0, x), Rotate(1, y)];
      ValidRun(hash, w, run) && After(hash, w, run).redeemed == w.redeemed + [token, token]
  {
    var w1 := Step(hash, w, Read(0, token));
    var w2 := Step(hash, w1, Read(1, token));
    var w3 := Step(hash, w2, Rotate(0, x));
    RunStep(hash, w3, Rotate(1, y), []);
    RunStep(hash, w2, Rotate(0, x), [Rotate(1, y)] + []);
    RunStep(hash, w1, Read(1, token), [Rotate(0, x)] + ([Rotate(1, y)] + []));
    RunStep(hash, w, Read(0, token), [Read(1, token)] + ([Rotate(0, x)] + ([Rotate(1, y)] + [])));
    assert [Read(0, token)] + ([Read(1, token)] + ([Rotate(0, x)] + ([Rotate(1, y)] + [])))
        == [Read(0, token), Read(1, token), Rotate(0, x), Rotate(1, y)];
  }

  // When they do overlap, one token can be redeemed twice: both requests read before either rotates.
  lemma OverlapRedeemsTwice(hash: Hash)
    requires Hashes(hash)
    ensures var run := [Grant("s", "u", "w", "t", true), Read(0, "t"), Read(1, "t"), Rotate(0, "x"), Rotate(1, "y")];
      Reachable(hash, run) && After(hash, INITIAL, run).redeemed == ["t", "t"]
  {
    var w1 := Step(hash, INITIAL, Grant("s", "u", "w", "t", true));
    assert "s" in w1.rows && Find(w1.rows, hash("t")) == Some("s");
    BothRotate(hash, w1, "s", "t", "x", "y");
    RunStep(hash, INITIAL, Grant("s", "u", "w", "t", true),
            [Read(0, "t"), Read(1, "t"), Rotate(0, "x"), Rotate(1, "y")]);
    assert [Grant("s", "u", "w", "t", true)] + [Read(0, "t"), Read(1, "t"), Rotate(0, "x"), Rotate(1, "y")]
        == [Grant("s", "u", "w", "t", true), Read(0, "t"), Read(1, "t"), Rotate(0, "x"), Rotate(1, "y")];
  }
}
