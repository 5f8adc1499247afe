// What every run of the device sign-in guarantees about its grants.
module DeviceFlowTheorems {
  import opened Base64Url
  import opened OneTimeStores
  import opened DeviceFlow

  // The k-th step of a run is the authorize request that issued this state value.
  predicate Asks(run: seq<Action>, k: nat, s: string, ws: string, challenge: string) {
    k < |run| && run[k].Insert? && run[k].state == s && run[k].ws == ws && run[k].challenge == challenge
  }

  predicate NeverIssued(run: seq<Action>, s: string) {
    forall k :: 0 <= k < |run| && run[k].Insert? ==> run[k].state != s
  }

  predicate OnlyAsk(run: seq<Action>, k: nat, s: string) {
    forall j :: 0 <= j < |run| && j != k && run[j].Insert? ==> run[j].state != s
  }

  // A state value keeps its workspace and challenge, and is not issued again.
  lemma StepTrail(sha: Sha, w: World, a: Action, s: string)
    requires Inv(sha, w) && Enabled(w, a)
    ensures var u := Step(sha, w, a).trails;
      if s in w.trails then
        !(a.Insert? && a.state == s) && s in u && u[s].ws == w.trails[s].ws && u[s].challenge == w.trails[s].challenge
      else if a.Insert? && a.state == s then s in u && u[s].ws == a.ws && u[s].challenge == a.challenge
      else s !in u
  {
    StepKeeps(sha, w, a);
  }

  lemma {:induction false} IssuedBefore(sha: Sha, w: World, run: seq<Action>, s: string)
    requires Inv(sha, w) && ValidRun(sha, w, run) && s in w.trails
    ensures NeverIssued(run, s)
    ensures var u := After(sha, w, run).trails;
      s in u && u[s].ws == w.trails[s].ws && u[s].challenge == w.trails[s].challenge
    decreases |run|
  {
    if run != [] {
      StepTrail(sha, w, run[0], s);
      StepKeeps(sha, w, run[0]);
      IssuedBefore(sha, Step(sha, w, run[0]), run[1..], s);
      assert forall k :: 0 < k < |run| ==> run[k] == run[1..][k - 1];
    }
  }

  // Every state value with a trail was issued by exactly one request of the run.
  lemma {:induction false} IssuedOnce(sha: Sha, w: World, run: seq<Action>, s: string) returns (k: nat)
    requires Inv(sha, w) && ValidRun(sha, w, run) && s !in w.trails && s in After(sha, w, run).trails
    ensures var t := After(sha, w, run).trails[s]; Asks(run, k, s, t.ws, t.challenge)
    ensures OnlyAsk(run, k, s)
    decreases |run|
  {
    StepTrail(sha, w, run[0], s);
    StepKeeps(sha, w, run[0]);
    var v := Step(sha, w, run[0]);
    if s in v.trails {
      k := 0;
      IssuedBefore(sha, v, run[1..], s);
    } else {
      var j := IssuedOnce(sha, v, run[1..], s);
      k := j + 1;
      assert forall i :: 0 < i < |run| ==> run[i] == run[1..][i - 1];
    }
  }

  lemma InitialKeeps(sha: Sha, run: seq<Action>)
    requires ValidRun(sha, INITIAL, run)
    ensures Inv(sha, After(sha, INITIAL, run))
  {
    RunKeeps(sha, INITIAL, run);
  }

  // Every grant goes back to exactly one authorize request, of the same workspace and challenge, whose
  // challenge is not empty and is met by the verifier presented.
  lemma GrantTraced(sha: Sha, run: seq<Action>, i: nat) returns (k: nat)
    requires ValidRun(sha, INITIAL, run) && i < |After(sha, INITIAL, run).grants|
    ensures var g := After(sha, INITIAL, run).grants[i];
      && Asks(run, k, g.entry.state, g.entry.ws, g.entry.challenge)
      && OnlyAsk(run, k, g.entry.state)
      && g.entry.challenge != "" && Encode(UrlSafe, sha(g.verifier)) == g.entry.challenge
  {
    InitialKeeps(sha, run);
    var w := After(sha, INITIAL, run);
    assert GrantOk(sha, w.trails, i, w.grants[i], w.now);
    k := IssuedOnce(sha, INITIAL, run, w.grants[i].entry.state);
  }

  // No two grants share an authorize request.
  lemma GrantsDistinct(sha: Sha, run: seq<Action>, i: nat, j: nat)
    requires ValidRun(sha, INITIAL, run) && i < j < |After(sha, INITIAL, run).grants|
    ensures var g := After(sha, INITIAL, run).grants; g[i].entry.state != g[j].entry.state
  {
    InitialKeeps(sha, run);
    var w := After(sha, INITIAL, run);
    assert GrantOk(sha, w.trails, i, w.grants[i], w.now);
    assert GrantOk(sha, w.trails, j, w.grants[j], w.now);
  }

  // The code of a grant was taken at most 60 s after it was issued, and its state value at most ten
  // minutes after it was stored; the row was read less than ten minutes and a second after its insertion.
  lemma GrantTimes(sha: Sha, run: seq<Action>, i: nat)
    requires ValidRun(sha, INITIAL, run) && i < |After(sha, INITIAL, run).grants|
    ensures var w := After(sha, INITIAL, run); var g := w.grants[i];
      && g.entry.state in w.trails
      && var t := w.trails[g.entry.state];
      && t.inserted <= t.stored <= t.taken <= t.loaded <= t.issued <= g.takenAt
      && t.taken <= t.stored + 600 * SECOND && t.loaded < t.inserted + 601 * SECOND
      && g.takenAt <= t.issued + 60 * SECOND && g.entry.email == t.email
  {
    InitialKeeps(sha, run);
    var w := After(sha, INITIAL, run);
    assert GrantOk(sha, w.trails, i, w.grants[i], w.now);
  }

  // Every stored code carries a challenge, so the check at the token endpoint is never skipped.
  lemma CodesChallenged(sha: Sha, run: seq<Action>)
    requires ValidRun(sha, INITIAL, run)
    ensures forall c :: c in After(sha, INITIAL, run).codes ==> After(sha, INITIAL, run).codes[c].value.challenge != ""
  {
    InitialKeeps(sha, run);
    var w := After(sha, INITIAL, run);
    forall c | c in w.codes ensures w.codes[c].value.challenge != "" {
      assert CodeOk(w.trails, c, w.codes[c], w.now);
    }
  }

  // A client that asked with the hash of its own verifier is the only one its grant can go to.
  lemma GrantedToAsker(sha: Sha, run: seq<Action>, i: nat, k: nat, original: seq<Byte>)
    requires ValidRun(sha, INITIAL, run) && i < |After(sha, INITIAL, run).grants|
    requires var g := After(sha, INITIAL, run).grants[i]; k < |run| && run[k].Insert? && run[k].state == g.entry.state
    requires sha(original) != [] && run[k].challenge == Encode(UrlSafe, sha(original))
    ensures sha(After(sha, INITIAL, run).grants[i].verifier) == sha(original)
  {
    var g := After(sha, INITIAL, run).grants[i];
    var j := GrantTraced(sha, run, i);
    assert j == k;
    UrlSafeEncoding(sha(g.verifier), sha(original));
  }

  // --- Nothing else takes a live code or state value away ---

  // A step that neither exchanges the code nor restarts the process.
  predicate SparesCode(a: Action, code: string) {
    !a.Restart? && !(a.StartToken? && a.code == code)
  }

  lemma StepSparesCode(sha: Sha, w: World, a: Action, code: string)
    requires Enabled(w, a) && SparesCode(a, code) && Alive(w.codes, code, w.now)
    ensures w.now <= Step(sha, w, a).now
    ensures w.codes[code].expiresAt >= Step(sha, w, a).now ==>
      code in Step(sha, w, a).codes && Step(sha, w, a).codes[code] == w.codes[code]
  {
    if a.Issue? {
      var c := w.callbacks[a.h];
      var entry := Timed(CodeEntry(a.email, c.ws, c.state, c.challenge), w.now + CODE_LIFE);
      PrunedAlive(w.codes[a.code := entry], w.now, code, w.now);
    }
  }

  // Whatever other requests do, a code can be exchanged until its minute is over.
  lemma {:induction false} CodeStays(sha: Sha, w: World, run: seq<Action>, code: string)
    requires ValidRun(sha, w, run) && Alive(w.codes, code, w.now)
    requires forall i :: 0 <= i < |run| ==> SparesCode(run[i], code)
    ensures w.now <= After(sha, w, run).now
    ensures After(sha, w, run).now <= w.codes[code].expiresAt ==>
      code in After(sha, w, run).codes && After(sha, w, run).codes[code] == w.codes[code]
    decreases |run|
  {
    if run != [] {
      var v := Step(sha, w, run[0]);
      StepSparesCode(sha, w, run[0], code);
      assert forall i :: 0 <= i < |run| - 1 ==> run[1..][i] == run[i + 1];
      if v.now <= w.codes[code].expiresAt {
        CodeStays(sha, v, run[1..], code);
      } else {
        TimePasses(sha, v, run[1..]);
      }
    }
  }

  lemma StepTime(sha: Sha, w: World, a: Action)
    requires Enabled(w, a)
    ensures w.now <= Step(sha, w, a).now
  {
  }

  lemma {:induction false} TimePasses(sha: Sha, w: World, run: seq<Action>)
    requires ValidRun(sha, w, run)
    ensures w.now <= After(sha, w, run).now
    decreases |run|
  {
    if run != [] {
      StepTime(sha, w, run[0]);
      TimePasses(sha, Step(sha, w, run[0]), run[1..]);
    }
  }

  // A step that neither takes the state value, in this flow or another, nor restarts the process.
  predicate SparesState(a: Action, s: string) {
    !a.Restart? && !(a.StartCallback? && a.state == s) && !(a.TakeOther? && a.state == s)
  }

  lemma StepSparesState(sha: Sha, w: World, a: Action, s: string)
    requires Inv(sha, w) && Enabled(w, a) && SparesState(a, s) && IsDevice(s) && Alive(w.states, s, w.now)
    ensures w.states[s].expiresAt >= Step(sha, w, a).now ==>
      s in Step(sha, w, a).states && Step(sha, w, a).states[s] == w.states[s]
  {
    if a.StoreState? || a.StoreOther? {
      assert StateOk(w.trails, s, w.states[s], w.now) && (a.StoreState? ==> PendingOk(w.trails, a.state, w.now));
      PrunedAlive(w.states[a.state := Timed(a.state, w.now + STATE_LIFE)], w.now, s, w.now);
    }
  }

  // And a sign-in can be continued until its ten minutes are over.
  lemma {:induction false} StateStays(sha: Sha, w: World, run: seq<Action>, s: string)
    requires Inv(sha, w) && ValidRun(sha, w, run) && IsDevice(s) && Alive(w.states, s, w.now)
    requires forall i :: 0 <= i < |run| ==> SparesState(run[i], s)
    ensures After(sha, w, run).now <= w.states[s].expiresAt ==>
      s in After(sha, w, run).states && After(sha, w, run).states[s] == w.states[s]
    decreases |run|
  {
    if run != [] {
      var v := Step(sha, w, run[0]);
      StepKeeps(sha, w, run[0]);
      StepSparesState(sha, w, run[0], s);
      assert forall i :: 0 <= i < |run| - 1 ==> run[1..][i] == run[i + 1];
      if v.now <= w.states[s].expiresAt {
        StateStays(sha, v, run[1..], s);
      } else {
        TimePasses(sha, v, run[1..]);
      }
    }
  }

  // A state value or code that was taken is gone, whoever took it.
  lemma TakenIsGone(sha: Sha, w: World, a: Action)
    requires Enabled(w, a)
    ensures a.StartCallback? || a.TakeOther? ==> !Alive(Step(sha, w, a).states, a.state, w.now)
    ensures a.StartToken? ==> a.code !in Step(sha, w, a).codes
  {
  }

  // --- What comes to nothing stays so ---

  predicate NoCallback(m: map<nat, Callback>, s: string) {
    forall h :: h in m ==> m[h].state != s
  }

  predicate NoCode(m: map<string, Timed<CodeEntry>>, s: string) {
    forall c :: c in m ==> m[c].value.state != s
  }

  predicate NoToken(m: map<nat, Exchange>, s: string) {
    forall t :: t in m ==> m[t].entry.state != s
  }

  predicate NoGrant(m: seq<Exchange>, s: string) {
    forall i :: 0 <= i < |m| ==> m[i].entry.state != s
  }

  // A state value that was issued, was not granted and is nowhere any more.
  predicate Lost(w: World, s: string) {
    && s in w.trails && s !in w.pending && !(IsDevice(s) && s in w.states)
    && NoCallback(w.callbacks, s) && NoCode(w.codes, s) && NoToken(w.tokens, s) && NoGrant(w.grants, s)
  }

  lemma StepLostTrail(sha: Sha, w: World, a: Action, s: string)
    requires Enabled(w, a) && s in w.trails && s !in w.pending
    ensures var v := Step(sha, w, a);
      s in v.trails && s !in v.pending
  {
  }

  lemma StepLostStates(sha: Sha, w: World, a: Action, s: string)
    requires Enabled(w, a) && IsDevice(s) && s !in w.pending && s !in w.states
    ensures s !in Step(sha, w, a).states
  {
  }

  lemma StepLostCodes(sha: Sha, w: World, a: Action, s: string)
    requires Enabled(w, a) && NoCallback(w.callbacks, s) && NoCode(w.codes, s)
    ensures NoCode(Step(sha, w, a).codes, s)
  {
  }

  lemma StepLostCallbacks(sha: Sha, w: World, a: Action, s: string)
    requires Enabled(w, a) && NoCallback(w.callbacks, s) && (IsDevice(s) ==> s !in w.states)
    ensures NoCallback(Step(sha, w, a).callbacks, s)
  {
    if a.Load? {
      assert w.callbacks[a.h].state != s;
    } else if a.Issue? {
      assert DoIssued(w, a.h, w.callbacks[a.h], a.code, a.email).callbacks == w.callbacks - {a.h};
    }
  }

  lemma StepLostTokens(sha: Sha, w: World, a: Action, s: string)
    requires Enabled(w, a) && NoToken(w.tokens, s) && NoCode(w.codes, s)
    ensures NoToken(Step(sha, w, a).tokens, s)
  {
  }

  lemma StepLostGrants(sha: Sha, w: World, a: Action, s: string)
    requires Enabled(w, a) && NoToken(w.tokens, s) && NoGrant(w.grants, s)
    ensures NoGrant(Step(sha, w, a).grants, s)
  {
  }

  lemma {:induction false} LostStays(sha: Sha, w: World, run: seq<Action>, s: string)
    requires ValidRun(sha, w, run) && Lost(w, s)
    ensures NoGrant(After(sha, w, run).grants, s)
    decreases |run|
  {
    if run != [] {
      StepLostTrail(sha, w, run[0], s);
      if IsDevice(s) {
        StepLostStates(sha, w, run[0], s);
      }
      StepLostCodes(sha, w, run[0], s);
      StepLostCallbacks(sha, w, run[0], s);
      StepLostTokens(sha, w, run[0], s);
      StepLostGrants(sha, w, run[0], s);
      LostStays(sha, Step(sha, w, run[0]), run[1..], s);
    }
  }

  // A code spent on a wrong verifier is spent: no continuation grants that sign-in.
  lemma WrongVerifierBurns(sha: Sha, before: seq<Action>, t: nat, rest: seq<Action>)
    requires ValidRun(sha, INITIAL, before) && t in After(sha, INITIAL, before).tokens
    requires var x := After(sha, INITIAL, before).tokens[t]; Encode(UrlSafe, sha(x.verifier)) != x.entry.challenge
    requires ValidRun(sha, Step(sha, After(sha, INITIAL, before), Verify(t)), rest)
    ensures var w := After(sha, INITIAL, before);
      NoGrant(After(sha, Step(sha, w, Verify(t)), rest).grants, w.tokens[t].entry.state)
  {
    InitialKeeps(sha, before);
    var w := After(sha, INITIAL, before);
    OnlyAtToken(sha, w, t);
    LostStays(sha, Step(sha, w, Verify(t)), rest, w.tokens[t].entry.state);
  }

  // While a sign-in is at a token request it is nowhere else.
  lemma OnlyAtToken(sha: Sha, w: World, t: nat)
    requires Inv(sha, w) && t in w.tokens
    ensures Lost(w.(tokens := w.tokens - {t}), w.tokens[t].entry.state)
  {
    assert ExchangeOk(w.trails, AtToken(t), w.tokens[t], w.now);
  }

  // A callback that fails after taking its state value ends the sign-in.
  lemma FailedCallbackEnds(sha: Sha, before: seq<Action>, h: nat, rest: seq<Action>)
    requires ValidRun(sha, INITIAL, before) && h in After(sha, INITIAL, before).callbacks
    requires ValidRun(sha, Step(sha, After(sha, INITIAL, before), DropCallback(h)), rest)
    ensures var w := After(sha, INITIAL, before);
      NoGrant(After(sha, Step(sha, w, DropCallback(h)), rest).grants, w.callbacks[h].state)
  {
    InitialKeeps(sha, before);
    var w := After(sha, INITIAL, before);
    OnlyAtCallback(sha, w, h);
    LostStays(sha, Step(sha, w, DropCallback(h)), rest, w.callbacks[h].state);
  }

  lemma OnlyAtCallback(sha: Sha, w: World, h: nat)
    requires Inv(sha, w) && h in w.callbacks
    ensures Lost(w.(callbacks := w.callbacks - {h}), w.callbacks[h].state)
  {
    assert CallbackOk(w.trails, h, w.callbacks[h], w.now);
  }

  // A restart ends every sign-in under way: none that had not been granted is granted after it.
  lemma RestartForgets(sha: Sha, before: seq<Action>, rest: seq<Action>, s: string)
    requires ValidRun(sha, INITIAL, before) && s in After(sha, INITIAL, before).trails
    requires NoGrant(After(sha, INITIAL, before).grants, s)
    requires ValidRun(sha, Step(sha, After(sha, INITIAL, before), Restart), rest)
    ensures NoGrant(After(sha, Step(sha, After(sha, INITIAL, before), Restart), rest).grants, s)
  {
    LostStays(sha, Step(sha, After(sha, INITIAL, before), Restart), rest, s);
  }

  lemma StepRow(sha: Sha, w: World, a: Action, s: string)
    requires Enabled(w, a) && s in w.trails && s !in w.rows
    ensures s !in Step(sha, w, a).rows
  {
  }

  // A row that a callback read and deleted does not come back.
  lemma {:induction false} RowStaysDeleted(sha: Sha, w: World, run: seq<Action>, s: string)
    requires Inv(sha, w) && ValidRun(sha, w, run) && s in w.trails && s !in w.rows
    ensures s !in After(sha, w, run).rows
    decreases |run|
  {
    if run != [] {
      StepTrail(sha, w, run[0], s);
      StepKeeps(sha, w, run[0]);
      StepRow(sha, w, run[0], s);
      RowStaysDeleted(sha, Step(sha, w, run[0]), run[1..], s);
    }
  }

  lemma ReadOnce(sha: Sha, before: seq<Action>, h: nat, rest: seq<Action>)
    requires ValidRun(sha, INITIAL, before) && Enabled(After(sha, INITIAL, before), Load(h, true))
    requires ValidRun(sha, Step(sha, After(sha, INITIAL, before), Load(h, true)), rest)
    requires h in Step(sha, After(sha, INITIAL, before), Load(h, true)).callbacks
    ensures var w := After(sha, INITIAL, before);
      w.callbacks[h].state in w.rows && w.callbacks[h].state !in After(sha, Step(sha, w, Load(h, true)), rest).rows
  {
    InitialKeeps(sha, before);
    var w := After(sha, INITIAL, before);
    assert CallbackOk(w.trails, h, w.callbacks[h], w.now);
    StepKeeps(sha, w, Load(h, true));
    RowStaysDeleted(sha, Step(sha, w, Load(h, true)), rest, w.callbacks[h].state);
  }

  lemma RunStep(sha: Sha, w: World, a: Action, rest: seq<Action>)
    requires Enabled(w, a) && ValidRun(sha, Step(sha, w, a), rest)
    ensures ValidRun(sha, w, [a] + rest) && After(sha, w, [a] + rest) == After(sha, Step(sha, w, a), rest)
  {
    assert ([a] + rest)[1..] == rest;
  }

  // A callback that nothing disturbs, on a live state value with a row in time, yields a code.
  lemma CallbackYieldsCode(sha: Sha, w: World, s: string, h: nat, code: string, email: string)
      returns (run: seq<Action>)
    requires Alive(w.states, s, w.now) && s in w.rows && w.now / SECOND <= w.rows[s].expiresAt && IsDevice(s)
    requires h !in w.callbacks && code !in w.codes && email != ""
    ensures ValidRun(sha, w, run)
    ensures var v := After(sha, w, run);
      && v.now == w.now && v.tokens == w.tokens && v.grants == w.grants && code in v.codes
      && v.codes[code] == Timed(CodeEntry(email, w.rows[s].ws, s, w.rows[s].challenge), w.now + CODE_LIFE)
  {
    var w4 := Step(sha, w, StartCallback(h, s));
    var w5 := Step(sha, w4, Load(h, true));
    RunStep(sha, w5, Issue(h, code, email), []);
    RunStep(sha, w4, Load(h, true), [Issue(h, code, email)] + []);
    RunStep(sha, w, StartCallback(h, s), [Load(h, true)] + ([Issue(h, code, email)] + []));
    run := [StartCallback(h, s)] + ([Load(h, true)] + ([Issue(h, code, email)] + []));
  }

  // The first half of a sign-in that nothing disturbs: consent within ten minutes yields a code.
  lemma ConsentYieldsCode(sha: Sha, w: World, s: string, ws: string, challenge: string,
                          d: nat, h: nat, code: string, email: string)
      returns (run: seq<Action>)
    requires s !in w.trails && s !in w.rows && IsDevice(s) && challenge != ""
    requires h !in w.callbacks && code !in w.codes && email != "" && d <= 600 * SECOND
    ensures ValidRun(sha, w, run) && run != [] && run[0] == Insert(s, ws, challenge, "S256")
    ensures var v := After(sha, w, run);
      && v.now == w.now + d && v.tokens == w.tokens && v.grants == w.grants && code in v.codes
      && v.codes[code] == Timed(CodeEntry(email, ws, s, challenge), v.now + 60 * SECOND)
  {
    var ask := Insert(s, ws, challenge, "S256");
    var w1 := Step(sha, w, ask);
    var w2 := Step(sha, w1, StoreState(s));
    var w3 := Step(sha, w2, Tick(d));
    var rest := CallbackYieldsCode(sha, w3, s, h, code, email);
    RunStep(sha, w2, Tick(d), rest);
    RunStep(sha, w1, StoreState(s), [Tick(d)] + rest);
    RunStep(sha, w, ask, [StoreState(s)] + ([Tick(d)] + rest));
    run := [ask] + ([StoreState(s)] + ([Tick(d)] + rest));
  }

  // The second half: a code is exchanged for a grant exactly within its minute and with a verifier of
  // the hash the client asked with.
  lemma CodeGrants(sha: Sha, w: World, code: string, d: nat, t: nat, original: seq<Byte>, verifier: seq<Byte>)
    requires code in w.codes && code != "" && t !in w.tokens && verifier != [] && sha(original) != []
    requires w.codes[code].expiresAt == w.now + 60 * SECOND
    requires w.codes[code].value.challenge == Encode(UrlSafe, sha(original))
    ensures var v := Step(sha, Step(sha, w, Tick(d)), StartToken(t, code, verifier));
      var grant := Exchange(w.codes[code].value, verifier, w.now + d);
      var granted := if sha(verifier) == sha(original) then [grant] else [];
      && (t in v.tokens <==> d <= 60 * SECOND)
      && code !in v.codes
      && (t in v.tokens ==> Step(sha, v, Verify(t)).grants == w.grants + granted)
  {
    PkceSound(sha, original, verifier);
  }
}
