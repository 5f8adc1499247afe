// Device sign-in with PKCE, as the interleaved steps of any number of authorize, callback and token
// requests, other sign-in flows sharing the state store, restarts and the clock.
module DeviceFlow {
  import opened Base64Url
  import opened OneTimeStores

  // A row of device_auth_requests; its expiry is in whole seconds.
  datatype Row = Row(ws: string, challenge: string, expiresAt: int)

  // A callback request in progress: it has taken its state value, then read and deleted the row.
  datatype Callback = Taken(state: string) | Loaded(state: string, ws: string, challenge: string)

  // A token request in progress, holding the entry of the code it took, and later a grant.
  datatype Exchange = Exchange(entry: CodeEntry, verifier: seq<Byte>, takenAt: int)

  // History, read by no step: where the right to a grant is, and when it moved on.
  datatype Place = Inserted | Waiting | AtCallback(h: nat) | AtCode(code: string) | AtToken(t: nat) | Granted(i: nat)

  datatype Trail = Trail(place: Place, ws: string, challenge: string, email: string,
                         inserted: int, stored: int, taken: int, loaded: int, issued: int)

  datatype World = World(
    now: int,
    rows: map<string, Row>,
    pending: set<string>,
    states: map<string, Timed<string>>,
    callbacks: map<nat, Callback>,
    codes: map<string, Timed<CodeEntry>>,
    tokens: map<nat, Exchange>,
    grants: seq<Exchange>,
    trails: map<string, Trail>)

  datatype Action =
    | Tick(d: nat)
    | Insert(state: string, ws: string, challenge: string, challengeMethod: string)
    | StoreState(state: string)
    | StoreOther(state: string)
    | TakeOther(state: string)
    | StartCallback(h: nat, state: string)
    | Load(h: nat, deleted: bool)
    | Issue(h: nat, code: string, email: string)
    | DropCallback(h: nat)
    | StartToken(t: nat, code: string, verifier: seq<Byte>)
    | Verify(t: nat)
    | DropToken(t: nat)
    | Restart

  type Sha = seq<Byte> -> seq<Byte>

  const INITIAL := World(0, map[], {}, map[], map[], map[], map[], [], map[])

  predicate IsDevice(state: string) {
    "device:" <= state
  }

  // Random values are fresh; other flows' state values never carry the device prefix.
  predicate Enabled(w: World, a: Action) {
    match a
    case Tick(_) => true
    case Insert(s, _, challenge, m) =>
      s !in w.trails && s !in w.rows && IsDevice(s) && challenge != "" && m in {"", "S256"}
    case StoreState(s) => s in w.pending
    case StoreOther(s) => !IsDevice(s)
    case TakeOther(_) => true
    case StartCallback(h, s) => h !in w.callbacks && IsDevice(s)
    case Load(h, _) => h in w.callbacks && w.callbacks[h].Taken?
    case Issue(h, code, email) => h in w.callbacks && w.callbacks[h].Loaded? && code !in w.codes && email != ""
    case DropCallback(_) => true
    case StartToken(t, code, verifier) => t !in w.tokens && code != "" && verifier != []
    case Verify(t) => t in w.tokens
    case DropToken(_) => true
    case Restart => true
  }

  // Records the next stretch of a state value's trail.
  function TrailOf(w: World, s: string): Trail {
    if s in w.trails then w.trails[s] else Trail(Inserted, "", "", "", 0, 0, 0, 0, 0)
  }

  function Move(w: World, s: string, t: Trail): World {
    w.(trails := w.trails[s := t])
  }

  function DoInsert(w: World, s: string, ws: string, challenge: string): World {
    Move(w.(rows := w.rows[s := Row(ws, challenge, (w.now + STATE_LIFE) / SECOND)], pending := w.pending + {s}),
         s, Trail(Inserted, ws, challenge, "", w.now, 0, 0, 0, 0))
  }

  function DoStoreState(w: World, s: string): World {
    Move(w.(pending := w.pending - {s}, states := Pruned(w.states[s := Timed(s, w.now + STATE_LIFE)], w.now)),
         s, TrailOf(w, s).(place := Waiting, stored := w.now))
  }

  function DoStartCallback(w: World, h: nat, s: string): World {
    if !Alive(w.states, s, w.now) then w
    else Move(w.(states := w.states - {s}, callbacks := w.callbacks[h := Taken(s)]),
              s, TrailOf(w, s).(place := AtCallback(h), taken := w.now))
  }

  // A missing or expired row ends the request; a failing delete is ignored.
  function DoLoad(w: World, h: nat, deleted: bool): World
    requires h in w.callbacks
  {
    var s := w.callbacks[h].state;
    if s !in w.rows || w.now / SECOND > w.rows[s].expiresAt then w.(callbacks := w.callbacks - {h})
    else DoLoaded(w, h, s, w.rows[s], deleted)
  }

  function DoLoaded(w: World, h: nat, s: string, r: Row, deleted: bool): World {
    Move(w.(rows := if deleted then w.rows - {s} else w.rows,
            callbacks := w.callbacks[h := Loaded(s, r.ws, r.challenge)]),
         s, TrailOf(w, s).(loaded := w.now))
  }

  function DoIssue(w: World, h: nat, code: string, email: string): World
    requires h in w.callbacks && w.callbacks[h].Loaded?
  {
    DoIssued(w, h, w.callbacks[h], code, email)
  }

  function DoIssued(w: World, h: nat, c: Callback, code: string, email: string): World
    requires c.Loaded?
  {
    var entry := CodeEntry(email, c.ws, c.state, c.challenge);
    Move(w.(callbacks := w.callbacks - {h}, codes := Pruned(w.codes[code := Timed(entry, w.now + CODE_LIFE)], w.now)),
         c.state, TrailOf(w, c.state).(place := AtCode(code), issued := w.now, email := email))
  }

  function DoStartToken(w: World, t: nat, code: string, verifier: seq<Byte>): World {
    var rest := w.(codes := w.codes - {code});
    if !Alive(w.codes, code, w.now) then rest
    else
      var entry := w.codes[code].value;
      Move(rest.(tokens := w.tokens[t := Exchange(entry, verifier, w.now)]),
           entry.state, TrailOf(w, entry.state).(place := AtToken(t)))
  }

  function DoVerify(sha: Sha, w: World, t: nat): World
    requires t in w.tokens
  {
    var x := w.tokens[t];
    var rest := w.(tokens := w.tokens - {t});
    if PkceAccepts(sha, x.entry.challenge, x.verifier) then DoGrant(rest, x) else rest
  }

  function DoGrant(w: World, x: Exchange): World {
    Move(w.(grants := w.grants + [x]), x.entry.state, TrailOf(w, x.entry.state).(place := Granted(|w.grants|)))
  }

  function Step(sha: Sha, w: World, a: Action): World
    requires Enabled(w, a)
  {
    match a
    case Tick(d) => w.(now := w.now + d)
    case Insert(s, ws, challenge, _) => DoInsert(w, s, ws, challenge)
    case StoreState(s) => DoStoreState(w, s)
    case StoreOther(s) => w.(states := Pruned(w.states[s := Timed(s, w.now + STATE_LIFE)], w.now))
    case TakeOther(s) => if Alive(w.states, s, w.now) then w.(states := w.states - {s}) else w
    case StartCallback(h, s) => DoStartCallback(w, h, s)
    case Load(h, deleted) => DoLoad(w, h, deleted)
    case Issue(h, code, email) => DoIssue(w, h, code, email)
    case DropCallback(h) => w.(callbacks := w.callbacks - {h})
    case StartToken(t, code, verifier) => DoStartToken(w, t, code, verifier)
    case Verify(t) => DoVerify(sha, w, t)
    case DropToken(t) => w.(tokens := w.tokens - {t})
    case Restart => w.(pending := {}, states := map[], callbacks := map[], codes := map[], tokens := map[])
  }

  predicate ValidRun(sha: Sha, w: World, run: seq<Action>)
    decreases |run|
  {
    run != [] ==> Enabled(w, run[0]) && ValidRun(sha, Step(sha, w, run[0]), run[1..])
  }

  function After(sha: Sha, w: World, run: seq<Action>): World
    requires ValidRun(sha, w, run)
    decreases |run|
  {
    if run == [] then w else After(sha, Step(sha, w, run[0]), run[1..])
  }

  // --- The invariant ---

  predicate At(t: map<string, Trail>, s: string, p: Place) {
    s in t && t[s].place == p
  }

  predicate StoredOk(t: Trail, now: int) {
    t.inserted <= t.stored <= now && t.challenge != ""
  }

  predicate TakenOk(t: Trail, now: int) {
    StoredOk(t, now) && t.stored <= t.taken <= now && t.taken <= t.stored + STATE_LIFE
  }

  predicate LoadedOk(t: Trail, now: int) {
    TakenOk(t, now) && t.taken <= t.loaded <= now && t.loaded < t.inserted + STATE_LIFE + SECOND
  }

  predicate IssuedOk(t: Trail, now: int) {
    LoadedOk(t, now) && t.loaded <= t.issued <= now
  }

  predicate EntryOk(t: Trail, e: CodeEntry) {
    e.email == t.email != "" && e.ws == t.ws && e.challenge == t.challenge
  }

  predicate RowOk(t: map<string, Trail>, s: string, r: Row) {
    s in t && r == Row(t[s].ws, t[s].challenge, (t[s].inserted + STATE_LIFE) / SECOND)
  }

  predicate PendingOk(t: map<string, Trail>, s: string, now: int) {
    At(t, s, Inserted) && t[s].inserted <= now && t[s].challenge != ""
  }

  predicate StateOk(t: map<string, Trail>, s: string, e: Timed<string>, now: int) {
    IsDevice(s) ==> At(t, s, Waiting) && StoredOk(t[s], now) && e.expiresAt == t[s].stored + STATE_LIFE
  }

  predicate CallbackOk(t: map<string, Trail>, h: nat, c: Callback, now: int) {
    At(t, c.state, AtCallback(h)) && TakenOk(t[c.state], now)
    && (c.Loaded? ==> LoadedOk(t[c.state], now) && c.ws == t[c.state].ws && c.challenge == t[c.state].challenge)
  }

  predicate CodeOk(t: map<string, Trail>, code: string, e: Timed<CodeEntry>, now: int) {
    var s := e.value.state;
    At(t, s, AtCode(code)) && IssuedOk(t[s], now) && EntryOk(t[s], e.value) && e.expiresAt == t[s].issued + CODE_LIFE
  }

  predicate ExchangeOk(t: map<string, Trail>, p: Place, x: Exchange, now: int) {
    var s := x.entry.state;
    At(t, s, p) && IssuedOk(t[s], now) && EntryOk(t[s], x.entry) && t[s].issued <= x.takenAt <= t[s].issued + CODE_LIFE
  }

  predicate GrantOk(sha: Sha, t: map<string, Trail>, i: nat, x: Exchange, now: int) {
    ExchangeOk(t, Granted(i), x, now) && Encode(UrlSafe, sha(x.verifier)) == x.entry.challenge
  }

  ghost predicate RowsOk(t: map<string, Trail>, m: map<string, Row>) {
    forall s :: s in m ==> RowOk(t, s, m[s])
  }

  ghost predicate PendingsOk(t: map<string, Trail>, m: set<string>, now: int) {
    forall s :: s in m ==> PendingOk(t, s, now)
  }

  ghost predicate StatesOk(t: map<string, Trail>, m: map<string, Timed<string>>, now: int) {
    forall s :: s in m ==> StateOk(t, s, m[s], now)
  }

  ghost predicate CallbacksOk(t: map<string, Trail>, m: map<nat, Callback>, now: int) {
    forall h :: h in m ==> CallbackOk(t, h, m[h], now)
  }

  ghost predicate CodesOk(t: map<string, Trail>, m: map<string, Timed<CodeEntry>>, now: int) {
    forall c :: c in m ==> CodeOk(t, c, m[c], now)
  }

  ghost predicate TokensOk(t: map<string, Trail>, m: map<nat, Exchange>, now: int) {
    forall h :: h in m ==> ExchangeOk(t, AtToken(h), m[h], now)
  }

  ghost predicate GrantsOk(sha: Sha, t: map<string, Trail>, m: seq<Exchange>, now: int) {
    forall i :: 0 <= i < |m| ==> GrantOk(sha, t, i, m[i], now)
  }

  ghost predicate Inv(sha: Sha, w: World) {
    && RowsOk(w.trails, w.rows)
    && PendingsOk(w.trails, w.pending, w.now)
    && StatesOk(w.trails, w.states, w.now)
    && CallbacksOk(w.trails, w.callbacks, w.now)
    && CodesOk(w.trails, w.codes, w.now)
    && TokensOk(w.trails, w.tokens, w.now)
    && GrantsOk(sha, w.trails, w.grants, w.now)
  }

  // When one trail moves from place p (or starts), everything that sat elsewhere stays in order.
  ghost predicate Moves(t: map<string, Trail>, u: map<string, Trail>, s: string) {
    s in u && u == t[s := u[s]]
  }

  lemma PendingsStay(t: map<string, Trail>, u: map<string, Trail>, s: string, m: set<string>, now: int)
    requires Moves(t, u, s) && PendingsOk(t, m, now) && (s in t ==> t[s].place != Inserted || s !in m)
    ensures PendingsOk(u, m, now)
  {
  }

  lemma RowsStay(t: map<string, Trail>, u: map<string, Trail>, s: string, m: map<string, Row>)
    requires Moves(t, u, s) && RowsOk(t, m)
    requires s in t ==> u[s].ws == t[s].ws && u[s].challenge == t[s].challenge && u[s].inserted == t[s].inserted
    ensures RowsOk(u, m)
  {
  }

  lemma StatesStay(t: map<string, Trail>, u: map<string, Trail>, s: string, m: map<string, Timed<string>>, now: int)
    requires Moves(t, u, s) && StatesOk(t, m, now) && (s in t ==> t[s].place != Waiting || s !in m)
    ensures StatesOk(u, m, now)
  {
  }

  lemma CallbacksStay(t: map<string, Trail>, u: map<string, Trail>, s: string, m: map<nat, Callback>, now: int)
    requires Moves(t, u, s) && CallbacksOk(t, m, now) && (s in t ==> !t[s].place.AtCallback? || t[s].place.h !in m)
    ensures CallbacksOk(u, m, now)
  {
  }

  lemma CodesStay(t: map<string, Trail>, u: map<string, Trail>, s: string, m: map<string, Timed<CodeEntry>>, now: int)
    requires Moves(t, u, s) && CodesOk(t, m, now) && (s in t ==> !t[s].place.AtCode? || t[s].place.code !in m)
    ensures CodesOk(u, m, now)
  {
  }

  lemma TokensStay(t: map<string, Trail>, u: map<string, Trail>, s: string, m: map<nat, Exchange>, now: int)
    requires Moves(t, u, s) && TokensOk(t, m, now) && (s in t ==> !t[s].place.AtToken? || t[s].place.t !in m)
    ensures TokensOk(u, m, now)
  {
  }

  lemma GrantsStay(sha: Sha, t: map<string, Trail>, u: map<string, Trail>, s: string, m: seq<Exchange>, now: int)
    requires Moves(t, u, s) && GrantsOk(sha, t, m, now) && (s in t ==> !t[s].place.Granted?)
    ensures GrantsOk(sha, u, m, now)
  {
  }

  // Adding an entry that is in order.
  lemma StatesPlus(t: map<string, Trail>, m: map<string, Timed<string>>, s: string, e: Timed<string>, now: int)
    requires StatesOk(t, m, now) && StateOk(t, s, e, now)
    ensures StatesOk(t, Pruned(m[s := e], now), now)
  {
  }

  lemma CallbacksPlus(t: map<string, Trail>, m: map<nat, Callback>, h: nat, c: Callback, now: int)
    requires CallbacksOk(t, m - {h}, now) && CallbackOk(t, h, c, now)
    ensures CallbacksOk(t, m[h := c], now)
  {
    var rest, all := m - {h}, m[h := c];
    forall g | g in all ensures CallbackOk(t, g, all[g], now) {
      assert g != h ==> g in rest && all[g] == rest[g];
    }
  }

  lemma CodesPlus(t: map<string, Trail>, m: map<string, Timed<CodeEntry>>, c: string, e: Timed<CodeEntry>, now: int)
    requires CodesOk(t, m, now) && CodeOk(t, c, e, now)
    ensures CodesOk(t, Pruned(m[c := e], now), now)
  {
  }

  lemma TokensPlus(t: map<string, Trail>, m: map<nat, Exchange>, h: nat, x: Exchange, now: int)
    requires TokensOk(t, m, now) && ExchangeOk(t, AtToken(h), x, now)
    ensures TokensOk(t, m[h := x], now)
  {
  }

  // Apart from the authorize request, steps only move trails that are there already.
  ghost predicate Continues(t: map<string, Trail>, u: map<string, Trail>) {
    forall s :: (s in t <==> s in u) && (s in t ==> u[s].ws == t[s].ws && u[s].challenge == t[s].challenge)
  }

  lemma InsertKeeps(sha: Sha, w: World, s: string, ws: string, challenge: string, m: string)
    requires Inv(sha, w) && Enabled(w, Insert(s, ws, challenge, m))
    ensures Inv(sha, DoInsert(w, s, ws, challenge))
  {
    var u := DoInsert(w, s, ws, challenge).trails;
    RowsStay(w.trails, u, s, w.rows);
    PendingsStay(w.trails, u, s, w.pending, w.now);
    StatesStay(w.trails, u, s, w.states, w.now);
    CallbacksStay(w.trails, u, s, w.callbacks, w.now);
    CodesStay(w.trails, u, s, w.codes, w.now);
    TokensStay(w.trails, u, s, w.tokens, w.now);
    GrantsStay(sha, w.trails, u, s, w.grants, w.now);
  }

  lemma StoreStateKeeps(sha: Sha, w: World, s: string)
    requires Inv(sha, w) && Enabled(w, StoreState(s))
    ensures Inv(sha, DoStoreState(w, s)) && Continues(w.trails, DoStoreState(w, s).trails)
  {
    var u := DoStoreState(w, s).trails;
    RowsStay(w.trails, u, s, w.rows);
    PendingsStay(w.trails, u, s, w.pending - {s}, w.now);
    StatesStay(w.trails, u, s, w.states, w.now);
    CallbacksStay(w.trails, u, s, w.callbacks, w.now);
    CodesStay(w.trails, u, s, w.codes, w.now);
    TokensStay(w.trails, u, s, w.tokens, w.now);
    GrantsStay(sha, w.trails, u, s, w.grants, w.now);
    StatesPlus(u, w.states, s, Timed(s, w.now + STATE_LIFE), w.now);
  }

  lemma StartCallbackKeeps(sha: Sha, w: World, h: nat, s: string)
    requires Inv(sha, w) && Enabled(w, StartCallback(h, s))
    ensures Inv(sha, DoStartCallback(w, h, s)) && Continues(w.trails, DoStartCallback(w, h, s).trails)
  {
    if Alive(w.states, s, w.now) {
      var u := DoStartCallback(w, h, s).trails;
      RowsStay(w.trails, u, s, w.rows);
      PendingsStay(w.trails, u, s, w.pending, w.now);
      StatesStay(w.trails, u, s, w.states - {s}, w.now);
      CallbacksStay(w.trails, u, s, w.callbacks, w.now);
      CodesStay(w.trails, u, s, w.codes, w.now);
      TokensStay(w.trails, u, s, w.tokens, w.now);
      GrantsStay(sha, w.trails, u, s, w.grants, w.now);
      CallbacksPlus(u, w.callbacks, h, Taken(s), w.now);
    }
  }

  // A row that is not expired in whole seconds is less than a second past its time.
  lemma LoadInTime(t: map<string, Trail>, s: string, r: Row, h: nat, now: int)
    requires RowOk(t, s, r) && CallbackOk(t, h, Taken(s), now) && now / SECOND <= r.expiresAt
    ensures CallbackOk(t[s := t[s].(loaded := now)], h, Loaded(s, r.ws, r.challenge), now)
  {
  }

  lemma LoadedKeeps(sha: Sha, w: World, h: nat, s: string, r: Row, deleted: bool)
    requires Inv(sha, w) && At(w.trails, s, AtCallback(h))
    requires CallbackOk(w.trails[s := w.trails[s].(loaded := w.now)], h, Loaded(s, r.ws, r.challenge), w.now)
    ensures Inv(sha, DoLoaded(w, h, s, r, deleted)) && Continues(w.trails, DoLoaded(w, h, s, r, deleted).trails)
  {
    var u := w.trails[s := w.trails[s].(loaded := w.now)];
    RowsStay(w.trails, u, s, w.rows);
    PendingsStay(w.trails, u, s, w.pending, w.now);
    StatesStay(w.trails, u, s, w.states, w.now);
    CallbacksStay(w.trails, u, s, w.callbacks - {h}, w.now);
    CodesStay(w.trails, u, s, w.codes, w.now);
    TokensStay(w.trails, u, s, w.tokens, w.now);
    GrantsStay(sha, w.trails, u, s, w.grants, w.now);
    CallbacksPlus(u, w.callbacks, h, Loaded(s, r.ws, r.challenge), w.now);
  }

  lemma LoadKeeps(sha: Sha, w: World, h: nat, deleted: bool)
    requires Inv(sha, w) && Enabled(w, Load(h, deleted))
    ensures Inv(sha, DoLoad(w, h, deleted)) && Continues(w.trails, DoLoad(w, h, deleted).trails)
  {
    var s := w.callbacks[h].state;
    if s in w.rows && w.now / SECOND <= w.rows[s].expiresAt {
      LoadInTime(w.trails, s, w.rows[s], h, w.now);
      LoadedKeeps(sha, w, h, s, w.rows[s], deleted);
    }
  }

  lemma IssueInTime(t: map<string, Trail>, h: nat, c: Callback, code: string, email: string, now: int)
    requires CallbackOk(t, h, c, now) && c.Loaded? && email != ""
    ensures CodeOk(t[c.state := t[c.state].(place := AtCode(code), issued := now, email := email)], code,
                   Timed(CodeEntry(email, c.ws, c.state, c.challenge), now + CODE_LIFE), now)
  {
  }

  lemma IssuedKeeps(sha: Sha, w: World, h: nat, c: Callback, code: string, email: string)
    requires Inv(sha, w) && c.Loaded? && code !in w.codes && email != "" && CallbackOk(w.trails, h, c, w.now)
    ensures Inv(sha, DoIssued(w, h, c, code, email)) && Continues(w.trails, DoIssued(w, h, c, code, email).trails)
  {
    var s := c.state;
    var u := w.trails[s := w.trails[s].(place := AtCode(code), issued := w.now, email := email)];
    IssueInTime(w.trails, h, c, code, email, w.now);
    RowsStay(w.trails, u, s, w.rows);
    PendingsStay(w.trails, u, s, w.pending, w.now);
    StatesStay(w.trails, u, s, w.states, w.now);
    CallbacksStay(w.trails, u, s, w.callbacks - {h}, w.now);
    CodesStay(w.trails, u, s, w.codes, w.now);
    TokensStay(w.trails, u, s, w.tokens, w.now);
    GrantsStay(sha, w.trails, u, s, w.grants, w.now);
    CodesPlus(u, w.codes, code, Timed(CodeEntry(email, c.ws, s, c.challenge), w.now + CODE_LIFE), w.now);
  }

  lemma IssueKeeps(sha: Sha, w: World, h: nat, code: string, email: string)
    requires Inv(sha, w) && Enabled(w, Issue(h, code, email))
    ensures Inv(sha, DoIssue(w, h, code, email)) && Continues(w.trails, DoIssue(w, h, code, email).trails)
  {
    assert CallbackOk(w.trails, h, w.callbacks[h], w.now);
    IssuedKeeps(sha, w, h, w.callbacks[h], code, email);
  }

  lemma StartTokenKeeps(sha: Sha, w: World, h: nat, code: string, verifier: seq<Byte>)
    requires Inv(sha, w) && Enabled(w, StartToken(h, code, verifier))
    ensures Inv(sha, DoStartToken(w, h, code, verifier))
    ensures Continues(w.trails, DoStartToken(w, h, code, verifier).trails)
  {
    if Alive(w.codes, code, w.now) {
      var s := w.codes[code].value.state;
      var u := DoStartToken(w, h, code, verifier).trails;
      RowsStay(w.trails, u, s, w.rows);
      PendingsStay(w.trails, u, s, w.pending, w.now);
      StatesStay(w.trails, u, s, w.states, w.now);
      CallbacksStay(w.trails, u, s, w.callbacks, w.now);
      CodesStay(w.trails, u, s, w.codes - {code}, w.now);
      TokensStay(w.trails, u, s, w.tokens, w.now);
      GrantsStay(sha, w.trails, u, s, w.grants, w.now);
      TokensPlus(u, w.tokens, h, Exchange(w.codes[code].value, verifier, w.now), w.now);
    }
  }

  lemma GrantKeeps(sha: Sha, w: World, t: nat, x: Exchange)
    requires Inv(sha, w) && t !in w.tokens && ExchangeOk(w.trails, AtToken(t), x, w.now)
    requires Encode(UrlSafe, sha(x.verifier)) == x.entry.challenge
    ensures Inv(sha, DoGrant(w, x)) && Continues(w.trails, DoGrant(w, x).trails)
  {
    var s := x.entry.state;
    var u := DoGrant(w, x).trails;
    RowsStay(w.trails, u, s, w.rows);
    PendingsStay(w.trails, u, s, w.pending, w.now);
    StatesStay(w.trails, u, s, w.states, w.now);
    CallbacksStay(w.trails, u, s, w.callbacks, w.now);
    CodesStay(w.trails, u, s, w.codes, w.now);
    TokensStay(w.trails, u, s, w.tokens, w.now);
    GrantsStay(sha, w.trails, u, s, w.grants, w.now);
    assert GrantOk(sha, u, |w.grants|, x, w.now);
  }

  lemma VerifyKeeps(sha: Sha, w: World, h: nat)
    requires Inv(sha, w) && Enabled(w, Verify(h))
    ensures Inv(sha, DoVerify(sha, w, h)) && Continues(w.trails, DoVerify(sha, w, h).trails)
  {
    var x := w.tokens[h];
    var rest := w.(tokens := w.tokens - {h});
    assert ExchangeOk(w.trails, AtToken(h), x, w.now);
    FewerTokens(sha, w, h);
    if PkceAccepts(sha, x.entry.challenge, x.verifier) {
      GrantKeeps(sha, rest, h, x);
    }
  }

  lemma TickKeeps(sha: Sha, w: World, d: nat)
    requires Inv(sha, w)
    ensures Inv(sha, w.(now := w.now + d))
  {
  }

  // Other flows' state values, and whatever is dropped or lost, leave the rest in order.
  lemma StatesKeep(sha: Sha, w: World, states: map<string, Timed<string>>)
    requires Inv(sha, w)
    requires forall s :: s in states ==> !IsDevice(s) || (s in w.states && states[s] == w.states[s])
    ensures Inv(sha, w.(states := states))
  {
  }

  lemma FewerCallbacks(sha: Sha, w: World, h: nat)
    requires Inv(sha, w)
    ensures Inv(sha, w.(callbacks := w.callbacks - {h}))
  {
  }

  lemma FewerTokens(sha: Sha, w: World, h: nat)
    requires Inv(sha, w)
    ensures Inv(sha, w.(tokens := w.tokens - {h}))
  {
  }

  lemma NothingPending(sha: Sha, w: World)
    requires Inv(sha, w)
    ensures Inv(sha, w.(pending := {}, states := map[], callbacks := map[], codes := map[], tokens := map[]))
  {
  }

  lemma OtherFlowsKeep(sha: Sha, w: World, a: Action)
    requires Inv(sha, w) && Enabled(w, a) && (a.StoreOther? || a.TakeOther?)
    ensures Inv(sha, Step(sha, w, a)) && Step(sha, w, a).trails == w.trails
  {
    StatesKeep(sha, w, Step(sha, w, a).states);
  }

  predicate OfHandler(a: Action) {
    a.Insert? || a.StoreState? || a.StartCallback? || a.Load? || a.Issue? || a.StartToken? || a.Verify?
  }

  lemma OthersKeep(sha: Sha, w: World, a: Action)
    requires Inv(sha, w) && Enabled(w, a) && !OfHandler(a)
    ensures Inv(sha, Step(sha, w, a)) && Step(sha, w, a).trails == w.trails
  {
    if a.Tick? {
      TickKeeps(sha, w, a.d);
    } else if a.DropCallback? {
      FewerCallbacks(sha, w, a.h);
    } else if a.DropToken? {
      FewerTokens(sha, w, a.t);
    } else if a.Restart? {
      NothingPending(sha, w);
    } else {
      OtherFlowsKeep(sha, w, a);
    }
  }

  lemma StepKeeps(sha: Sha, w: World, a: Action)
    requires Inv(sha, w) && Enabled(w, a)
    ensures Inv(sha, Step(sha, w, a))
    ensures !a.Insert? ==> Continues(w.trails, Step(sha, w, a).trails)
  {
    if !OfHandler(a) {
      OthersKeep(sha, w, a);
    } else if a.Insert? {
      InsertKeeps(sha, w, a.state, a.ws, a.challenge, a.challengeMethod);
    } else if a.StoreState? {
      StoreStateKeeps(sha, w, a.state);
    } else if a.StartCallback? {
      StartCallbackKeeps(sha, w, a.h, a.state);
    } else if a.Load? {
      LoadKeeps(sha, w, a.h, a.deleted);
    } else if a.Issue? {
      IssueKeeps(sha, w, a.h, a.code, a.email);
    } else if a.StartToken? {
      StartTokenKeeps(sha, w, a.t, a.code, a.verifier);
    } else {
      VerifyKeeps(sha, w, a.t);
    }
  }

  lemma {:induction false} RunKeeps(sha: Sha, w: World, run: seq<Action>)
    requires Inv(sha, w) && ValidRun(sha, w, run)
    ensures Inv(sha, After(sha, w, run))
    decreases |run|
  {
    if run != [] {
      StepKeeps(sha, w, run[0]);
      RunKeeps(sha, Step(sha, w, run[0]), run[1..]);
    }
  }
}
