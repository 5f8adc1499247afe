// Sessions and refresh-token rotation. A refresh request reads the session by the hash of its token and
// later, in a second statement, replaces that hash; other requests may come in between.
module Sessions {
  import opened Wrappers

  const DEVICE_SESSION := 30 * 24 * 3600
  const ADMIN_SESSION := 24 * 3600
  const ACCESS_TOKEN := 15 * 60

  datatype Kind = AdminSession | DeviceSession

  datatype Session = Session(user: string, ws: string, kind: Kind, hash: string, expiresAt: int, revoked: bool)

  type Rows = map<string, Session>

  // --- The statements of the session store ---

  function Revoked(rows: Rows, id: string): Rows {
    if id in rows then rows[id := rows[id].(revoked := true)] else rows
  }

  function UserRevoked(rows: Rows, user: string): Rows {
    map id | id in rows :: if rows[id].user == user then rows[id].(revoked := true) else rows[id]
  }

  function Rehashed(rows: Rows, id: string, hash: string): Rows {
    if id in rows then rows[id := rows[id].(hash := hash)] else rows
  }

  function Cleaned(rows: Rows, now: int): Rows {
    map id | id in rows && rows[id].expiresAt >= now :: rows[id]
  }

  class SessionStore {
    var rows: Rows

    constructor ()
      ensures rows == map[]
    {
      rows := map[];
    }

    // A second row with the same primary key is refused.
    method Create(id: string, s: Session) returns (ok: bool)
      modifies this
      ensures ok <==> id !in old(rows)
      ensures rows == if ok then old(rows)[id := s] else old(rows)
    {
      ok := id !in rows;
      if ok {
        rows := rows[id := s];
      }
    }

    // Some row with that hash; an error when there is none.
    method GetByRefreshTokenHash(hash: string) returns (r: Option<string>)
      ensures r.Some? ==> r.value in rows && rows[r.value].hash == hash
      ensures r.None? ==> forall id :: id in rows ==> rows[id].hash != hash
    {
      if id :| id in rows && rows[id].hash == hash {
        return Some(id);
      }
      return None;
    }

    // None stands for the error of a missing row.
    method IsValid(id: string, now: int) returns (r: Option<bool>)
      ensures r == if id in rows then Some(!rows[id].revoked && now <= rows[id].expiresAt) else None
    {
      if id !in rows {
        return None;
      }
      if rows[id].revoked {
        return Some(false);
      }
      if now > rows[id].expiresAt {
        return Some(false);
      }
      return Some(true);
    }

    method Revoke(id: string)
      modifies this
      ensures rows == Revoked(old(rows), id)
      ensures rows.Keys == old(rows).Keys && forall k :: k in rows && k != id ==> rows[k] == old(rows)[k]
      ensures id in rows ==> rows[id] == old(rows)[id].(revoked := true)
    {
      if id in rows {
        rows := rows[id := rows[id].(revoked := true)];
      }
    }

    method RevokeAllForUser(user: string)
      modifies this
      ensures rows == UserRevoked(old(rows), user)
      ensures rows.Keys == old(rows).Keys
      ensures forall k :: k in rows ==>
        rows[k] == old(rows)[k].(revoked := old(rows)[k].revoked || old(rows)[k].user == user)
    {
      rows := map id | id in rows :: if rows[id].user == user then rows[id].(revoked := true) else rows[id];
    }

    method UpdateRefreshToken(id: string, hash: string)
      modifies this
      ensures rows == Rehashed(old(rows), id, hash)
      ensures rows.Keys == old(rows).Keys && forall k :: k in rows && k != id ==> rows[k] == old(rows)[k]
      ensures id in rows ==> rows[id] == old(rows)[id].(hash := hash)
    {
      if id in rows {
        rows := rows[id := rows[id].(hash := hash)];
      }
    }

    method CleanExpired(now: int)
      modifies this
      ensures rows == Cleaned(old(rows), now)
      ensures forall k :: k in rows <==> k in old(rows) && !(old(rows)[k].expiresAt < now)
      ensures forall k :: k in rows ==> rows[k] == old(rows)[k]
    {
      rows := map id | id in rows && !(rows[id].expiresAt < now) :: rows[id];
    }
  }

  // --- The handlers, as steps ---

  // A refresh request that has read a session; an access token, with the time its session was checked.
  datatype Reader = Reader(token: string, id: string, checkedAt: int)
  datatype Access = Access(id: string, checkedAt: int, exp: int)

  // The last four fields are history: the tokens' owners, each device session's newest token, the expiry
  // each session was created with, and the tokens redeemed so far.
  datatype World = World(now: int, rows: Rows, readers: map<nat, Reader>, access: seq<Access>,
                         owner: map<string, string>, newest: map<string, string>, limit: map<string, int>,
                         redeemed: seq<string>)

  datatype Action =
    | Tick(d: nat)
    | Login(id: string, user: string, ws: string)
    | Grant(id: string, user: string, ws: string, token: string, stored: bool)
    | Read(h: nat, token: string)
    | Rotate(h: nat, next: string)
    | Drop(h: nat)
    | RevokeToken(token: string)
    | Revoke(id: string)
    | RevokeUser(user: string)
    | Clean

  const INITIAL := World(0, map[], map[], [], map[], map[], map[], [])

  type Hash = string -> string

  ghost predicate Hashes(hash: Hash) {
    (forall t :: hash(t) != "") && forall t, u :: hash(t) == hash(u) ==> t == u
  }

  // The row a lookup by hash returns.
  ghost function Find(rows: Rows, hash: string): (r: Option<string>)
    ensures r.Some? ==> r.value in rows && rows[r.value].hash == hash
    ensures r.None? ==> forall id :: id in rows ==> rows[id].hash != hash
  {
    if id :| id in rows && rows[id].hash == hash then Some(id) else None
  }

  predicate Usable(s: Session, now: int) {
    !s.revoked && now <= s.expiresAt
  }

  ghost predicate ReadSucceeds(hash: Hash, w: World, token: string) {
    var r := Find(w.rows, hash(token));
    token != "" && r.Some? && Usable(w.rows[r.value], w.now)
  }

  // Session ids and refresh tokens are fresh random values.
  predicate Enabled(w: World, a: Action) {
    match a
    case Tick(_) => true
    case Login(id, _, _) => id !in w.limit
    case Grant(id, _, _, token, _) => id !in w.limit && token !in w.owner && token != ""
    case Read(h, _) => h !in w.readers
    case Rotate(h, next) => h in w.readers && next !in w.owner && next != ""
    case _ => true
  }

  function DoLogin(w: World, id: string, user: string, ws: string): World {
    var s := Session(user, ws, AdminSession, "", w.now + ADMIN_SESSION, false);
    w.(rows := w.rows[id := s], limit := w.limit[id := s.expiresAt])
  }

  ghost function DoRead(hash: Hash, w: World, h: nat, token: string): World {
    if !ReadSucceeds(hash, w, token) then w
    else w.(readers := w.readers[h := Reader(token, Find(w.rows, hash(token)).value, w.now)])
  }

  function DoGrant(hash: Hash, w: World, id: string, user: string, ws: string, token: string, stored: bool): World {
    var s := Session(user, ws, DeviceSession, hash(token), w.now + DEVICE_SESSION, false);
    w.(rows := if stored then w.rows[id := s] else w.rows,
       access := w.access + [Access(id, w.now, w.now + ACCESS_TOKEN)],
       owner := w.owner[token := id], newest := w.newest[id := token], limit := w.limit[id := s.expiresAt])
  }

  // The statement that stores the new hash does not fail when the row is gone.
  function DoRotate(hash: Hash, w: World, h: nat, next: string): World
    requires h in w.readers
  {
    var r := w.readers[h];
    w.(rows := Rehashed(w.rows, r.id, hash(next)), readers := w.readers - {h},
       access := w.access + [Access(r.id, r.checkedAt, w.now + ACCESS_TOKEN)],
       owner := w.owner[next := r.id], newest := w.newest[r.id := next], redeemed := w.redeemed + [r.token])
  }

  ghost function Step(hash: Hash, w: World, a: Action): World
    requires Enabled(w, a)
  {
    match a
    case Tick(d) => w.(now := w.now + d)
    case Login(id, user, ws) => DoLogin(w, id, user, ws)
    case Grant(id, user, ws, token, stored) => DoGrant(hash, w, id, user, ws, token, stored)
    case Read(h, token) => DoRead(hash, w, h, token)
    case Rotate(h, next) => DoRotate(hash, w, h, next)
    case Drop(h) => w.(readers := w.readers - {h})
    case RevokeToken(token) =>
      var r := Find(w.rows, hash(token));
      if token != "" && r.Some? then w.(rows := Revoked(w.rows, r.value)) else w
    case Revoke(id) => w.(rows := Revoked(w.rows, id))
    case RevokeUser(user) => w.(rows := UserRevoked(w.rows, user))
    case Clean => w.(rows := Cleaned(w.rows, w.now))
  }

  ghost predicate ValidRun(hash: Hash, w: World, run: seq<Action>)
    decreases |run|
  {
    run != [] ==> Enabled(w, run[0]) && ValidRun(hash, Step(hash, w, run[0]), run[1..])
  }

  ghost function After(hash: Hash, w: World, run: seq<Action>): World
    requires ValidRun(hash, w, run)
    decreases |run|
  {
    if run == [] then w else After(hash, Step(hash, w, run[0]), run[1..])
  }

  // --- What every step keeps ---

  predicate RowOk(hash: Hash, w: World, id: string, s: Session) {
    id in w.limit && s.expiresAt == w.limit[id]
    && if s.kind.DeviceSession? then id in w.newest && s.hash == hash(w.newest[id]) else id !in w.newest && s.hash == ""
  }

  predicate NewestOk(w: World, id: string) {
    id in w.newest && id in w.limit && w.newest[id] in w.owner && w.owner[w.newest[id]] == id
  }

  predicate ReaderOk(w: World, r: Reader) {
    r.token in w.owner && w.owner[r.token] == r.id && r.id in w.newest && r.id in w.limit
    && r.checkedAt <= w.limit[r.id] && r.checkedAt <= w.now
  }

  predicate AccessOk(w: World, a: Access) {
    a.id in w.limit && a.checkedAt <= w.limit[a.id] && a.checkedAt + ACCESS_TOKEN <= a.exp <= w.now + ACCESS_TOKEN
  }

  ghost predicate RowsOk(hash: Hash, w: World) {
    forall id :: id in w.rows ==> RowOk(hash, w, id, w.rows[id])
  }

  ghost predicate HistoryOk(w: World) {
    && (forall id :: id in w.newest ==> NewestOk(w, id))
    && (forall t :: t in w.owner ==> t != "" && w.owner[t] in w.newest)
    && (forall t :: t in w.redeemed ==> t in w.owner)
  }

  ghost predicate Inv(hash: Hash, w: World) {
    && RowsOk(hash, w)
    && HistoryOk(w)
    && (forall h :: h in w.readers ==> ReaderOk(w, w.readers[h]))
    && (forall i :: 0 <= i < |w.access| ==> AccessOk(w, w.access[i]))
  }

  lemma LoginKeeps(hash: Hash, w: World, id: string, user: string, ws: string)
    requires Inv(hash, w) && id !in w.limit
    ensures Inv(hash, DoLogin(w, id, user, ws))
  {
  }

  lemma GrantKeeps(hash: Hash, w: World, id: string, user: string, ws: string, token: string, stored: bool)
    requires Inv(hash, w) && id !in w.limit && token !in w.owner && token != ""
    ensures Inv(hash, DoGrant(hash, w, id, user, ws, token, stored))
  {
  }

  // A hash that is not empty belongs to the newest token of a device session.
  lemma FindNewest(hash: Hash, w: World, token: string)
    requires Hashes(hash) && Inv(hash, w) && Find(w.rows, hash(token)).Some?
    ensures var id := Find(w.rows, hash(token)).value;
      w.rows[id].kind.DeviceSession? && NewestOk(w, id) && w.newest[id] == token
  {
    var id := Find(w.rows, hash(token)).value;
    assert RowOk(hash, w, id, w.rows[id]);
  }

  lemma ReadKeeps(hash: Hash, w: World, h: nat, token: string)
    requires Hashes(hash) && Inv(hash, w) && h !in w.readers
    ensures Inv(hash, DoRead(hash, w, h, token))
  {
    if ReadSucceeds(hash, w, token) {
      FindNewest(hash, w, token);
      var id := Find(w.rows, hash(token)).value;
      assert RowOk(hash, w, id, w.rows[id]);
    }
  }

  lemma RotateKeeps(hash: Hash, w: World, h: nat, next: string)
    requires Inv(hash, w) && h in w.readers && next !in w.owner && next != ""
    ensures Inv(hash, DoRotate(hash, w, h, next))
  {
    assert ReaderOk(w, w.readers[h]);
  }

  // Statements that only revoke or delete.
  lemma RowsKeep(hash: Hash, w: World, rows: Rows)
    requires Inv(hash, w)
    requires forall id :: id in rows ==> id in w.rows && rows[id] in {w.rows[id], w.rows[id].(revoked := true)}
    ensures Inv(hash, w.(rows := rows))
  {
  }

  lemma RestKeeps(hash: Hash, w: World, d: nat, readers: map<nat, Reader>)
    requires Inv(hash, w) && forall h :: h in readers ==> h in w.readers && readers[h] == w.readers[h]
    ensures Inv(hash, w.(now := w.now + d, readers := readers))
  {
  }

  lemma StepKeeps(hash: Hash, w: World, a: Action)
    requires Hashes(hash) && Inv(hash, w) && Enabled(w, a)
    ensures Inv(hash, Step(hash, w, a))
  {
    match a
    case Tick(d) => RestKeeps(hash, w, d, w.readers);
    case Login(id, user, ws) => LoginKeeps(hash, w, id, user, ws);
    case Grant(id, user, ws, token, stored) => GrantKeeps(hash, w, id, user, ws, token, stored);
    case Read(h, token) => ReadKeeps(hash, w, h, token);
    case Rotate(h, next) => RotateKeeps(hash, w, h, next);
    case Drop(h) => RestKeeps(hash, w, 0, w.readers - {h});
    case _ => RowsKeep(hash, w, Step(hash, w, a).rows);
  }

  lemma {:induction false} RunKeeps(hash: Hash, w: World, run: seq<Action>)
    requires Hashes(hash) && Inv(hash, w) && ValidRun(hash, w, run)
    ensures Inv(hash, After(hash, w, run))
    decreases |run|
  {
    if run != [] {
      StepKeeps(hash, w, run[0]);
      RunKeeps(hash, Step(hash, w, run[0]), run[1..]);
    }
  }
}
