// Versions over runs in which compiles overlap and their statements fail: each reads the row of its
// connector and later, in a second statement, writes the row it issues.
module CompileRuns {
  import opened Wrappers
  import opened PolicyVersions

  // A compile that has read: for which connector, what it found, and the row it is about to issue.
  datatype Pending = Pending(connector: string, read: Option<Row>, row: Row)

  datatype Issue = Issue(connector: string, row: Row)

  // The last two fields are history: every row issued so far, and each connector's newest.
  datatype World = World(rows: Rows, pending: map<nat, Pending>, issues: seq<Issue>, newest: Rows)

  datatype Action = Read(h: nat, connector: string, hash: string, fails: bool) | Write(h: nat, fails: bool)

  const INITIAL := World(map[], map[], [], map[])

  predicate Enabled(w: World, a: Action) {
    match a
    case Read(h, _, _, _) => h !in w.pending
    case Write(h, _) => h in w.pending
  }

  function DoRead(w: World, h: nat, c: string, hash: string, fails: bool): World {
    var read := if fails then None else Stored(w.rows, c);
    w.(pending := w.pending[h := Pending(c, read, Issued(read, hash))])
  }

  function DoWrite(w: World, h: nat, fails: bool): World
    requires h in w.pending
  {
    var p := w.pending[h];
    World(if fails then w.rows else w.rows[p.connector := p.row], w.pending - {h},
          w.issues + [Issue(p.connector, p.row)], w.newest[p.connector := p.row])
  }

  function Step(w: World, a: Action): World
    requires Enabled(w, a)
  {
    match a
    case Read(h, c, hash, fails) => DoRead(w, h, c, hash, fails)
    case Write(h, fails) => DoWrite(w, h, fails)
  }

  predicate ValidRun(w: World, run: seq<Action>)
    decreases |run|
  {
    run != [] ==> Enabled(w, run[0]) && ValidRun(Step(w, run[0]), run[1..])
  }

  function AfterRun(w: World, run: seq<Action>): World
    requires ValidRun(w, run)
    decreases |run|
  {
    if run == [] then w else AfterRun(Step(w, run[0]), run[1..])
  }

  // --- What every step keeps ---

  predicate WasIssued(issues: seq<Issue>, c: string, row: Row) {
    Issue(c, row) in issues
  }

  predicate PendingOk(issues: seq<Issue>, p: Pending) {
    && p.row.hash.Some? && p.row == Issued(p.read, p.row.hash.value)
    && (p.read.Some? ==> WasIssued(issues, p.connector, p.read.value))
  }

  ghost predicate IssuesOk(issues: seq<Issue>, newest: Rows) {
    forall x :: x in issues ==> x.row.version >= 1 && x.connector in newest
  }

  ghost predicate RowsOk(issues: seq<Issue>, rows: Rows) {
    forall c :: c in rows ==> WasIssued(issues, c, rows[c])
  }

  ghost predicate PendingsOk(issues: seq<Issue>, pending: map<nat, Pending>) {
    forall h :: h in pending ==> PendingOk(issues, pending[h])
  }

  // Whatever was read, stored or is newest was issued.
  ghost predicate Inv(w: World) {
    && IssuesOk(w.issues, w.newest)
    && RowsOk(w.issues, w.newest)
    && RowsOk(w.issues, w.rows)
    && PendingsOk(w.issues, w.pending)
  }

  lemma ReadKeeps(w: World, h: nat, c: string, hash: string, fails: bool)
    requires Inv(w) && h !in w.pending
    ensures Inv(DoRead(w, h, c, hash, fails))
  {
    var read := if fails then None else Stored(w.rows, c);
    if read.Some? {
      assert Issue(c, read.value) in w.issues;
    }
    assert PendingOk(w.issues, Pending(c, read, Issued(read, hash)));
  }

  lemma RowsMore(issues: seq<Issue>, rows: Rows, c: string, row: Row)
    requires RowsOk(issues, rows)
    ensures RowsOk(issues + [Issue(c, row)], rows) && RowsOk(issues + [Issue(c, row)], rows[c := row])
  {
    var more := issues + [Issue(c, row)];
    assert more[|issues|] == Issue(c, row);
  }

  lemma PendingsMore(issues: seq<Issue>, pending: map<nat, Pending>, x: Issue, h: nat)
    requires PendingsOk(issues, pending)
    ensures PendingsOk(issues + [x], pending - {h})
  {
  }

  lemma WriteKeeps(w: World, h: nat, fails: bool)
    requires Inv(w) && h in w.pending
    ensures Inv(DoWrite(w, h, fails))
  {
    var p := w.pending[h];
    if p.read.Some? {
      assert Issue(p.connector, p.read.value) in w.issues;
    }
    RowsMore(w.issues, w.newest, p.connector, p.row);
    RowsMore(w.issues, w.rows, p.connector, p.row);
    PendingsMore(w.issues, w.pending, Issue(p.connector, p.row), h);
  }

  lemma StepKeeps(w: World, a: Action)
    requires Inv(w) && Enabled(w, a)
    ensures Inv(Step(w, a))
  {
    match a
    case Read(h, c, hash, fails) => ReadKeeps(w, h, c, hash, fails);
    case Write(h, fails) => WriteKeeps(w, h, fails);
  }

  // --- One hash a version ---

  // A version stands for one hash, and versions do not decrease.
  predicate InStep(x: Issue, y: Issue) {
    x.connector == y.connector ==>
      x.row.version <= y.row.version && (x.row.version == y.row.version ==> x.row.hash == y.row.hash)
  }

  ghost predicate OneHashEach(issues: seq<Issue>) {
    forall i, j :: 0 <= i < j < |issues| ==> InStep(issues[i], issues[j])
  }

  // A write finds nothing issued since its read, or issues what was issued last.
  predicate Undisturbed(w: World, a: Action)
    requires Enabled(w, a)
  {
    a.Write? ==>
      var p := w.pending[a.h];
      Stored(w.newest, p.connector) == p.read || Stored(w.newest, p.connector) == Some(p.row)
  }

  ghost predicate AllUndisturbed(w: World, run: seq<Action>)
    requires ValidRun(w, run)
    decreases |run|
  {
    run != [] ==> Undisturbed(w, run[0]) && AllUndisturbed(Step(w, run[0]), run[1..])
  }

  // As long as that holds, nothing issued for a connector is ahead of its newest row.
  ghost predicate NewestLast(w: World) {
    forall i :: 0 <= i < |w.issues| ==>
      var x := w.issues[i]; x.connector in w.newest && InStep(x, Issue(x.connector, w.newest[x.connector]))
  }

  lemma GoodWrite(w: World, h: nat, fails: bool)
    requires Inv(w) && Enabled(w, Write(h, fails)) && OneHashEach(w.issues) && NewestLast(w)
    requires Undisturbed(w, Write(h, fails))
    ensures OneHashEach(DoWrite(w, h, fails).issues) && NewestLast(DoWrite(w, h, fails))
  {
    var p := w.pending[h];
    var last := Issue(p.connector, p.row);
    assert PendingOk(w.issues, p);
    forall i | 0 <= i < |w.issues| ensures InStep(w.issues[i], last) {
      assert w.issues[i].connector in w.newest;
    }
  }

  // Otherwise the row issued falls behind the newest one, or gives its version to another hash.
  lemma BadWrite(w: World, h: nat, fails: bool)
    requires Inv(w) && Enabled(w, Write(h, fails)) && NewestLast(w) && !Undisturbed(w, Write(h, fails))
    ensures !OneHashEach(DoWrite(w, h, fails).issues)
  {
    var p := w.pending[h];
    assert PendingOk(w.issues, p);
    assert p.read.Some? ==> Issue(p.connector, p.read.value) in w.issues;
    assert p.connector in w.newest;
    var top, next := Issue(p.connector, w.newest[p.connector]), Issue(p.connector, p.row);
    assert WasIssued(w.issues, p.connector, top.row);
    assert p.read.Some? ==> InStep(Issue(p.connector, p.read.value), top);
    assert !InStep(top, next);
    var i :| 0 <= i < |w.issues| && w.issues[i] == top;
    assert (w.issues + [next])[i] == top && (w.issues + [next])[|w.issues|] == next;
  }

  // What was issued stays issued.
  lemma {:induction false} MixStays(w: World, run: seq<Action>)
    requires ValidRun(w, run)
    ensures w.issues <= AfterRun(w, run).issues
    ensures !OneHashEach(w.issues) ==> !OneHashEach(AfterRun(w, run).issues)
    decreases |run|
  {
    if run != [] {
      MixStays(Step(w, run[0]), run[1..]);
    }
  }

  lemma {:induction false} OneHashFrom(w: World, run: seq<Action>)
    requires Inv(w) && ValidRun(w, run) && OneHashEach(w.issues) && NewestLast(w)
    ensures OneHashEach(AfterRun(w, run).issues) <==> AllUndisturbed(w, run)
    decreases |run|
  {
    if run != [] {
      var a, v := run[0], Step(w, run[0]);
      StepKeeps(w, a);
      if !Undisturbed(w, a) {
        BadWrite(w, a.h, a.fails);
        MixStays(v, run[1..]);
      } else {
        if a.Write? {
          GoodWrite(w, a.h, a.fails);
        }
        OneHashFrom(v, run[1..]);
      }
    }
  }

  // In every run, whatever overlaps and fails, each connector's versions never decrease and stand for one hash
  // each exactly when every write finds nothing issued since its read, or issues what was issued last.
  lemma OneHashIffUndisturbed(run: seq<Action>)
    requires ValidRun(INITIAL, run)
    ensures OneHashEach(AfterRun(INITIAL, run).issues) <==> AllUndisturbed(INITIAL, run)
  {
    OneHashFrom(INITIAL, run);
  }

  // --- What the table shows of it ---

  predicate WritesSucceed(run: seq<Action>) {
    forall i :: 0 <= i < |run| && run[i].Write? ==> !run[i].fails
  }

  // While no write fails, the newest row is the stored one, so a statement could check the condition itself.
  lemma {:induction false} NewestIsStored(w: World, run: seq<Action>)
    requires ValidRun(w, run) && WritesSucceed(run) && w.newest == w.rows
    ensures AfterRun(w, run).newest == AfterRun(w, run).rows
    decreases |run|
  {
    if run != [] {
      assert forall i :: 0 <= i < |run| - 1 ==> run[1..][i] == run[i + 1];
      NewestIsStored(Step(w, run[0]), run[1..]);
    }
  }

  // No statement fails, and no compile reads while another one of its connector is about to write.
  predicate OneAtATime(w: World, run: seq<Action>)
    requires ValidRun(w, run)
    decreases |run|
  {
    run != [] ==>
      && !run[0].fails
      && (run[0].Read? ==> forall h :: h in w.pending ==> w.pending[h].connector != run[0].connector)
      && OneAtATime(Step(w, run[0]), run[1..])
  }

  predicate PendingCurrent(w: World) {
    && w.newest == w.rows
    && (forall h :: h in w.pending ==> w.pending[h].read == Stored(w.rows, w.pending[h].connector))
    && (forall g, h :: g in w.pending && h in w.pending && g != h ==> w.pending[g].connector != w.pending[h].connector)
  }

  lemma {:induction false} SerialUndisturbed(w: World, run: seq<Action>)
    requires ValidRun(w, run) && PendingCurrent(w) && OneAtATime(w, run)
    ensures AllUndisturbed(w, run)
    decreases |run|
  {
    if run != [] {
      SerialUndisturbed(Step(w, run[0]), run[1..]);
    }
  }

  lemma SerialOneHash(run: seq<Action>)
    requires ValidRun(INITIAL, run) && OneAtATime(INITIAL, run)
    ensures OneHashEach(AfterRun(INITIAL, run).issues)
  {
    SerialUndisturbed(INITIAL, run);
    OneHashIffUndisturbed(run);
  }

  lemma RunStep(w: World, a: Action, rest: seq<Action>)
    requires Enabled(w, a) && ValidRun(Step(w, a), rest)
    ensures ValidRun(w, [a] + rest) && AfterRun(w, [a] + rest) == AfterRun(Step(w, a), rest)
  {
    assert ([a] + rest)[1..] == rest;
  }

  // Two overlapping compiles of different hashes, both version 1.
  lemma OverlapMixes() returns (run: seq<Action>)
    ensures ValidRun(INITIAL, run) && WritesSucceed(run) && !OneHashEach(AfterRun(INITIAL, run).issues)
  {
    var a0, a1, a2, a3 := Read(0, "c", "a", false), Read(1, "c", "b", false), Write(0, false), Write(1, false);
    assert !InStep(Issue("c", Row(1, Some("a"))), Issue("c", Row(1, Some("b"))));
    var issues := Step(Step(Step(Step(INITIAL, a0), a1), a2), a3).issues;
    assert issues[0] == Issue("c", Row(1, Some("a"))) && issues[1] == Issue("c", Row(1, Some("b")));
    run := RunOfFour(a0, a1, a2, a3);
  }

  // And two in turn, the second of which fails to read.
  lemma FailedReadMixes() returns (run: seq<Action>)
    ensures ValidRun(INITIAL, run) && WritesSucceed(run) && !OneHashEach(AfterRun(INITIAL, run).issues)
  {
    var a0, a1, a2, a3 := Read(0, "c", "a", false), Write(0, false), Read(1, "c", "b", true), Write(1, false);
    assert !InStep(Issue("c", Row(1, Some("a"))), Issue("c", Row(1, Some("b"))));
    var issues := Step(Step(Step(Step(INITIAL, a0), a1), a2), a3).issues;
    assert issues[0] == Issue("c", Row(1, Some("a"))) && issues[1] == Issue("c", Row(1, Some("b")));
    run := RunOfFour(a0, a1, a2, a3);
  }

  // And two in turn that read without failure, when the first fails to write.
  lemma FailedWriteMixes() returns (run: seq<Action>)
    ensures ValidRun(INITIAL, run) && !OneHashEach(AfterRun(INITIAL, run).issues)
    ensures |run| == 4 && forall i :: 0 <= i < 4 ==> (run[i].fails <==> i == 1) && (run[i].Read? <==> i % 2 == 0)
  {
    var a0, a1, a2, a3 := Read(0, "c", "a", false), Write(0, true), Read(1, "c", "b", false), Write(1, false);
    assert !InStep(Issue("c", Row(1, Some("a"))), Issue("c", Row(1, Some("b"))));
    var issues := Step(Step(Step(Step(INITIAL, a0), a1), a2), a3).issues;
    assert issues[0] == Issue("c", Row(1, Some("a"))) && issues[1] == Issue("c", Row(1, Some("b")));
    run := RunOfFour(a0, a1, a2, a3);
  }

  lemma RunOfFour(a0: Action, a1: Action, a2: Action, a3: Action) returns (run: seq<Action>)
    requires Enabled(INITIAL, a0) && Enabled(Step(INITIAL, a0), a1)
    requires var w2 := Step(Step(INITIAL, a0), a1);
      Enabled(w2, a2) && Enabled(Step(w2, a2), a3) && !OneHashEach(Step(Step(w2, a2), a3).issues)
    ensures run == [a0, a1, a2, a3] && ValidRun(INITIAL, run) && !OneHashEach(AfterRun(INITIAL, run).issues)
  {
    var w1 := Step(INITIAL, a0);
    var w2 := Step(w1, a1);
    var w3 := Step(w2, a2);
    RunStep(w3, a3, []);
    RunStep(w2, a2, [a3] + []);
    RunStep(w1, a1, [a2] + ([a3] + []));
    RunStep(INITIAL, a0, [a1] + ([a2] + ([a3] + [])));
    run := [a0, a1, a2, a3];
    assert run == [a0] + ([a1] + ([a2] + ([a3] + [])));
  }
}
