// The version number of a connector's policy, and the normal form of a snapshot.
module PolicyVersions {
  import opened Wrappers

  // A row of connector_policy_versions.
  datatype Row = Row(version: int, hash: Option<string>)

  type Rows = map<string, Row>

  function Stored(rows: Rows, c: string): Option<Row> {
    if c in rows then Some(rows[c]) else None
  }

  // The row written for a hash, after a row was read or none: a missing row reads as version 0.
  function Issued(read: Option<Row>, hash: string): Row {
    if read.None? then Row(1, Some(hash))
    else if read.value.version == 0 || read.value.hash != Some(hash) then Row(read.value.version + 1, Some(hash))
    else read.value
  }

  function Next(rows: Rows, c: string, hash: string): int {
    Issued(Stored(rows, c), hash).version
  }

  function Compiled(rows: Rows, c: string, hash: string): Rows {
    rows[c := Issued(Stored(rows, c), hash)]
  }

  class VersionTable {
    var rows: Rows

    constructor ()
      ensures rows == map[]
    {
      rows := map[];
    }

    // The errors of both statements are ignored: a failed read counts as a missing row, so that the version
    // starts again at 1, and a failed write leaves the row as it was.
    method PolicyVersion(c: string, hash: string, readFails: bool, writeFails: bool) returns (version: int)
      modifies this
      ensures var row := Issued(if readFails then None else Stored(old(rows), c), hash);
        version == row.version && rows == if writeFails then old(rows) else old(rows)[c := row]
    {
      version := 0;
      var existing: Option<string> := None;
      if !readFails && c in rows {
        version, existing := rows[c].version, rows[c].hash;
      }
      if version == 0 || existing.None? || existing.value != hash {
        version := version + 1;
      }
      if !writeFails {
        rows := rows[c := Row(version, Some(hash))];
      }
    }
  }

  // --- Serial runs ---

  datatype Compile = Compile(connector: string, hash: string)

  function After(run: seq<Compile>): Rows {
    if run == [] then map[]
    else
      var n := |run| - 1;
      Compiled(After(run[..n]), run[n].connector, run[n].hash)
  }

  // The version the i-th compile of a run returns.
  function Version(run: seq<Compile>, i: nat): int
    requires i < |run|
  {
    Next(After(run[..i]), run[i].connector, run[i].hash)
  }

  // The hashes compiled for one connector, in order, and how often one differs from the one before.
  function HashesOf(run: seq<Compile>, c: string): seq<string> {
    if run == [] then []
    else
      var n := |run| - 1;
      if run[n].connector == c then HashesOf(run[..n], c) + [run[n].hash] else HashesOf(run[..n], c)
  }

  function Changes(s: seq<string>): nat {
    if |s| < 2 then 0
    else Changes(s[..|s| - 1]) + if s[|s| - 1] != s[|s| - 2] then 1 else 0
  }

  lemma {:induction false} RowIs(run: seq<Compile>, c: string)
    ensures var s := HashesOf(run, c);
      if s == [] then c !in After(run)
      else c in After(run) && After(run)[c] == Row(1 + Changes(s), Some(s[|s| - 1]))
  {
    if run != [] {
      var n := |run| - 1;
      RowIs(run[..n], c);
      var before := HashesOf(run[..n], c);
      if run[n].connector == c {
        AppendHash(before, run[n].hash);
      }
    }
  }

  lemma AppendHash(s: seq<string>, h: string)
    ensures Changes(s + [h]) == Changes(s) + if s != [] && h != s[|s| - 1] then 1 else 0
  {
    assert (s + [h])[..|s|] == s;
  }

  // A compile returns one more than the number of times the connector's hash has changed so far.
  lemma VersionCounts(run: seq<Compile>, i: nat)
    requires i < |run|
    ensures Version(run, i) == 1 + Changes(HashesOf(run[..i + 1], run[i].connector))
  {
    var c := run[i].connector;
    RowIs(run[..i], c);
    assert run[..i + 1][..i] == run[..i];
    var before := HashesOf(run[..i], c);
    assert HashesOf(run[..i + 1], c)[..|before|] == before;
  }

  lemma {:induction false} ChangesGrow(s: seq<string>, n: nat)
    requires 0 < n <= |s|
    ensures Changes(s[..n]) <= Changes(s)
    ensures Changes(s[..n]) == Changes(s) ==> s[n - 1] == s[|s| - 1]
  {
    if n == |s| {
      assert s[..n] == s;
    } else {
      var t := s[..|s| - 1];
      ChangesGrow(t, n);
      assert t[..n] == s[..n];
    }
  }

  lemma {:induction false} HashesPrefix(run: seq<Compile>, i: nat, c: string)
    requires i <= |run|
    ensures HashesOf(run[..i], c) <= HashesOf(run, c)
  {
    if i == |run| {
      assert run[..i] == run;
    } else {
      var n := |run| - 1;
      HashesPrefix(run[..n], i, c);
      assert run[..n][..i] == run[..i];
    }
  }

  // As long as the statements succeed, versions of one connector start at 1, never decrease, and stay the
  // same only with the same hash.
  lemma OneHashAVersion(run: seq<Compile>, i: nat, j: nat)
    requires i <= j < |run| && run[i].connector == run[j].connector
    ensures 1 <= Version(run, i) <= Version(run, j)
    ensures Version(run, i) == Version(run, j) ==> run[i].hash == run[j].hash
  {
    var c := run[i].connector;
    VersionCounts(run, i);
    VersionCounts(run, j);
    var s, t := HashesOf(run[..i + 1], c), HashesOf(run[..j + 1], c);
    HashesPrefix(run[..j + 1], i + 1, c);
    assert run[..j + 1][..i + 1] == run[..i + 1];
    assert run[..i + 1][i] == run[i] && run[..j + 1][j] == run[j];
    ChangesGrow(t, |s|);
    assert t[..|s|] == s;
  }

  // From one compile of a connector to its next the version rises by one exactly when the hash differs.
  lemma RisesWithTheHash(run: seq<Compile>, i: nat, j: nat)
    requires i < j < |run| && run[i].connector == run[j].connector
    requires forall k :: i < k < j ==> run[k].connector != run[i].connector
    ensures Version(run, j) == Version(run, i) + if run[j].hash == run[i].hash then 0 else 1
  {
    var c := run[i].connector;
    VersionCounts(run, i);
    VersionCounts(run, j);
    OthersAddNothing(run, i + 1, j, c);
    assert run[..j + 1][..j] == run[..j] && run[..i + 1][..i] == run[..i];
    var s := HashesOf(run[..i + 1], c);
    assert HashesOf(run[..j + 1], c) == s + [run[j].hash];
    assert (s + [run[j].hash])[..|s|] == s;
  }

  lemma {:induction false} OthersAddNothing(run: seq<Compile>, i: nat, j: nat, c: string)
    requires i <= j <= |run| && forall k :: i <= k < j ==> run[k].connector != c
    ensures HashesOf(run[..j], c) == HashesOf(run[..i], c)
    decreases j
  {
    if i < j {
      OthersAddNothing(run, i, j - 1, c);
      assert run[..j][..j - 1] == run[..j - 1];
    }
  }

  // --- Overlapping compiles and failing writes ---

  // Two compiles of different hashes that read the same row, because they overlap or because the first
  // one's write fails, get one version exactly when neither hash is the stored one.
  lemma OverlapSharesVersion(rows: Rows, c: string, a: string, b: string)
    requires a != b
    ensures Next(rows, c, a) == Next(rows, c, b) <==>
      c !in rows || rows[c].version == 0 || (rows[c].hash != Some(a) && rows[c].hash != Some(b))
  {
  }

  // Two first compiles of a connector that both find no row are both version 1; the row keeps the hash written
  // last, and compiling the other hash again moves on to version 2.
  lemma FirstCompilesShare(c: string, a: string, b: string)
    requires a != b
    ensures Next(map[], c, a) == Next(map[], c, b) == 1
    ensures var rows: Rows := map[c := Row(1, Some(a))][c := Row(1, Some(b))];
      Next(rows, c, a) == 2 && Next(rows, c, b) == 1
  {
  }
}
