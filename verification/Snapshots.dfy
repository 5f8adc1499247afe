// The normal form of a snapshot: resources in the order of their ids, identities in their own order.
module Snapshots {
  import opened PolicyPorts

  datatype Listed = Listed(resource: Resource, identities: seq<string>)

  // Go's order on strings: by the first character that differs, a prefix first.
  predicate Leq(a: string, b: string) {
    a == [] || (b != [] && (a[0] < b[0] || (a[0] == b[0] && Leq(a[1..], b[1..]))))
  }

  // The two agree up to some place, where the first ends or has the smaller character.
  predicate Before(a: string, b: string, n: nat) {
    n <= |a| && n <= |b| && a[..n] == b[..n] && (n == |a| || (n < |b| && a[n] < b[n]))
  }

  lemma FirstDiffers(a: string, b: string, n: nat)
    requires a != "" && b != "" && Before(a, b, n)
    ensures a[0] == b[0] || (n == 0 && a[0] < b[0])
  {
    if n > 0 {
      assert a[0] == a[..n][0] && b[0] == b[..n][0];
    }
  }

  lemma {:induction false} LeqMeans(a: string, b: string)
    ensures Leq(a, b) <==> exists n :: 0 <= n <= |a| && Before(a, b, n)
  {
    if a == "" {
      assert Before(a, b, 0);
    } else if b == "" {
    } else if a[0] == b[0] {
      LeqMeans(a[1..], b[1..]);
      if n :| 0 <= n <= |a| - 1 && Before(a[1..], b[1..], n) {
        assert a[..n + 1] == [a[0]] + a[1..][..n] && b[..n + 1] == [b[0]] + b[1..][..n];
        assert Before(a, b, n + 1);
      }
      if n :| 0 <= n <= |a| && Before(a, b, n) {
        assert n > 0 && a[1..][..n - 1] == a[..n][1..] && b[1..][..n - 1] == b[..n][1..];
        assert Before(a[1..], b[1..], n - 1);
      }
    } else {
      forall n | 0 <= n <= |a| && Before(a, b, n)
        ensures a[0] < b[0]
      {
        FirstDiffers(a, b, n);
      }
      assert a[0] < b[0] ==> Before(a, b, 0);
    }
  }

  lemma {:induction false} Total(a: string, b: string)
    ensures Leq(a, a) && (Leq(a, b) || Leq(b, a))
    ensures Leq(a, b) && Leq(b, a) ==> a == b
  {
    if a != [] {
      Total(a[1..], if b == [] then b else b[1..]);
    }
    if a != [] && b != [] && a[0] == b[0] && a[1..] == b[1..] {
      assert a == [a[0]] + a[1..] && b == [b[0]] + b[1..];
    }
  }

  lemma {:induction false} Transitive(a: string, b: string, c: string)
    requires Leq(a, b) && Leq(b, c)
    ensures Leq(a, c)
  {
    if a != [] && a[0] == b[0] == c[0] {
      Transitive(a[1..], b[1..], c[1..]);
    }
  }

  // --- Sorting ---

  predicate Sorted(s: seq<string>) {
    forall i, j :: 0 <= i < j < |s| ==> Leq(s[i], s[j])
  }

  function Insert(x: string, s: seq<string>): seq<string> {
    if s == [] || Leq(x, s[0]) then [x] + s else [s[0]] + Insert(x, s[1..])
  }

  function Sort(s: seq<string>): seq<string> {
    if s == [] then [] else Insert(s[0], Sort(s[1..]))
  }

  lemma {:induction false} InsertKeeps(x: string, s: seq<string>)
    ensures multiset(Insert(x, s)) == multiset(s) + multiset{x}
  {
    if s != [] && !Leq(x, s[0]) {
      InsertKeeps(x, s[1..]);
      assert s == [s[0]] + s[1..];
    }
  }

  lemma {:induction false} InsertSorts(x: string, s: seq<string>)
    requires Sorted(s)
    ensures Sorted(Insert(x, s))
  {
    if s == [] {
    } else if Leq(x, s[0]) {
      forall j | 0 <= j < |s| ensures Leq(x, s[j]) {
        Total(s[0], s[0]);
        Transitive(x, s[0], s[j]);
      }
    } else {
      Total(x, s[0]);
      InsertSorts(x, s[1..]);
      InsertKeeps(x, s[1..]);
      forall y | y in Insert(x, s[1..]) ensures Leq(s[0], y) {
        assert y in multiset(s[1..]) + multiset{x};
      }
    }
  }

  lemma {:induction false} SortSorts(s: seq<string>)
    ensures Sorted(Sort(s)) && multiset(Sort(s)) == multiset(s)
  {
    if s != [] {
      SortSorts(s[1..]);
      InsertKeeps(s[0], Sort(s[1..]));
      InsertSorts(s[0], Sort(s[1..]));
      assert s == [s[0]] + s[1..];
    }
  }

  lemma SameHead(s: seq<string>, t: seq<string>)
    requires Sorted(s) && Sorted(t) && multiset(s) == multiset(t) && s != []
    ensures t != [] && s[0] == t[0]
  {
    assert s[0] in multiset(t);
    assert t[0] in multiset(s);
    Total(s[0], t[0]);
  }

  // A multiset has one sorted listing.
  lemma {:induction false} SortedUnique(s: seq<string>, t: seq<string>)
    requires Sorted(s) && Sorted(t) && multiset(s) == multiset(t)
    ensures s == t
  {
    assert |s| == |multiset(s)| == |t|;
    if s != [] {
      SameHead(s, t);
      assert s == [s[0]] + s[1..] && t == [t[0]] + t[1..];
      assert multiset(s[1..]) == multiset(s) - multiset{s[0]} == multiset(t[1..]);
      SortedUnique(s[1..], t[1..]);
    }
  }

  // --- Snapshots ---

  ghost predicate Ordered(s: seq<Listed>) {
    forall i, j :: 0 <= i < j < |s| ==> Leq(s[i].resource.id, s[j].resource.id)
  }

  ghost predicate DistinctIds(s: seq<Listed>) {
    forall i, j :: 0 <= i < j < |s| ==> s[i].resource.id != s[j].resource.id
  }

  function Place(x: Listed, s: seq<Listed>): seq<Listed> {
    if s == [] || Leq(x.resource.id, s[0].resource.id) then [x] + s else [s[0]] + Place(x, s[1..])
  }

  function ById(s: seq<Listed>): seq<Listed> {
    if s == [] then [] else Place(s[0], ById(s[1..]))
  }

  function Tidied(s: seq<Listed>): seq<Listed> {
    seq(|s|, i requires 0 <= i < |s| => s[i].(identities := Sort(s[i].identities)))
  }

  function Normalized(s: seq<Listed>): seq<Listed> {
    Tidied(ById(s))
  }

  // Sorts the resources and then, in place, each one's identities.
  method NormalizeSnapshot(resources: seq<Listed>) returns (r: seq<Listed>)
    ensures r == Normalized(resources)
  {
    r := ById(resources);
    ghost var byId := r;
    for i := 0 to |r|
      invariant |r| == |byId|
      invariant forall j :: 0 <= j < i ==> r[j] == byId[j].(identities := Sort(byId[j].identities))
      invariant forall j :: i <= j < |r| ==> r[j] == byId[j]
    {
      r := r[i := r[i].(identities := Sort(r[i].identities))];
    }
  }

  lemma {:induction false} PlaceKeeps(x: Listed, s: seq<Listed>)
    ensures |Place(x, s)| == |s| + 1 && forall y :: y in Place(x, s) <==> y == x || y in s
    ensures Ordered(s) ==> Ordered(Place(x, s))
  {
    if s == [] {
    } else if Leq(x.resource.id, s[0].resource.id) {
      if Ordered(s) {
        forall j | 0 < j < |s| ensures Leq(x.resource.id, s[j].resource.id) {
          Transitive(x.resource.id, s[0].resource.id, s[j].resource.id);
        }
      }
    } else {
      Total(x.resource.id, s[0].resource.id);
      PlaceKeeps(x, s[1..]);
      assert s == [s[0]] + s[1..];
      if Ordered(s) {
        forall y | y in Place(x, s[1..]) ensures Leq(s[0].resource.id, y.resource.id) {
        }
      }
    }
  }

  lemma {:induction false} ByIdSorts(s: seq<Listed>)
    ensures |ById(s)| == |s| && Ordered(ById(s)) && forall y :: y in ById(s) <==> y in s
  {
    if s != [] {
      ByIdSorts(s[1..]);
      PlaceKeeps(s[0], ById(s[1..]));
      assert s == [s[0]] + s[1..];
    }
  }

  // The same resource with the same identities in some order.
  predicate Same(x: Listed, y: Listed) {
    x.resource == y.resource && multiset(x.identities) == multiset(y.identities)
  }

  ghost predicate Covers(s: seq<Listed>, t: seq<Listed>) {
    forall x :: x in s ==> exists y :: y in t && Same(x, y)
  }

  lemma TidiedSame(s: seq<Listed>, i: nat)
    requires i < |s|
    ensures Same(s[i], Tidied(s)[i]) && Sorted(Tidied(s)[i].identities) && Tidied(s)[i].resource == s[i].resource
  {
    SortSorts(s[i].identities);
  }

  lemma TidiedCovers(s: seq<Listed>)
    ensures Covers(s, Tidied(s)) && Covers(Tidied(s), s)
  {
    var t := Tidied(s);
    forall x | x in s ensures exists y :: y in t && Same(x, y) {
      var i :| 0 <= i < |s| && s[i] == x;
      TidiedSame(s, i);
      assert t[i] in t;
    }
    forall x | x in t ensures exists y :: y in s && Same(x, y) {
      var i :| 0 <= i < |t| && t[i] == x;
      TidiedSame(s, i);
      assert s[i] in s && Same(x, s[i]);
    }
  }

  ghost predicate Normal(s: seq<Listed>) {
    Ordered(s) && forall i :: 0 <= i < |s| ==> Sorted(s[i].identities)
  }

  // The normal form lists the same resources with the same identities, both in order.
  lemma NormalizedSame(s: seq<Listed>)
    ensures |Normalized(s)| == |s| && Normal(Normalized(s))
    ensures Covers(s, Normalized(s)) && Covers(Normalized(s), s)
  {
    ByIdSorts(s);
    var b := ById(s);
    TidiedCovers(b);
    forall i | 0 <= i < |b| ensures Sorted(Tidied(b)[i].identities) && Tidied(b)[i].resource == b[i].resource {
      TidiedSame(b, i);
    }
    forall x | x in s ensures exists y :: y in Tidied(b) && Same(x, y) {
      assert x in b;
    }
  }

  lemma {:induction false} PlaceDistinct(x: Listed, s: seq<Listed>)
    requires DistinctIds(s) && forall y :: y in s ==> y.resource.id != x.resource.id
    ensures DistinctIds(Place(x, s))
  {
    if s != [] && !Leq(x.resource.id, s[0].resource.id) {
      PlaceDistinct(x, s[1..]);
      PlaceKeeps(x, s[1..]);
      forall y | y in Place(x, s[1..]) ensures y.resource.id != s[0].resource.id {
        assert y == x || y in s[1..];
      }
    }
  }

  lemma {:induction false} ByIdDistinct(s: seq<Listed>)
    requires DistinctIds(s)
    ensures DistinctIds(ById(s))
  {
    if s != [] {
      ByIdDistinct(s[1..]);
      ByIdSorts(s[1..]);
      PlaceDistinct(s[0], ById(s[1..]));
    }
  }

  lemma NormalizedDistinct(s: seq<Listed>)
    requires DistinctIds(s)
    ensures DistinctIds(Normalized(s))
  {
    ByIdDistinct(s);
    ByIdSorts(s);
  }

  lemma CoversTransitive(s: seq<Listed>, t: seq<Listed>, u: seq<Listed>)
    requires Covers(s, t) && Covers(t, u)
    ensures Covers(s, u)
  {
    forall x | x in s ensures exists z :: z in u && Same(x, z) {
      var y :| y in t && Same(x, y);
      var z :| z in u && Same(y, z);
    }
  }

  lemma LeastFirst(s: seq<Listed>, x: Listed)
    requires Ordered(s) && x in s
    ensures Leq(s[0].resource.id, x.resource.id)
  {
    Total(s[0].resource.id, s[0].resource.id);
  }

  lemma FirstById(s: seq<Listed>, x: Listed)
    requires DistinctIds(s) && x in s && x.resource.id == s[0].resource.id
    ensures x == s[0]
  {
  }

  // The first of s is matched by something in t, so t's first id is not greater.
  lemma FirstId(s: seq<Listed>, t: seq<Listed>) returns (y: Listed)
    requires Ordered(t) && Covers(s, t) && s != []
    ensures y in t && Same(s[0], y) && Leq(t[0].resource.id, s[0].resource.id)
  {
    assert s[0] in s;
    y :| y in t && Same(s[0], y);
    LeastFirst(t, y);
  }

  lemma SameFirst(s: seq<Listed>, t: seq<Listed>)
    requires Normal(s) && Normal(t) && DistinctIds(t) && Covers(s, t) && Covers(t, s) && s != [] && t != []
    ensures s[0] == t[0]
  {
    var y := FirstId(s, t);
    var x := FirstId(t, s);
    Total(s[0].resource.id, t[0].resource.id);
    FirstById(t, y);
    SortedUnique(s[0].identities, t[0].identities);
  }

  lemma CoversRest(s: seq<Listed>, t: seq<Listed>)
    requires DistinctIds(s) && Covers(s, t) && s != [] && t != [] && s[0] == t[0]
    ensures Covers(s[1..], t[1..])
  {
    forall x | x in s[1..] ensures exists y :: y in t[1..] && Same(x, y) {
      var i :| 0 < i < |s| && s[i] == x;
      assert x in s && x.resource.id != s[0].resource.id;
      var y :| y in t && Same(x, y);
      assert y != t[0];
      var j :| 0 <= j < |t| && t[j] == y;
      assert t[1..][j - 1] == y;
    }
  }

  lemma HasMember(s: seq<Listed>)
    ensures s == [] || exists x :: x in s
  {
    if s != [] {
      assert s[0] in s;
    }
  }

  lemma CoversNothing(s: seq<Listed>)
    requires Covers(s, [])
    ensures s == []
  {
    HasMember(s);
  }

  lemma {:induction false} NormalUnique(s: seq<Listed>, t: seq<Listed>)
    requires Normal(s) && Normal(t) && DistinctIds(s) && DistinctIds(t) && Covers(s, t) && Covers(t, s)
    ensures s == t
  {
    if s == [] {
      CoversNothing(t);
    } else {
      assert s[0] in s;
      SameFirst(s, t);
      CoversRest(s, t);
      CoversRest(t, s);
      NormalUnique(s[1..], t[1..]);
      assert s == [s[0]] + s[1..] && t == [t[0]] + t[1..];
    }
  }

  // Two snapshots have one normal form exactly when they list the same resources with the same
  // identities, in whatever order.
  lemma Canonical(s: seq<Listed>, t: seq<Listed>)
    requires DistinctIds(s) && DistinctIds(t)
    ensures Normalized(s) == Normalized(t) <==> Covers(s, t) && Covers(t, s)
  {
    NormalizedSame(s);
    NormalizedSame(t);
    if Normalized(s) == Normalized(t) {
      CoversTransitive(s, Normalized(s), t);
      CoversTransitive(t, Normalized(s), s);
    }
    if Covers(s, t) && Covers(t, s) {
      NormalizedDistinct(s);
      NormalizedDistinct(t);
      CoversTransitive(Normalized(s), s, t);
      CoversTransitive(Normalized(s), t, Normalized(t));
      CoversTransitive(Normalized(t), t, s);
      CoversTransitive(Normalized(t), s, Normalized(s));
      NormalUnique(Normalized(s), Normalized(t));
    }
  }
}
