// The in-memory ACL store: authorizations in one growing buffer that deletions compact in place.
module AclStore {
  import opened Wrappers

  datatype Filter = Filter(protocol: string, portFrom: int, portTo: int)

  datatype Authorization = Authorization(principal: string, resource: string, filters: seq<Filter>)

  datatype Resource = Resource(id: string, name: string, address: string)

  type Key = (string, string)

  function KeyOf(a: Authorization): Key {
    (a.resource, a.principal)
  }

  // --- The operations on the list ---

  function Keep(s: seq<Authorization>, f: Authorization -> bool): seq<Authorization> {
    if s == [] then []
    else
      var n := |s| - 1;
      if f(s[n]) then Keep(s[..n], f) + [s[n]] else Keep(s[..n], f)
  }

  function NotOf(resource: string): Authorization -> bool {
    (a: Authorization) => a.resource != resource
  }

  function NotAt(resource: string, principal: string): Authorization -> bool {
    (a: Authorization) => !(a.resource == resource && a.principal == principal)
  }

  function Refiltered(s: seq<Authorization>, resource: string, filters: seq<Filter>): seq<Authorization> {
    seq(|s|, i requires 0 <= i < |s| => if s[i].resource == resource then s[i].(filters := filters) else s[i])
  }

  function First(s: seq<Authorization>, key: Key): (r: Option<nat>)
    ensures r.Some? ==> r.value < |s| && KeyOf(s[r.value]) == key && forall i :: 0 <= i < r.value ==> KeyOf(s[i]) != key
    ensures r.None? ==> forall i :: 0 <= i < |s| ==> KeyOf(s[i]) != key
  {
    if s == [] then None
    else if KeyOf(s[0]) == key then Some(0)
    else
      var r := First(s[1..], key);
      if r.Some? then Some(r.value + 1) else None
  }

  function Assigned(s: seq<Authorization>, key: Key, filters: seq<Filter>): seq<Authorization> {
    var i := First(s, key);
    if i.Some? then s[i.value := s[i.value].(filters := filters)] else s + [Authorization(key.1, key.0, filters)]
  }

  function Values(m: map<string, Resource>, order: seq<string>): seq<Resource>
    requires forall k :: k in order ==> k in m
  {
    seq(|order|, i requires 0 <= i < |order| => m[order[i]])
  }

  class Store {
    var resources: map<string, Resource>
    var data: array<Authorization>
    var len: nat

    ghost predicate Valid()
      reads this
    {
      len <= data.Length
    }

    ghost function Contents(): seq<Authorization>
      reads this, data
      requires Valid()
    {
      data[..len]
    }

    constructor ()
      ensures Valid() && fresh(data) && Contents() == [] && resources == map[]
    {
      resources := map[];
      data := new Authorization[0];
      len := 0;
    }

    // The resources, each once in the map's own order, and a copy of the list in a buffer of its own.
    method Snapshot() returns (listed: seq<Resource>, auths: array<Authorization>)
      requires Valid()
      ensures exists order :: Lists(order, resources.Keys) && listed == Values(resources, order)
      ensures fresh(auths) && auths[..] == Contents()
    {
      listed := [];
      ghost var order: seq<string> := [];
      var left := resources.Keys;
      while left != {}
        invariant left <= resources.Keys
        invariant forall k :: k in order ==> k !in left
        invariant Lists(order, resources.Keys - left) && listed == Values(resources, order)
        decreases left
      {
        var k :| k in left;
        left := left - {k};
        order := order + [k];
        listed := listed + [resources[k]];
      }
      var n, source := len, data;
      auths := new Authorization[n](i requires 0 <= i < n && n <= source.Length reads source => source[i]);
    }

    // Appends in place while there is room, and otherwise moves to a larger buffer.
    method AddAuthorization(a: Authorization)
      requires Valid()
      modifies this, data
      ensures Valid() && (data == old(data) || fresh(data)) && resources == old(resources)
      ensures Contents() == old(Contents()) + [a]
    {
      if len == data.Length {
        var n, source := len, data;
        data := new Authorization[2 * n + 1](i requires 0 <= i < 2 * n + 1 && n <= source.Length
                                               reads source => if i < n then source[i] else a);
        assert data[..n] == source[..n];
      }
      data[len] := a;
      len := len + 1;
    }

    method UpsertResource(r: Resource) returns (ok: bool)
      requires Valid()
      modifies this`resources
      ensures ok <==> r.id != ""
      ensures resources == if ok then old(resources)[r.id := r] else old(resources)
    {
      ok := r.id != "";
      if ok {
        resources := resources[r.id := r];
      }
    }

    method DeleteResource(resource: string)
      requires Valid()
      modifies this, data
      ensures Valid() && data == old(data) && resources == old(resources) - {resource}
      ensures Contents() == Keep(old(Contents()), NotOf(resource))
    {
      resources := resources - {resource};
      ghost var was := Contents();
      var n, k := len, 0;
      for i := 0 to n
        invariant 0 <= k <= i && len == n && data == old(data) && resources == old(resources) - {resource}
        invariant forall j :: i <= j < n ==> data[j] == was[j]
        invariant data[..k] == Keep(was[..i], NotOf(resource))
      {
        var a := data[i];
        assert a == was[i] && was[..i + 1][..i] == was[..i];
        if a.resource != resource {
          data[k] := a;
          k := k + 1;
          assert data[..k] == data[..k - 1] + [a];
        }
      }
      assert was[..n] == was;
      len := k;
    }

    method RemoveAssignment(resource: string, principal: string)
      requires Valid()
      modifies this`len, data
      ensures Valid() && data == old(data)
      ensures Contents() == Keep(old(Contents()), NotAt(resource, principal))
    {
      ghost var was := Contents();
      var n, k := len, 0;
      for i := 0 to n
        invariant 0 <= k <= i && len == n && data == old(data)
        invariant forall j :: i <= j < n ==> data[j] == was[j]
        invariant data[..k] == Keep(was[..i], NotAt(resource, principal))
      {
        var a := data[i];
        assert a == was[i] && was[..i + 1][..i] == was[..i];
        if !(a.resource == resource && a.principal == principal) {
          data[k] := a;
          k := k + 1;
          assert data[..k] == data[..k - 1] + [a];
        }
      }
      assert was[..n] == was;
      len := k;
    }

    method UpdateFilters(resource: string, filters: seq<Filter>)
      requires Valid()
      modifies data
      ensures Valid() && Contents() == Refiltered(old(Contents()), resource, filters)
    {
      for i := 0 to len
        invariant forall j :: 0 <= j < i ==> data[j] == Refiltered(old(Contents()), resource, filters)[j]
        invariant forall j :: i <= j < len ==> data[j] == old(data[j])
      {
        if data[i].resource == resource {
          data[i] := data[i].(filters := filters);
        }
      }
    }

    // The first match gets the new filters; without one the pair is appended.
    method AssignPrincipal(resource: string, principal: string, filters: seq<Filter>) returns (ok: bool)
      requires Valid()
      modifies this, data
      ensures Valid() && (data == old(data) || fresh(data)) && resources == old(resources)
      ensures ok <==> resource != "" && principal != ""
      ensures Contents() == if ok then Assigned(old(Contents()), (resource, principal), filters) else old(Contents())
    {
      if resource == "" || principal == "" {
        return false;
      }
      for i := 0 to len
        invariant Contents() == old(Contents()) && data == old(data) && resources == old(resources)
        invariant forall j :: 0 <= j < i ==> KeyOf(data[j]) != (resource, principal)
      {
        if data[i].resource == resource && data[i].principal == principal {
          assert First(Contents(), (resource, principal)) == Some(i);
          data[i] := data[i].(filters := filters);
          return true;
        }
      }
      assert First(Contents(), (resource, principal)) == None;
      AddAuthorization(Authorization(principal, resource, filters));
      return true;
    }
  }

  // A snapshot taken earlier sees neither compaction of the buffer it was copied from.
  method DeleteAfterSnapshot(s: Store, resource: string) returns (auths: array<Authorization>)
    requires s.Valid()
    modifies s, s.data
    ensures s.Valid() && auths[..] == old(s.Contents())
    ensures s.Contents() == Keep(old(s.Contents()), NotOf(resource))
  {
    var _, copy := s.Snapshot();
    auths := copy;
    s.DeleteResource(resource);
  }

  method RemoveAfterSnapshot(s: Store, resource: string, principal: string) returns (auths: array<Authorization>)
    requires s.Valid()
    modifies s, s.data
    ensures s.Valid() && auths[..] == old(s.Contents())
    ensures s.Contents() == Keep(old(s.Contents()), NotAt(resource, principal))
  {
    var _, copy := s.Snapshot();
    auths := copy;
    s.RemoveAssignment(resource, principal);
  }

  // --- The store as a map from pairs to filters ---

  ghost predicate Distinct(s: seq<Authorization>) {
    forall i, j :: 0 <= i < j < |s| ==> KeyOf(s[i]) != KeyOf(s[j])
  }

  ghost predicate Represents(s: seq<Authorization>, m: map<Key, seq<Filter>>) {
    && Distinct(s)
    && (forall i :: 0 <= i < |s| ==> KeyOf(s[i]) in m && m[KeyOf(s[i])] == s[i].filters)
    && (forall k :: k in m ==> exists i :: 0 <= i < |s| && KeyOf(s[i]) == k)
  }

  lemma AssignRefines(s: seq<Authorization>, m: map<Key, seq<Filter>>, key: Key, filters: seq<Filter>)
    requires Represents(s, m)
    ensures Represents(Assigned(s, key, filters), m[key := filters])
    ensures |s| <= |Assigned(s, key, filters)|
    ensures forall i :: 0 <= i < |s| ==> KeyOf(Assigned(s, key, filters)[i]) == KeyOf(s[i])
  {
    var t := Assigned(s, key, filters);
    assert forall i :: 0 <= i < |s| ==> KeyOf(t[i]) == KeyOf(s[i]);
    if First(s, key).None? {
      assert KeyOf(t[|s|]) == key;
    }
  }

  lemma UpdateRefines(s: seq<Authorization>, m: map<Key, seq<Filter>>, resource: string, filters: seq<Filter>)
    requires Represents(s, m)
    ensures Represents(Refiltered(s, resource, filters), map k | k in m :: if k.0 == resource then filters else m[k])
  {
    var t := Refiltered(s, resource, filters);
    assert forall i :: 0 <= i < |s| ==> KeyOf(t[i]) == KeyOf(s[i]);
  }

  // What is kept, in the order it was in.
  lemma {:induction false} KeepMembers(s: seq<Authorization>, f: Authorization -> bool)
    ensures forall x :: x in Keep(s, f) <==> x in s && f(x)
  {
    if s != [] {
      KeepMembers(s[..|s| - 1], f);
    }
  }

  lemma {:induction false} KeepDistinct(s: seq<Authorization>, f: Authorization -> bool)
    requires Distinct(s)
    ensures Distinct(Keep(s, f))
  {
    if s != [] {
      var n := |s| - 1;
      KeepDistinct(s[..n], f);
      KeepMembers(s[..n], f);
      assert forall x :: x in s[..n] ==> KeyOf(x) != KeyOf(s[n]);
    }
  }

  lemma {:induction false} KeepOrder(s: seq<Authorization>, f: Authorization -> bool, i: nat, j: nat)
    requires i < j < |s| && f(s[i]) && f(s[j])
    ensures exists a, b :: 0 <= a < b < |Keep(s, f)| && Keep(s, f)[a] == s[i] && Keep(s, f)[b] == s[j]
  {
    var n := |s| - 1;
    var rest := Keep(s[..n], f);
    if j < n {
      KeepOrder(s[..n], f, i, j);
      var a, b :| 0 <= a < b < |rest| && rest[a] == s[i] && rest[b] == s[j];
      assert Keep(s, f)[a] == s[i] && Keep(s, f)[b] == s[j];
    } else {
      KeepMembers(s[..n], f);
      assert s[..n][i] in rest;
      var a :| 0 <= a < |rest| && rest[a] == s[i];
      assert Keep(s, f)[a] == s[i] && Keep(s, f)[|rest|] == s[j];
    }
  }

  lemma KeepRefines(s: seq<Authorization>, m: map<Key, seq<Filter>>, f: Authorization -> bool, gone: set<Key>)
    requires Represents(s, m) && forall a :: a in s ==> (f(a) <==> KeyOf(a) !in gone)
    ensures Represents(Keep(s, f), m - gone)
  {
    var t := Keep(s, f);
    KeepMembers(s, f);
    KeepDistinct(s, f);
    forall i | 0 <= i < |t| ensures KeyOf(t[i]) in m - gone && m[KeyOf(t[i])] == t[i].filters {
      assert t[i] in s;
    }
    forall k | k in m - gone ensures exists i :: 0 <= i < |t| && KeyOf(t[i]) == k {
      var i :| 0 <= i < |s| && KeyOf(s[i]) == k;
      assert s[i] in t;
    }
  }

  // --- Whole runs ---

  datatype Op =
    | Assign(resource: string, principal: string, filters: seq<Filter>)
    | Remove(resource: string, principal: string)
    | Delete(resource: string)
    | Update(resource: string, filters: seq<Filter>)

  function OnList(s: seq<Authorization>, op: Op): seq<Authorization> {
    match op
    case Assign(r, p, filters) => if r == "" || p == "" then s else Assigned(s, (r, p), filters)
    case Remove(r, p) => Keep(s, NotAt(r, p))
    case Delete(r) => Keep(s, NotOf(r))
    case Update(r, filters) => Refiltered(s, r, filters)
  }

  function OnMap(m: map<Key, seq<Filter>>, op: Op): map<Key, seq<Filter>> {
    match op
    case Assign(r, p, filters) => if r == "" || p == "" then m else m[(r, p) := filters]
    case Remove(r, p) => m - {(r, p)}
    case Delete(r) => m - (set k | k in m && k.0 == r)
    case Update(r, filters) => map k | k in m :: if k.0 == r then filters else m[k]
  }

  lemma OpRefines(s: seq<Authorization>, m: map<Key, seq<Filter>>, op: Op)
    requires Represents(s, m)
    ensures Represents(OnList(s, op), OnMap(m, op))
  {
    match op
    case Assign(r, p, filters) => AssignRefines(s, m, (r, p), filters);
    case Remove(r, p) => KeepRefines(s, m, NotAt(r, p), {(r, p)});
    case Delete(r) =>
      assert forall a :: a in s ==> KeyOf(a) in m;
      KeepRefines(s, m, NotOf(r), set k | k in m && k.0 == r);
    case Update(r, filters) => UpdateRefines(s, m, r, filters);
  }

  function ListAfter(s: seq<Authorization>, ops: seq<Op>): seq<Authorization> {
    if ops == [] then s else OnList(ListAfter(s, ops[..|ops| - 1]), ops[|ops| - 1])
  }

  function MapAfter(m: map<Key, seq<Filter>>, ops: seq<Op>): map<Key, seq<Filter>> {
    if ops == [] then m else OnMap(MapAfter(m, ops[..|ops| - 1]), ops[|ops| - 1])
  }

  // Whatever is done to a list of distinct pairs, it is a map from pairs to filters that it is done to.
  lemma {:induction false} RunRefines(s: seq<Authorization>, m: map<Key, seq<Filter>>, ops: seq<Op>)
    requires Represents(s, m)
    ensures Represents(ListAfter(s, ops), MapAfter(m, ops))
  {
    if ops != [] {
      var n := |ops| - 1;
      RunRefines(s, m, ops[..n]);
      OpRefines(ListAfter(s, ops[..n]), MapAfter(m, ops[..n]), ops[n]);
    }
  }
}
