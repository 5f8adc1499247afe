// Users, groups and access rules: the join that compiles a resource's allowed identities, the loops of
// the access trace, and the statements that change groups.
module AccessTables {
  import opened Wrappers
  import opened Strings

  datatype User = User(status: string, identity: Option<string>)

  datatype Rule = Rule(name: string, resource: string, enabled: int)

  // A pair of `members` is a user and a group, one of `ruleGroups` a rule and a group.
  datatype Tables = Tables(
    users: map<string, User>,
    groups: map<string, string>,
    members: set<(string, string)>,
    rules: map<string, Rule>,
    ruleGroups: set<(string, string)>)

  predicate Active(u: User) {
    ToLower(TrimLeft(TrimRight(u.status))) == "active"
  }

  lemma ActiveForm(s: string) returns (left: string, word: string, right: string)
    requires ToLower(TrimLeft(TrimRight(s))) == "active"
    ensures Spaces(left) && Spaces(right) && SameButForCase(word, "active") && s == left + word + right
  {
    right := TrimRightSplits(s);
    left := TrimLeftSplits(TrimRight(s));
    word := TrimLeft(TrimRight(s));
    LowerCase(word, "active");
    LowerCase("active", "active");
  }

  lemma FormActive(left: string, word: string, right: string)
    requires Spaces(left) && Spaces(right) && SameButForCase(word, "active")
    ensures ToLower(TrimLeft(TrimRight(left + word + right))) == "active"
  {
    TrimRightOf(left + word, right);
    TrimLeftOf(left, word);
    LowerCase(word, "active");
    LowerCase("active", "active");
  }

  // The word "active" in any case, between any spaces, and nothing else.
  lemma ActiveMeaning(u: User)
    ensures Active(u) <==> exists left, word, right ::
      Spaces(left) && Spaces(right) && SameButForCase(word, "active") && u.status == left + word + right
  {
    if Active(u) {
      var left, word, right := ActiveForm(u.status);
    }
    if left, word, right :| Spaces(left) && Spaces(right) && SameButForCase(word, "active")
                            && u.status == left + word + right {
      FormActive(left, word, right);
    }
  }

  // --- Compiling a resource ---

  // A rule-group row and a membership row that meet in the join, for a resource and an identity.
  predicate Grants(db: Tables, r: string, x: string, p: (string, string), m: (string, string)) {
    && p in db.ruleGroups && m in db.members && p.1 == m.1
    && p.0 in db.rules && db.rules[p.0].resource == r && db.rules[p.0].enabled == 1
    && m.0 in db.users && Active(db.users[m.0]) && db.users[m.0].identity == Some(x)
  }

  // The identities the statement selects; the program then skips the empty one.
  function Selected(db: Tables, r: string): (s: set<string>)
    ensures forall x :: x in s <==> exists p, m :: Grants(db, r, x, p, m)
  {
    var s := set p, m | p in db.ruleGroups && m in db.members && m.0 in db.users && db.users[m.0].identity.Some?
                        && Grants(db, r, db.users[m.0].identity.value, p, m) :: db.users[m.0].identity.value;
    assert forall x :: (exists p, m :: Grants(db, r, x, p, m)) ==> x in s;
    s
  }

  function AllowedIdentities(db: Tables, r: string): set<string> {
    Selected(db, r) - {""}
  }

  function NonEmpty(rows: seq<string>): seq<string> {
    if rows == [] then []
    else
      var last := rows[|rows| - 1];
      NonEmpty(rows[..|rows| - 1]) + if last != "" then [last] else []
  }

  // The loop over the statement's rows.
  method CollectIdentities(rows: seq<string>) returns (identities: seq<string>)
    ensures identities == NonEmpty(rows)
  {
    identities := [];
    for i := 0 to |rows|
      invariant identities == NonEmpty(rows[..i])
    {
      assert rows[..i + 1][..i] == rows[..i];
      if rows[i] != "" {
        identities := identities + [rows[i]];
      }
    }
    assert rows[..|rows|] == rows;
  }

  // From a statement that lists each selected identity once, the loop lists each allowed one once.
  lemma {:induction false} NonEmptyLists(rows: seq<string>, a: set<string>)
    requires Lists(rows, a)
    ensures Lists(NonEmpty(rows), a - {""})
  {
    if rows == [] {
    } else {
      var n := |rows| - 1;
      assert Lists(rows[..n], a - {rows[n]}) by {
        assert forall i :: 0 <= i < n ==> rows[..n][i] == rows[i];
        forall x | x in a - {rows[n]} ensures x in rows[..n] {
          var i :| 0 <= i < |rows| && rows[i] == x;
          assert rows[..n][i] == x;
        }
      }
      NonEmptyLists(rows[..n], a - {rows[n]});
      assert rows[n] !in NonEmpty(rows[..n]);
    }
  }

  // In order: what is kept of the rows of one listing after another.
  lemma {:induction false} NonEmptyConcat(a: seq<string>, b: seq<string>)
    ensures NonEmpty(a + b) == NonEmpty(a) + NonEmpty(b)
  {
    if b == [] {
      assert a + b == a;
    } else {
      var n := |b| - 1;
      NonEmptyConcat(a, b[..n]);
      assert (a + b)[..|a + b| - 1] == a + b[..n];
    }
  }

  // --- The trace ---

  datatype TraceRule = TraceRule(id: string, name: string, enabled: bool, groups: seq<string>)

  datatype Verdict = Verdict(allowed: bool, matched: seq<string>, group: string, rule: string)

  // The first of a rule's groups that the user belongs to.
  function FirstShared(groups: seq<string>, mine: map<string, string>): (g: Option<string>)
    ensures g.Some? <==> exists x :: x in groups && x in mine
    ensures g.Some? ==> g.value in groups && g.value in mine
  {
    if groups == [] then None
    else if groups[0] in mine then Some(groups[0])
    else FirstShared(groups[1..], mine)
  }

  predicate Matches(rule: TraceRule, mine: map<string, string>) {
    rule.enabled && FirstShared(rule.groups, mine).Some?
  }

  // The matching rules in order; the reason names the last of them.
  function Traced(rules: seq<TraceRule>, mine: map<string, string>): Verdict {
    if rules == [] then Verdict(false, [], "", "")
    else
      var last := rules[|rules| - 1];
      var v := Traced(rules[..|rules| - 1], mine);
      if !Matches(last, mine) then v
      else Verdict(true, v.matched + [last.id], mine[FirstShared(last.groups, mine).value], last.name)
  }

  method Trace(rules: seq<TraceRule>, mine: map<string, string>) returns (v: Verdict)
    ensures v == Traced(rules, mine)
  {
    v := Verdict(false, [], "", "");
    var i := 0;
    while i < |rules|
      invariant 0 <= i <= |rules|
      invariant v == Traced(rules[..i], mine)
    {
      var rule := rules[i];
      ghost var before := v;
      assert rules[..i + 1][..i] == rules[..i];
      i := i + 1;
      if !rule.enabled {
        continue;
      }
      var j := 0;
      while j < |rule.groups|
        invariant 0 <= j <= |rule.groups|
        invariant v == before && FirstShared(rule.groups, mine) == FirstShared(rule.groups[j..], mine)
      {
        var gid := rule.groups[j];
        if gid in mine {
          v := Verdict(true, v.matched + [rule.id], mine[gid], rule.name);
          break;
        }
        j := j + 1;
      }
    }
    assert rules[..|rules|] == rules;
  }

  // The rules of a resource, each once, and the existing groups of a user, as the trace reads them.
  ghost predicate RulesOf(db: Tables, r: string, rules: seq<TraceRule>) {
    && (forall i :: 0 <= i < |rules| ==> RuleOf(db, r, rules[i]))
    && (forall i, j :: 0 <= i < j < |rules| ==> rules[i].id != rules[j].id)
    && (forall id :: id in db.rules && db.rules[id].resource == r ==> exists i :: 0 <= i < |rules| && rules[i].id == id)
  }

  ghost predicate RuleOf(db: Tables, r: string, t: TraceRule) {
    t.id in db.rules
    && var rule := db.rules[t.id];
    rule.resource == r && t.name == rule.name && (t.enabled <==> rule.enabled != 0)
    && forall g :: g in t.groups <==> (t.id, g) in db.ruleGroups
  }

  ghost predicate GroupsOf(db: Tables, u: string, mine: map<string, string>) {
    forall g :: (g in mine <==> (u, g) in db.members && g in db.groups) && (g in mine ==> mine[g] == db.groups[g])
  }

  // A rule that is not switched off opens a resource to a user through an existing group.
  predicate Opens(db: Tables, u: string, r: string, rule: string, g: string) {
    && rule in db.rules && db.rules[rule].resource == r && db.rules[rule].enabled != 0
    && (rule, g) in db.ruleGroups && (u, g) in db.members && g in db.groups
  }

  // The verdict's reason is about this rule, the last it matched.
  predicate Names(v: Verdict, t: TraceRule, mine: map<string, string>) {
    && v.matched != [] && t.id == v.matched[|v.matched| - 1] && Matches(t, mine)
    && t.name == v.rule && mine[FirstShared(t.groups, mine).value] == v.group
  }

  lemma {:induction false} TracedRules(rules: seq<TraceRule>, mine: map<string, string>)
    requires forall i, j :: 0 <= i < j < |rules| ==> rules[i].id != rules[j].id
    ensures var v := Traced(rules, mine);
      && (v.allowed <==> v.matched != [])
      && (forall x :: x in v.matched <==> exists i :: 0 <= i < |rules| && rules[i].id == x && Matches(rules[i], mine))
      && (forall i, j :: 0 <= i < j < |v.matched| ==> v.matched[i] != v.matched[j])
      && (v.allowed ==> exists i :: 0 <= i < |rules| && Names(v, rules[i], mine))
  {
    if rules != [] {
      var n := |rules| - 1;
      var v := Traced(rules[..n], mine);
      TracedRules(rules[..n], mine);
      assert forall i :: 0 <= i < n ==> rules[..n][i] == rules[i];
      assert rules[n].id !in v.matched;
    }
  }

  lemma MatchesOpens(db: Tables, u: string, r: string, t: TraceRule, mine: map<string, string>)
    requires RuleOf(db, r, t) && GroupsOf(db, u, mine)
    ensures Matches(t, mine) <==> exists g :: Opens(db, u, r, t.id, g)
  {
    if Matches(t, mine) {
      assert Opens(db, u, r, t.id, FirstShared(t.groups, mine).value);
    }
  }

  lemma RulesOpen(db: Tables, u: string, r: string, rules: seq<TraceRule>, mine: map<string, string>, rule: string)
    requires RulesOf(db, r, rules) && GroupsOf(db, u, mine)
    ensures (exists i :: 0 <= i < |rules| && rules[i].id == rule && Matches(rules[i], mine)) <==>
      exists g :: Opens(db, u, r, rule, g)
  {
    if i :| 0 <= i < |rules| && rules[i].id == rule {
      assert RuleOf(db, r, rules[i]);
      MatchesOpens(db, u, r, rules[i], mine);
    }
  }

  // The reason is about a rule and a group through which it opens.
  lemma ReasonOpens(db: Tables, u: string, r: string, rules: seq<TraceRule>, mine: map<string, string>,
                    v: Verdict, i: nat)
      returns (g: string)
    requires RulesOf(db, r, rules) && GroupsOf(db, u, mine) && i < |rules| && Names(v, rules[i], mine)
    ensures Opens(db, u, r, rules[i].id, g) && v.rule == db.rules[rules[i].id].name && v.group == db.groups[g]
  {
    assert RuleOf(db, r, rules[i]);
    g := FirstShared(rules[i].groups, mine).value;
  }

  // The trace allows exactly when some rule opens the resource, and lists exactly those rules, once each;
  // its reason names the last of them and a group it opens through.
  lemma TraceMeaning(db: Tables, u: string, r: string, rules: seq<TraceRule>, mine: map<string, string>)
    requires RulesOf(db, r, rules) && GroupsOf(db, u, mine)
    ensures var v := Traced(rules, mine);
      && (v.allowed <==> v.matched != [])
      && (v.allowed <==> exists rule, g :: Opens(db, u, r, rule, g))
      && (forall rule :: rule in v.matched <==> exists g :: Opens(db, u, r, rule, g))
      && (forall i, j :: 0 <= i < j < |v.matched| ==> v.matched[i] != v.matched[j])
      && (v.allowed ==>
            var last := v.matched[|v.matched| - 1];
            exists g :: Opens(db, u, r, last, g) && v.rule == db.rules[last].name && v.group == db.groups[g])
  {
    var v := Traced(rules, mine);
    TracedRules(rules, mine);
    forall rule ensures rule in v.matched <==> exists g :: Opens(db, u, r, rule, g) {
      RulesOpen(db, u, r, rules, mine, rule);
    }
    forall rule, g | Opens(db, u, r, rule, g) ensures v.allowed {
      assert rule in v.matched;
    }
    if v.allowed {
      var i :| 0 <= i < |rules| && Names(v, rules[i], mine);
      var g := ReasonOpens(db, u, r, rules, mine, v, i);
    }
  }

  lemma {:induction false} FirstSharedAt(groups: seq<string>, mine: map<string, string>, k: nat)
    requires k < |groups| && groups[k] in mine && forall j :: 0 <= j < k ==> groups[j] !in mine
    ensures FirstShared(groups, mine) == Some(groups[k])
  {
    if k > 0 {
      FirstSharedAt(groups[1..], mine, k - 1);
    }
  }

  // The reason is the last rule that matches, with the first of its groups that the user is in.
  lemma {:induction false} TraceReason(rules: seq<TraceRule>, mine: map<string, string>, i: nat, k: nat)
    requires i < |rules| && rules[i].enabled && k < |rules[i].groups| && rules[i].groups[k] in mine
    requires forall j :: 0 <= j < k ==> rules[i].groups[j] !in mine
    requires forall j :: i < j < |rules| ==> !Matches(rules[j], mine)
    ensures var v := Traced(rules, mine);
      && v.allowed && v.matched != [] && v.matched[|v.matched| - 1] == rules[i].id
      && v.rule == rules[i].name && v.group == mine[rules[i].groups[k]]
  {
    var n := |rules| - 1;
    if i < n {
      TraceReason(rules[..n], mine, i, k);
    } else {
      FirstSharedAt(rules[i].groups, mine, k);
    }
  }

  predicate Precedes(m: seq<string>, x: string, y: string) {
    exists a, b :: 0 <= a < b < |m| && m[a] == x && m[b] == y
  }

  lemma PrecedesMore(m: seq<string>, x: string, y: string, more: seq<string>)
    requires Precedes(m, x, y)
    ensures Precedes(m + more, x, y)
  {
    var a, b :| 0 <= a < b < |m| && m[a] == x && m[b] == y;
    assert (m + more)[a] == x && (m + more)[b] == y;
  }

  // The matched rules are listed in the order in which they are read.
  lemma {:induction false} TracedInOrder(rules: seq<TraceRule>, mine: map<string, string>, i: nat, j: nat)
    requires i < j < |rules| && Matches(rules[i], mine) && Matches(rules[j], mine)
    ensures Precedes(Traced(rules, mine).matched, rules[i].id, rules[j].id)
  {
    var n := |rules| - 1;
    var rest := Traced(rules[..n], mine).matched;
    if j < n {
      TracedInOrder(rules[..n], mine, i, j);
      PrecedesMore(rest, rules[i].id, rules[j].id, [rules[n].id]);
    } else {
      var a := MatchedAt(rules[..n], mine, i);
      assert (rest + [rules[j].id])[a] == rules[i].id && (rest + [rules[j].id])[|rest|] == rules[j].id;
    }
  }

  lemma {:induction false} MatchedAt(rules: seq<TraceRule>, mine: map<string, string>, i: nat) returns (a: nat)
    requires i < |rules| && Matches(rules[i], mine)
    ensures a < |Traced(rules, mine).matched| && Traced(rules, mine).matched[a] == rules[i].id
  {
    var n := |rules| - 1;
    if i < n {
      a := MatchedAt(rules[..n], mine, i);
    } else {
      a := |Traced(rules[..n], mine).matched|;
    }
  }

  // --- Two evaluations of one policy ---

  predicate TraceAllows(db: Tables, u: string, r: string) {
    exists p :: p in db.ruleGroups && Opens(db, u, r, p.0, p.1)
  }

  predicate CompiledAllows(db: Tables, u: string, r: string) {
    u in db.users && db.users[u].identity.Some? && db.users[u].identity.value in AllowedIdentities(db, r)
  }

  // A user whose identity is not empty and no other user's.
  predicate OwnIdentity(db: Tables, u: string) {
    && u in db.users && db.users[u].identity.Some? && db.users[u].identity.value != ""
    && forall v :: v in db.users && db.users[v].identity == db.users[u].identity ==> v == u
  }

  // As the join sees it: a rule that is switched on, and a group that need not exist.
  predicate JoinOpens(db: Tables, u: string, r: string, p: (string, string)) {
    && p in db.ruleGroups && (u, p.1) in db.members
    && p.0 in db.rules && db.rules[p.0].resource == r && db.rules[p.0].enabled == 1
  }

  lemma CompiledMeaning(db: Tables, u: string, r: string)
    requires OwnIdentity(db, u)
    ensures CompiledAllows(db, u, r) <==> Active(db.users[u]) && exists p :: JoinOpens(db, u, r, p)
  {
    var x := db.users[u].identity.value;
    if CompiledAllows(db, u, r) {
      var p, m :| Grants(db, r, x, p, m);
      assert m == (u, p.1) && JoinOpens(db, u, r, p);
    }
    if Active(db.users[u]) && exists p :: JoinOpens(db, u, r, p) {
      var p :| JoinOpens(db, u, r, p);
      assert Grants(db, r, x, p, (u, p.1));
    }
  }

  // The same database with other rules.
  function WithRules(db: Tables, rules: map<string, Rule>, ruleGroups: set<(string, string)>): Tables {
    db.(rules := rules, ruleGroups := ruleGroups)
  }

  predicate Switches(rules: map<string, Rule>) {
    forall id :: id in rules ==> rules[id].enabled == 0 || rules[id].enabled == 1
  }

  ghost predicate Agree(db: Tables, u: string, r: string) {
    TraceAllows(db, u, r) <==> CompiledAllows(db, u, r)
  }

  ghost predicate AlwaysAgree(db: Tables, u: string) {
    forall rules, ruleGroups, r :: Switches(rules) ==> Agree(WithRules(db, rules, ruleGroups), u, r)
  }

  // An active user is only in groups that exist, an inactive one only in groups that do not.
  predicate MembershipsMatchStatus(db: Tables, u: string) {
    u in db.users && forall m :: m in db.members && m.0 == u ==> (m.1 in db.groups <==> Active(db.users[u]))
  }

  // Whatever the rules, the two evaluations of a user's access agree exactly when the user is active and only
  // in groups that exist, or inactive and only in groups that do not: the trace does not look at the
  // status, and the join does not look at the groups.
  lemma Agreement(db: Tables, u: string)
    requires OwnIdentity(db, u)
    ensures AlwaysAgree(db, u) <==> MembershipsMatchStatus(db, u)
  {
    if MembershipsMatchStatus(db, u) {
      forall rules, ruleGroups, r | Switches(rules) ensures Agree(WithRules(db, rules, ruleGroups), u, r) {
        MatchingAgree(WithRules(db, rules, ruleGroups), u, r);
      }
    } else {
      var m :| m in db.members && m.0 == u && !(m.1 in db.groups <==> Active(db.users[u]));
      OneRuleDisagrees(db, u, m.1);
    }
  }

  lemma MatchingAgree(db: Tables, u: string, r: string)
    requires OwnIdentity(db, u) && MembershipsMatchStatus(db, u) && Switches(db.rules)
    ensures Agree(db, u, r)
  {
    CompiledMeaning(db, u, r);
    if Active(db.users[u]) {
      forall p ensures JoinOpens(db, u, r, p) <==> p in db.ruleGroups && Opens(db, u, r, p.0, p.1) {
        assert p == (p.0, p.1);
      }
    } else {
      forall p | p in db.ruleGroups ensures !Opens(db, u, r, p.0, p.1) {
      }
    }
  }

  // One rule for that group is enough to tell them apart.
  lemma OneRuleDisagrees(db: Tables, u: string, g: string)
    requires OwnIdentity(db, u) && (u, g) in db.members && !(g in db.groups <==> Active(db.users[u]))
    ensures !AlwaysAgree(db, u)
  {
    var rules, ruleGroups := map["a" := Rule("n", "r", 1)], {("a", g)};
    var d := WithRules(db, rules, ruleGroups);
    CompiledMeaning(d, u, "r");
    assert JoinOpens(d, u, "r", ("a", g));
    assert Opens(d, u, "r", "a", g) <==> g in db.groups;
    assert TraceAllows(d, u, "r") <==> Opens(d, u, "r", ("a", g).0, ("a", g).1);
    assert Switches(rules) && !Agree(d, u, "r");
  }

  // The same about the trace's loops, on any listing of the tables.
  lemma LoopsAgree(db: Tables, u: string, r: string, rules: seq<TraceRule>, mine: map<string, string>)
    requires OwnIdentity(db, u) && MembershipsMatchStatus(db, u) && Switches(db.rules)
    requires RulesOf(db, r, rules) && GroupsOf(db, u, mine)
    ensures Traced(rules, mine).allowed <==> db.users[u].identity.value in AllowedIdentities(db, r)
  {
    TraceMeaning(db, u, r, rules, mine);
    forall rule, g | Opens(db, u, r, rule, g) ensures TraceAllows(db, u, r) {
      assert (rule, g) in db.ruleGroups && (rule, g).0 == rule && (rule, g).1 == g;
    }
    MatchingAgree(db, u, r);
  }

  // A suspended user in a group that a rule admits: traced as allowed, compiled out.
  lemma SuspendedDisagrees()
    ensures var db := Tables(map["u" := User("Suspended", Some("x"))], map["g" := "G"], {("u", "g")},
                             map["a" := Rule("n", "r", 1)], {("a", "g")});
      TraceAllows(db, "u", "r") && !CompiledAllows(db, "u", "r")
  {
    var db := Tables(map["u" := User("Suspended", Some("x"))], map["g" := "G"], {("u", "g")},
                     map["a" := Rule("n", "r", 1)], {("a", "g")});
    assert |ToLower("Suspended")| != |"active"|;
    assert TrimLeft(TrimRight("Suspended")) == "Suspended";
    assert Opens(db, "u", "r", ("a", "g").0, ("a", "g").1);
    CompiledMeaning(db, "u", "r");
  }

  // A membership of a group that does not exist: compiled in, traced as denied.
  lemma DanglingDisagrees()
    ensures var db := Tables(map["u" := User("Active", Some("x"))], map[], {("u", "g")},
                             map["a" := Rule("n", "r", 1)], {("a", "g")});
      CompiledAllows(db, "u", "r") && !TraceAllows(db, "u", "r")
  {
    var db := Tables(map["u" := User("Active", Some("x"))], map[], {("u", "g")},
                     map["a" := Rule("n", "r", 1)], {("a", "g")});
    assert Active(db.users["u"]) by {
      assert ToLower("Active") == "active";
    }
    assert JoinOpens(db, "u", "r", ("a", "g"));
    CompiledMeaning(db, "u", "r");
  }
}
