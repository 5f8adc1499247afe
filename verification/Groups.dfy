// The statements that change group membership and delete groups, and what they mean for the compiled policy.
module Groups {
  import opened AccessTables

  // --- Deleting a group ---

  // The third statement deletes every rule without a group, whatever group it lost or never had.
  function Grouped(db: Tables): Tables {
    db.(rules := map id | id in db.rules && exists p :: p in db.ruleGroups && p.0 == id :: db.rules[id])
  }

  function WithoutGroup(db: Tables, g: string): Tables {
    db.(members := (set m | m in db.members && m.1 != g), ruleGroups := (set p | p in db.ruleGroups && p.1 != g))
  }

  function GroupDeleted(db: Tables, g: string): Tables {
    var rest := Grouped(WithoutGroup(db, g));
    rest.(groups := rest.groups - {g})
  }

  class UserStore {
    var db: Tables

    constructor (db: Tables)
      ensures this.db == db
    {
      this.db := db;
    }

    // Begin, four statements and commit, each of which may fail; a failure rolls everything back.
    method DeleteGroup(id: string, fails: nat -> bool) returns (ok: bool)
      modifies this
      ensures ok <==> forall i: nat :: i < 6 ==> !fails(i)
      ensures db == if ok then GroupDeleted(old(db), id) else old(db)
    {
      if fails(0) {
        return false;
      }
      var tx := db;
      if fails(1) {
        return false;
      }
      tx := tx.(members := set m | m in tx.members && m.1 != id);
      if fails(2) {
        return false;
      }
      tx := tx.(ruleGroups := set p | p in tx.ruleGroups && p.1 != id);
      if fails(3) {
        return false;
      }
      tx := tx.(rules := map r | r in tx.rules && exists p :: p in tx.ruleGroups && p.0 == r :: tx.rules[r]);
      if fails(4) {
        return false;
      }
      tx := tx.(groups := tx.groups - {id});
      if fails(5) {
        return false;
      }
      db := tx;
      return true;
    }

    method AddUserToGroup(user: string, group: string)
      modifies this
      ensures db.members >= old(db).members && db.(members := {}) == old(db).(members := {})
      ensures forall m :: m in db.members && m !in old(db).members <==> m == (user, group) && m !in old(db).members
    {
      db := db.(members := db.members + {(user, group)});
    }

    method RemoveUserFromGroup(user: string, group: string)
      modifies this
      ensures db.members <= old(db).members && db.(members := {}) == old(db).(members := {})
      ensures forall m :: m in old(db).members && m !in db.members <==> m == (user, group) && m in old(db).members
    {
      db := db.(members := db.members - {(user, group)});
    }
  }

  // Dropping the rules that have no group changes no compiled resource.
  lemma GroupedCompilesAlike(db: Tables, r: string)
    ensures AllowedIdentities(Grouped(db), r) == AllowedIdentities(db, r)
  {
    forall x ensures x in Selected(Grouped(db), r) <==> x in Selected(db, r) {
      forall p, m | Grants(db, r, x, p, m) ensures Grants(Grouped(db), r, x, p, m) {
      }
    }
  }

  lemma DeletedGrants(db: Tables, g: string, r: string, x: string, p: (string, string), m: (string, string))
    ensures Grants(GroupDeleted(db, g), r, x, p, m) <==> Grants(db, r, x, p, m) && p.1 != g
  {
    var w := WithoutGroup(db, g);
    if Grants(db, r, x, p, m) && p.1 != g {
      assert p in w.ruleGroups && m in w.members;
    }
  }

  // After the group is gone, a resource's identities are those derived through another group.
  lemma DeletedCompiles(db: Tables, g: string, r: string, x: string)
    ensures x in AllowedIdentities(GroupDeleted(db, g), r) <==>
      x != "" && exists p, m :: Grants(db, r, x, p, m) && p.1 != g
  {
    forall p, m ensures Grants(GroupDeleted(db, g), r, x, p, m) <==> Grants(db, r, x, p, m) && p.1 != g {
      DeletedGrants(db, g, r, x, p, m);
    }
  }

  ghost predicate ThroughAnother(db: Tables, g: string, r: string, x: string) {
    exists p, m :: Grants(db, r, x, p, m) && p.1 != g
  }

  // So it adds no identity, and takes none away exactly when each is let in by another group as well.
  lemma DeletedTakesAway(db: Tables, g: string, r: string)
    ensures AllowedIdentities(GroupDeleted(db, g), r) <= AllowedIdentities(db, r)
    ensures AllowedIdentities(GroupDeleted(db, g), r) == AllowedIdentities(db, r) <==>
      forall x :: x in AllowedIdentities(db, r) ==> ThroughAnother(db, g, r, x)
  {
    forall x
      ensures x in AllowedIdentities(GroupDeleted(db, g), r) <==>
        x in AllowedIdentities(db, r) && ThroughAnother(db, g, r, x)
    {
      DeletedCompiles(db, g, r, x);
    }
  }

  // No row mentions the group, the other groups' rows stay, and every rule that is left has a group.
  lemma DeletedLeavesNoTrace(db: Tables, g: string)
    ensures var d := GroupDeleted(db, g);
      && g !in d.groups && (forall h :: h != g ==> (h in d.groups <==> h in db.groups))
      && (forall m :: m in d.members <==> m in db.members && m.1 != g)
      && (forall p :: p in d.ruleGroups <==> p in db.ruleGroups && p.1 != g)
      && (forall id :: id in d.rules <==> id in db.rules && exists p :: p in db.ruleGroups && p.0 == id && p.1 != g)
  {
    var w := WithoutGroup(db, g);
    assert forall p :: p in db.ruleGroups && p.1 != g ==> p in w.ruleGroups;
  }

  // Memberships and rule groups that refer to existing groups keep doing so.
  lemma DeletedLeavesNoDangling(db: Tables, g: string)
    requires forall m :: m in db.members ==> m.1 in db.groups
    requires forall p :: p in db.ruleGroups ==> p.1 in db.groups
    ensures var d := GroupDeleted(db, g);
      (forall m :: m in d.members ==> m.1 in d.groups) && forall p :: p in d.ruleGroups ==> p.1 in d.groups
  {
    DeletedLeavesNoTrace(db, g);
  }

  // The trace sees the same as the compiled policy: what opens through another group.
  lemma DeletedTrace(db: Tables, g: string, u: string, r: string, rule: string, h: string)
    ensures Opens(GroupDeleted(db, g), u, r, rule, h) <==> Opens(db, u, r, rule, h) && h != g
  {
    var w := WithoutGroup(db, g);
    if Opens(db, u, r, rule, h) && h != g {
      assert (rule, h) in w.ruleGroups;
      assert exists p :: p in w.ruleGroups && p.0 == rule;
    }
  }

  // --- Memberships ---

  // Adding a user to a group lets in exactly its identity, to the resources the group's rules open.
  lemma AddedCompiles(db: Tables, u: string, g: string, r: string, x: string)
    ensures var added := db.(members := db.members + {(u, g)});
      x in AllowedIdentities(added, r) <==>
        x in AllowedIdentities(db, r) || (x != "" && exists rule :: Grants(added, r, x, (rule, g), (u, g)))
  {
    var added := db.(members := db.members + {(u, g)});
    forall p, m | Grants(added, r, x, p, m)
      ensures Grants(db, r, x, p, m) || (m == (u, g) && Grants(added, r, x, (p.0, g), (u, g)))
    {
      assert p == (p.0, p.1);
    }
    forall p, m | Grants(db, r, x, p, m) ensures Grants(added, r, x, p, m) {
    }
  }

  // Removing a membership leaves what is derived through the others, so it undoes an addition that was new.
  lemma RemovedCompiles(db: Tables, u: string, g: string, r: string, x: string)
    ensures var removed := db.(members := db.members - {(u, g)});
      x in AllowedIdentities(removed, r) <==> x != "" && exists p, m :: Grants(db, r, x, p, m) && m != (u, g)
  {
    var removed := db.(members := db.members - {(u, g)});
    forall p, m ensures Grants(removed, r, x, p, m) <==> Grants(db, r, x, p, m) && m != (u, g) {
    }
  }
}
