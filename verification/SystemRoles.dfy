/**
 syncSystemRoles: after every migration the roles table is made to match the roles defined in code,
 whatever state the database was in.
 */
module SystemRoles {

  type Key = string
  type RoleId = nat
  type Permission = string

  datatype Details = Details(name: string, description: string, isSystem: bool, mfaRequired: bool, allowedScopes: seq<string>)
  datatype Role = Role(id: RoleId, version: int, details: Details, updatedAt: int)
  datatype Definition = Definition(key: Key, name: string, description: string, mfaRequired: bool, allowedScopes: seq<string>,
                                   permissions: set<Permission>)

  /** Role keys and (role, permission) pairs are unique in the database. */
  datatype Database = Database(roles: map<Key, Role>, grants: set<(RoleId, Permission)>)

  function Permissions(db: Database, id: RoleId): set<Permission> {
    set g | g in db.grants && g.0 == id :: g.1
  }

  ghost predicate HasRole(db: Database, id: RoleId) {
    exists k :: k in db.roles && db.roles[k].id == id
  }

  /** Ids are unique and smaller than the next one; grants refer to roles. */
  ghost predicate Consistent(db: Database, nextId: nat) {
    && (forall k :: k in db.roles ==> db.roles[k].id < nextId)
    && (forall k, l :: k in db.roles && l in db.roles && db.roles[k].id == db.roles[l].id ==> k == l)
    && forall g :: g in db.grants ==> HasRole(db, g.0)
  }

  function DetailsOf(d: Definition): Details {
    Details(d.name, d.description, true, d.mfaRequired, d.allowedScopes)
  }

  // ---- the statements ---------------------------------------------------------------------------

  function Upserted(db: Database, d: Definition, nextId: nat, now: int): Database {
    db.(roles := db.roles[d.key :=
      if d.key in db.roles then db.roles[d.key].(details := DetailsOf(d), updatedAt := now)
      else Role(nextId, 1, DetailsOf(d), now)])
  }

  function Granted(db: Database, id: RoleId, permissions: set<Permission>): Database {
    db.(grants := db.grants + set p | p in permissions :: (id, p))
  }

  function Revoked(db: Database, id: RoleId, permissions: set<Permission>): Database {
    db.(grants := set g | g in db.grants && (g.0 == id ==> g.1 in permissions))
  }

  /** The final update: other system roles stay as custom roles. */
  function Demoted(db: Database, keys: set<Key>, now: int): Database {
    db.(roles := map k | k in db.roles ::
      if db.roles[k].details.isSystem && k !in keys then
        db.roles[k].(details := db.roles[k].details.(isSystem := false), updatedAt := now)
      else db.roles[k])
  }

  function SyncOne(db: Database, d: Definition, nextId: nat, now: int): Database {
    var upserted := Upserted(db, d, nextId, now);
    var id := upserted.roles[d.key].id;
    Revoked(Granted(upserted, id, d.permissions), id, d.permissions)
  }

  // ---- what a synchronised database is ------------------------------------------------------------

  function Keys(defs: seq<Definition>): set<Key> {
    set d | d in defs :: d.key
  }

  predicate DistinctKeys(defs: seq<Definition>) {
    forall i, j :: 0 <= i < j < |defs| ==> defs[i].key != defs[j].key
  }

  /** The role is there, as defined, with exactly the permissions defined; one that was there keeps its id and version. */
  predicate Matches(before: Database, after: Database, d: Definition, now: int) {
    && d.key in after.roles
    && var role := after.roles[d.key];
    && role.details == Details(d.name, d.description, true, d.mfaRequired, d.allowedScopes) && role.updatedAt == now
    && Permissions(after, role.id) == d.permissions
    && if d.key in before.roles then role.id == before.roles[d.key].id && role.version == before.roles[d.key].version
       else role.version == 1
  }

  /** A role that is not defined only loses the system flag. */
  predicate Kept(before: Database, after: Database, k: Key, now: int)
    requires k in before.roles && k in after.roles
  {
    var was, role := before.roles[k], after.roles[k];
    && role == (if was.details.isSystem then was.(details := was.details.(isSystem := false), updatedAt := now) else was)
    && Permissions(after, role.id) == Permissions(before, was.id)
  }

  ghost predicate Synced(before: Database, defs: seq<Definition>, after: Database, now: int) {
    && after.roles.Keys == before.roles.Keys + Keys(defs)
    && (forall d :: d in defs ==> Matches(before, after, d, now))
    && forall k :: k in before.roles && k !in Keys(defs) ==> Kept(before, after, k, now)
  }

  /** Half way: the first definitions are done and nothing else has changed. */
  ghost predicate SyncedSoFar(before: Database, defs: seq<Definition>, after: Database, now: int) {
    && after.roles.Keys == before.roles.Keys + Keys(defs)
    && (forall d :: d in defs ==> Matches(before, after, d, now))
    && forall k :: k in before.roles && k !in Keys(defs) ==>
      after.roles[k] == before.roles[k] && Permissions(after, before.roles[k].id) == Permissions(before, before.roles[k].id)
  }

  lemma SyncOneGrants(db: Database, d: Definition, nextId: nat, now: int)
    ensures var t := SyncOne(db, d, nextId, now);
      var id := t.roles[d.key].id;
      && t.roles == Upserted(db, d, nextId, now).roles
      && Permissions(t, id) == d.permissions
      && forall other: RoleId :: other != id ==> Permissions(t, other) == Permissions(db, other)
  {
    var upserted := Upserted(db, d, nextId, now);
    var id := upserted.roles[d.key].id;
    var t := SyncOne(db, d, nextId, now);
    forall p ensures p in Permissions(t, id) <==> p in d.permissions {
      assert p in Permissions(t, id) <==> (id, p) in t.grants;
    }
    forall other: RoleId, p | other != id ensures p in Permissions(t, other) <==> p in Permissions(db, other) {
      assert p in Permissions(t, other) <==> (other, p) in t.grants;
      assert p in Permissions(db, other) <==> (other, p) in db.grants;
    }
    forall other: RoleId | other != id ensures Permissions(t, other) == Permissions(db, other) {
      assert forall p :: p in Permissions(t, other) <==> p in Permissions(db, other);
    }
  }

  lemma SyncOneKeepsConsistent(db: Database, d: Definition, nextId: nat, now: int)
    requires Consistent(db, nextId)
    ensures Consistent(SyncOne(db, d, nextId, now), nextId + 1)
  {
    var t := SyncOne(db, d, nextId, now);
    forall g | g in t.grants ensures HasRole(t, g.0) {
      if g.0 == t.roles[d.key].id {
        assert d.key in t.roles;
      } else {
        assert g in db.grants;
        var k :| k in db.roles && db.roles[k].id == g.0;
        assert k in t.roles && t.roles[k].id == g.0;
      }
    }
  }

  /** Only the role of this definition changes, and it matches. */
  lemma SyncOneMatches(before: Database, done: seq<Definition>, db: Database, d: Definition, nextId: nat, now: int)
    requires Consistent(db, nextId) && SyncedSoFar(before, done, db, now) && d.key !in Keys(done)
    ensures var t := SyncOne(db, d, nextId, now);
      && t.roles.Keys == db.roles.Keys + {d.key}
      && Matches(before, t, d, now)
      && forall k :: k in db.roles && k != d.key ==>
        t.roles[k] == db.roles[k] && Permissions(t, db.roles[k].id) == Permissions(db, db.roles[k].id)
  {
    SyncOneGrants(db, d, nextId, now);
    var id := SyncOne(db, d, nextId, now).roles[d.key].id;
    forall k | k in db.roles && k != d.key ensures db.roles[k].id != id {}
  }

  lemma SyncOneMore(before: Database, done: seq<Definition>, db: Database, d: Definition, nextId: nat, now: int)
    requires Consistent(db, nextId) && SyncedSoFar(before, done, db, now) && d.key !in Keys(done)
    ensures SyncedSoFar(before, done + [d], SyncOne(db, d, nextId, now), now)
  {
    var t := SyncOne(db, d, nextId, now);
    SyncOneMatches(before, done, db, d, nextId, now);
    assert Keys(done + [d]) == Keys(done) + {d.key};
    forall e | e in done + [d] ensures Matches(before, t, e, now) {
      if e in done {
        assert Matches(before, db, e, now) && e.key in Keys(done);
      }
    }
  }

  lemma DemotedIsSynced(before: Database, defs: seq<Definition>, db: Database, now: int)
    requires SyncedSoFar(before, defs, db, now)
    ensures Synced(before, defs, Demoted(db, Keys(defs), now), now)
  {
    var t := Demoted(db, Keys(defs), now);
    assert t.roles.Keys == db.roles.Keys;
    forall id ensures Permissions(t, id) == Permissions(db, id) {}
    forall d | d in defs ensures Matches(before, t, d, now) {
      assert Matches(before, db, d, now) && d.key in Keys(defs);
    }
  }

  lemma DemotedIsConsistent(db: Database, keys: set<Key>, now: int, nextId: nat)
    requires Consistent(db, nextId)
    ensures Consistent(Demoted(db, keys, now), nextId)
  {
    var t := Demoted(db, keys, now);
    forall g | g in t.grants ensures HasRole(t, g.0) {
      var k :| k in db.roles && db.roles[k].id == g.0;
      assert k in t.roles && t.roles[k].id == g.0;
    }
  }

  // ---- the synchronisation ------------------------------------------------------------------------

  class RoleStore {
    var roles: map<Key, Role>
    var grants: set<(RoleId, Permission)>
    var nextId: nat

    function Contents(): Database
      reads this
    {
      Database(roles, grants)
    }

    ghost predicate Valid()
      reads this
    {
      Consistent(Contents(), nextId)
    }

    constructor ()
      ensures Valid() && Contents() == Database(map[], {})
    {
      roles, grants, nextId := map[], {}, 0;
    }

    method Upsert(d: Definition, now: int) returns (id: RoleId)
      modifies this
      ensures Contents() == Upserted(old(Contents()), d, old(nextId), now) && nextId == old(nextId) + 1
      ensures id == Contents().roles[d.key].id
    {
      if d.key in roles {
        id := roles[d.key].id;
        roles := roles[d.key := roles[d.key].(details := DetailsOf(d), updatedAt := now)];
      } else {
        id := nextId;
        roles := roles[d.key := Role(id, 1, DetailsOf(d), now)];
      }
      nextId := nextId + 1;
    }

    method GrantMissing(id: RoleId, permissions: set<Permission>)
      modifies this`grants
      ensures Contents() == Granted(old(Contents()), id, permissions)
    {
      if permissions != {} {
        grants := grants + set p | p in permissions :: (id, p);
      }
    }

    method RevokeOthers(id: RoleId, permissions: set<Permission>)
      modifies this`grants
      ensures Contents() == Revoked(old(Contents()), id, permissions)
    {
      if permissions != {} {
        grants := set g | g in grants && (g.0 == id ==> g.1 in permissions);
      } else {
        grants := set g | g in grants && g.0 != id;
      }
    }

    method SyncRole(d: Definition, now: int)
      modifies this
      ensures Contents() == SyncOne(old(Contents()), d, old(nextId), now) && nextId == old(nextId) + 1
    {
      var id := Upsert(d, now);
      GrantMissing(id, d.permissions);
      RevokeOthers(id, d.permissions);
    }

    /** Main result: from any state, the defined roles end as defined and the others are kept. */
    method SyncSystemRoles(defs: seq<Definition>, now: int)
      requires Valid() && DistinctKeys(defs)
      modifies this
      ensures Valid() && Synced(old(Contents()), defs, Contents(), now)
    {
      ghost var before := Contents();
      for i := 0 to |defs|
        invariant Valid() && SyncedSoFar(before, defs[..i], Contents(), now)
      {
        SyncOneKeepsConsistent(Contents(), defs[i], nextId, now);
        SyncOneMore(before, defs[..i], Contents(), defs[i], nextId, now);
        SyncRole(defs[i], now);
        assert defs[..i + 1] == defs[..i] + [defs[i]];
      }
      assert defs[..|defs|] == defs;
      DemotedIsSynced(before, defs, Contents(), now);
      DemotedIsConsistent(Contents(), Keys(defs), now, nextId);
      roles := Demoted(Contents(), Keys(defs), now).roles;
    }
  }

  // ---- what follows -------------------------------------------------------------------------------

  ghost predicate SameButTimes(a: Database, b: Database) {
    && a.roles.Keys == b.roles.Keys && a.grants == b.grants
    && forall k :: k in a.roles ==> b.roles[k] == a.roles[k].(updatedAt := b.roles[k].updatedAt)
  }

  /** Main result: synchronising again changes nothing but times, even after a restart with other new ids. */
  lemma SyncedTwice(before: Database, defs: seq<Definition>, once: Database, first: int, twice: Database, second: int, nextId: nat)
    requires DistinctKeys(defs) && Synced(before, defs, once, first) && Synced(once, defs, twice, second)
    requires Consistent(once, nextId) && Consistent(twice, nextId)
    ensures SameButTimes(once, twice)
  {
    forall k | k in once.roles
      ensures twice.roles[k] == once.roles[k].(updatedAt := twice.roles[k].updatedAt)
      ensures Permissions(twice, once.roles[k].id) == Permissions(once, once.roles[k].id)
    {
      if k in Keys(defs) {
        var d :| d in defs && d.key == k;
        assert Matches(before, once, d, first) && Matches(once, twice, d, second);
      } else {
        assert Kept(before, once, k, first) && Kept(once, twice, k, second);
      }
    }
    SameGrants(once, twice, nextId);
  }

  lemma SameGrants(a: Database, b: Database, nextId: nat)
    requires Consistent(a, nextId) && Consistent(b, nextId) && a.roles.Keys == b.roles.Keys
    requires forall k :: k in a.roles ==>
      a.roles[k].id == b.roles[k].id && Permissions(a, a.roles[k].id) == Permissions(b, a.roles[k].id)
    ensures a.grants == b.grants
  {
    forall g ensures g in a.grants <==> g in b.grants {
      assert g in a.grants ==> g.1 in Permissions(a, g.0);
      assert g in b.grants ==> g.1 in Permissions(b, g.0);
    }
  }

  /** A custom role is left exactly as it was unless its key is a defined one: then it is taken over. */
  lemma CustomRoleUntouchedIff(before: Database, defs: seq<Definition>, after: Database, now: int, k: Key)
    requires Synced(before, defs, after, now) && k in before.roles && !before.roles[k].details.isSystem
    ensures k !in Keys(defs) <==>
      after.roles[k] == before.roles[k] && Permissions(after, before.roles[k].id) == Permissions(before, before.roles[k].id)
  {
    if k in Keys(defs) {
      var d :| d in defs && d.key == k;
      assert Matches(before, after, d, now);
    } else {
      assert Kept(before, after, k, now);
    }
  }

  /** A custom role "editor" with its own permission, and a system role defined under that key. */
  lemma CustomRoleTakenOver(after: Database, now: int)
    requires var d := Definition("editor", "Editor", "", false, ["global"], {"posts.read"});
      var before := Database(
        map["editor" := Role(0, 1, Details("Our editors", "Local", false, true, ["branch"]), 0)], {(0, "posts.write")});
      Synced(before, [d], after, now)
    ensures "editor" in after.roles
    ensures var role := after.roles["editor"];
      && role.details == Details("Editor", "", true, false, ["global"])
      && role.id == 0 && Permissions(after, 0) == {"posts.read"}
  {
    var d := Definition("editor", "Editor", "", false, ["global"], {"posts.read"});
    assert d in [d];
  }

  /** Afterwards the system roles are the defined ones. */
  lemma SystemRolesAreDefined(before: Database, defs: seq<Definition>, after: Database, now: int)
    requires Synced(before, defs, after, now)
    ensures forall k :: k in after.roles ==> (after.roles[k].details.isSystem <==> k in Keys(defs))
  {
    forall k | k in after.roles ensures after.roles[k].details.isSystem <==> k in Keys(defs) {
      if k in Keys(defs) {
        var d :| d in defs && d.key == k;
        assert Matches(before, after, d, now);
      } else {
        assert Kept(before, after, k, now);
      }
    }
  }
}
