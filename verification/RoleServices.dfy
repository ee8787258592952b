/** Roles and the set difference that moves a role to a new list of permissions. */
module RoleServices {
  import opened PermissionTables
  import opened Rows
  import opened Wrappers

  function ActiveIn(roleId: string): RolePermission -> bool {
    (row: RolePermission) => row.roleId == roleId && row.deletedAt.None?
  }

  function PermissionOf(row: RolePermission): string { row.permissionId }

  /** The permission ids a role grants: those of its rows that are not soft-deleted. */
  function ActiveIds(rows: seq<RolePermission>, roleId: string): seq<string> {
    Map(Where(rows, ActiveIn(roleId)), PermissionOf)
  }

  function RowId(row: RolePermission): nat { row.id }

  function In(ids: seq<string>): string -> bool { (id: string) => id in ids }

  function NotIn(ids: seq<string>): string -> bool { (id: string) => id !in ids }

  function Retired(roleId: string, wanted: seq<string>, now: nat): RolePermission -> RolePermission {
    (row: RolePermission) =>
      if row.roleId == roleId && row.deletedAt.None? && row.permissionId !in wanted then row.(deletedAt := Some(now))
          else row
  }

  function NewRows(roleId: string, permissionIds: seq<string>, nextId: nat): seq<RolePermission> {
    seq(|permissionIds|, i requires 0 <= i < |permissionIds| =>
      RolePermission(nextId + i, roleId, permissionIds[i], None))
  }

  /** The table after moving a role to the wanted permissions. */
  function Diff(rows: seq<RolePermission>, roleId: string, wanted: seq<string>, now: nat,
                nextId: nat): seq<RolePermission> {
    Map(rows, Retired(roleId, wanted, now)) + NewRows(roleId, Where(wanted, NotIn(ActiveIds(rows, roleId))), nextId)
  }

  /** What one row adds to the ids a role grants. */
  function Granted(row: RolePermission, roleId: string): seq<string> {
    if row.roleId == roleId && row.deletedAt.None? then [row.permissionId] else []
  }

  lemma ActiveIdsStep(rows: seq<RolePermission>, roleId: string)
    requires rows != []
    ensures ActiveIds(rows, roleId) == Granted(rows[0], roleId) + ActiveIds(rows[1..], roleId)
  {
    var rest := Where(rows[1..], ActiveIn(roleId));
    if ActiveIn(roleId)(rows[0]) {
      assert Map([rows[0]] + rest, PermissionOf) == [rows[0].permissionId] + Map(rest, PermissionOf);
    }
  }

  lemma {:induction false} ActiveIdsOfConcat(a: seq<RolePermission>, b: seq<RolePermission>, roleId: string)
    ensures ActiveIds(a + b, roleId) == ActiveIds(a, roleId) + ActiveIds(b, roleId)
  {
    if a == [] {
      assert a + b == b;
    } else {
      ActiveIdsOfConcat(a[1..], b, roleId);
      assert (a + b)[1..] == a[1..] + b;
      ActiveIdsStep(a + b, roleId);
      ActiveIdsStep(a, roleId);
      ConcatIsAssociative(Granted(a[0], roleId), ActiveIds(a[1..], roleId), ActiveIds(b, roleId));
    }
  }

  lemma ConcatIsAssociative<T>(a: seq<T>, b: seq<T>, c: seq<T>)
    ensures a + (b + c) == (a + b) + c
  {
  }

  lemma {:induction false} ActiveAfterRetiring(rows: seq<RolePermission>, roleId: string, wanted: seq<string>,
                                               now: nat, other: string)
    ensures ActiveIds(Map(rows, Retired(roleId, wanted, now)), other)
         == if other == roleId then Where(ActiveIds(rows, roleId), In(wanted)) else ActiveIds(rows, other)
  {
    var kept := Map(rows, Retired(roleId, wanted, now));
    if rows != [] {
      ActiveAfterRetiring(rows[1..], roleId, wanted, now, other);
      assert kept[1..] == Map(rows[1..], Retired(roleId, wanted, now));
      ActiveIdsStep(kept, other);
      ActiveIdsStep(rows, other);
      WhereOfGranted(Granted(rows[0], roleId), ActiveIds(rows[1..], roleId), wanted);
    }
  }

  lemma WhereOfGranted(first: seq<string>, rest: seq<string>, wanted: seq<string>)
    requires |first| <= 1
    ensures Where(first + rest, In(wanted))
         == (if first != [] && first[0] in wanted then first else []) + Where(rest, In(wanted))
  {
    if first == [] {
      assert first + rest == rest;
    } else {
      assert (first + rest)[1..] == rest;
    }
  }

  lemma {:induction false} ActiveNewRows(roleId: string, permissionIds: seq<string>, nextId: nat, other: string)
    ensures ActiveIds(NewRows(roleId, permissionIds, nextId), other) == if other == roleId then permissionIds else []
  {
    if permissionIds != [] {
      assert NewRows(roleId, permissionIds, nextId)[1..] == NewRows(roleId, permissionIds[1..], nextId + 1);
      ActiveNewRows(roleId, permissionIds[1..], nextId + 1, other);
    }
  }

  /** The role keeps what it had of the wanted permissions, then gets the rest; no other role changes. */
  lemma ActiveAfterDiff(rows: seq<RolePermission>, roleId: string, wanted: seq<string>, now: nat, nextId: nat,
                        other: string)
    ensures ActiveIds(Diff(rows, roleId, wanted, now, nextId), other)
         == if other == roleId
            then Where(ActiveIds(rows, roleId), In(wanted)) + Where(wanted, NotIn(ActiveIds(rows, roleId)))
            else ActiveIds(rows, other)
  {
    var missing := Where(wanted, NotIn(ActiveIds(rows, roleId)));
    ActiveIdsOfConcat(Map(rows, Retired(roleId, wanted, now)), NewRows(roleId, missing, nextId), other);
    ActiveAfterRetiring(rows, roleId, wanted, now, other);
    ActiveNewRows(roleId, missing, nextId, other);
  }

  lemma DistinctConcat(a: seq<string>, b: seq<string>)
    requires Distinct(a) && Distinct(b)
    requires forall x :: x in a ==> x !in b
    ensures Distinct(a + b)
  {
    assert forall i :: 0 <= i < |a| ==> a[i] !in b;
  }

  /**
   Row by row: an unwanted active row of the role gets its deletion date and nothing else, every other row
   (wanted, already deleted, or another role's) is the same as before, and the rows added are wanted ones
   the role did not have.
   */
  lemma RowsAfterDiff(rows: seq<RolePermission>, roleId: string, wanted: seq<string>, now: nat, nextId: nat)
    ensures var after := Diff(rows, roleId, wanted, now, nextId);
      && |rows| <= |after|
      && (forall i :: 0 <= i < |rows| ==>
            if ActiveIn(roleId)(rows[i]) && rows[i].permissionId !in wanted
            then after[i] == rows[i].(deletedAt := Some(now))
            else after[i] == rows[i])
      && (forall i :: |rows| <= i < |after| ==>
            after[i].roleId == roleId && after[i].permissionId in wanted
                && after[i].permissionId !in ActiveIds(rows, roleId))
  {
    var active := ActiveIds(rows, roleId);
    var after := Diff(rows, roleId, wanted, now, nextId);
    var missing := Where(wanted, NotIn(active));
    forall i | |rows| <= i < |after|
      ensures after[i].roleId == roleId && after[i].permissionId in wanted && after[i].permissionId !in active
    {
      assert after[i].permissionId == missing[i - |rows|];
      assert missing[i - |rows|] in missing;
    }
  }

  /**
   Afterwards the role grants exactly the wanted permissions, once each if neither the role nor the
   request repeated one, and no other role's grants change.
   */
  lemma DiffReachesTheWantedSet(rows: seq<RolePermission>, roleId: string, wanted: seq<string>, now: nat, nextId: nat)
    ensures var after := Diff(rows, roleId, wanted, now, nextId);
      && Elements(ActiveIds(after, roleId)) == Elements(wanted)
      && (Distinct(ActiveIds(rows, roleId)) && Distinct(wanted) ==> Distinct(ActiveIds(after, roleId)))
      && (forall other :: other != roleId ==> ActiveIds(after, other) == ActiveIds(rows, other))
  {
    var active := ActiveIds(rows, roleId);
    var after := Diff(rows, roleId, wanted, now, nextId);
    forall other ensures other != roleId ==> ActiveIds(after, other) == ActiveIds(rows, other) {
      ActiveAfterDiff(rows, roleId, wanted, now, nextId, other);
    }
    ActiveAfterDiff(rows, roleId, wanted, now, nextId, roleId);
    var kept, missing := Where(active, In(wanted)), Where(wanted, NotIn(active));
    forall id ensures id in Elements(ActiveIds(after, roleId)) <==> id in Elements(wanted) {
      assert id in kept + missing <==> id in kept || id in missing;
    }
    if Distinct(active) && Distinct(wanted) {
      WhereKeepsDistinct(active, In(wanted));
      WhereKeepsDistinct(wanted, NotIn(active));
      DistinctConcat(kept, missing);
    }
  }

  lemma {:induction false} NothingMissing(wanted: seq<string>, active: seq<string>)
    requires Elements(wanted) <= Elements(active)
    ensures Where(wanted, NotIn(active)) == []
  {
    if wanted != [] {
      assert wanted[0] in Elements(wanted);
      assert Elements(wanted[1..]) <= Elements(wanted);
      NothingMissing(wanted[1..], active);
    }
  }

  /** Asking for the same permissions again, at any later time, writes nothing. */
  lemma DiffTwiceIsDiffOnce(rows: seq<RolePermission>, roleId: string, wanted: seq<string>, now: nat, nextId: nat,
                            later: nat, nextId2: nat)
    ensures var after := Diff(rows, roleId, wanted, now, nextId);
      Diff(after, roleId, wanted, later, nextId2) == after
  {
    var after := Diff(rows, roleId, wanted, now, nextId);
    DiffReachesTheWantedSet(rows, roleId, wanted, now, nextId);
    NothingMissing(wanted, ActiveIds(after, roleId));
    forall i | 0 <= i < |after| ensures Retired(roleId, wanted, later)(after[i]) == after[i] {
    }
    assert Map(after, Retired(roleId, wanted, later)) == after;
  }

  /** A role moved to an accepted list of names grants exactly the permissions that carry those names. */
  lemma RoleGrantsTheRequestedNames(permissions: seq<Permission>, rows: seq<RolePermission>, roleId: string,
                                    names: seq<string>, ids: Option<seq<string>>, now: nat, nextId: nat)
    requires UniquePermissions(permissions) && names != []
    requires FindPermissions(permissions, Some(names), ids).Ok?
    ensures var found := FindPermissions(permissions, Some(names), ids).value;
      var after := ActiveIds(Diff(rows, roleId, Map(found, PermissionId), now, nextId), roleId);
      && (forall p :: p in permissions ==> (p.id in after <==> p.name in names))
      && (Distinct(ActiveIds(rows, roleId)) ==> Distinct(after))
  {
    var found := FindPermissions(permissions, Some(names), ids).value;
    var wanted := Map(found, PermissionId);
    AcceptedNames(permissions, names, ids);
    DiffReachesTheWantedSet(rows, roleId, wanted, now, nextId);
    var after := ActiveIds(Diff(rows, roleId, wanted, now, nextId), roleId);
    forall p | p in permissions ensures p.id in after <==> p.name in names {
      assert p.id in after <==> p.id in Elements(wanted);
      if p.name in names {
        var i :| 0 <= i < |found| && found[i] == p;
        assert wanted[i] == p.id;
      }
      if p.id in Elements(wanted) {
        var i :| 0 <= i < |found| && wanted[i] == p.id;
        assert found[i] in permissions;
        SamePermission(permissions, p, found[i]);
      }
    }
  }

  lemma SamePermission(permissions: seq<Permission>, p: Permission, q: Permission)
    requires UniquePermissions(permissions) && p in permissions && q in permissions
        && (p.id == q.id || p.name == q.name)
    ensures p == q
  {
    var i :| 0 <= i < |permissions| && permissions[i] == p;
    var j :| 0 <= j < |permissions| && permissions[j] == q;
    assert Map(permissions, PermissionId)[i] == p.id && Map(permissions, PermissionId)[j] == q.id;
    assert Map(permissions, PermissionName)[i] == p.name && Map(permissions, PermissionName)[j] == q.name;
  }

  /** An active row of the role carries the permission. */
  ghost predicate Grants(rows: seq<RolePermission>, roleId: string, id: string) {
    exists row :: row in rows && row.roleId == roleId && row.deletedAt.None? && row.permissionId == id
  }

  lemma GrantedIffActiveRow(rows: seq<RolePermission>, roleId: string, id: string)
    ensures id in ActiveIds(rows, roleId) <==> Grants(rows, roleId, id)
  {
    var active := Where(rows, ActiveIn(roleId));
    if id in ActiveIds(rows, roleId) {
      var i :| 0 <= i < |active| && active[i].permissionId == id;
      assert active[i] in active;
    }
    if row :| row in rows && row.roleId == roleId && row.deletedAt.None? && row.permissionId == id {
      var i :| 0 <= i < |active| && active[i] == row;
      assert ActiveIds(rows, roleId)[i] == id;
    }
  }

  // ----- editing a role -----

  datatype RoleEdit = RoleEdit(name: string, description: Option<string>, names: Option<seq<string>>,
                               ids: Option<seq<string>>)

  /** A role as it is answered: with the permissions it grants. */
  datatype LoadedRole = LoadedRole(role: Role, permissionIds: seq<string>)

  function Loaded(t: Tables, roleId: string): LoadedRole
    requires roleId in t.roles
  {
    LoadedRole(t.roles[roleId], ActiveIds(t.rolePermissions, roleId))
  }

  predicate NameTaken(roles: map<string, Role>, roleId: string, name: string) {
    exists id :: id in roles && id != roleId && roles[id].name == name
  }

  function Renamed(role: Role, name: string, description: Option<string>): Role {
    Role(if name != "" then name else role.name, if description.Some? then description.value else role.description)
  }

  /** The tables after an existing role is given a permission list; a rejected list changes nothing. */
  function WithPermissions(t: Tables, roleId: string, names: Option<seq<string>>, ids: Option<seq<string>>, now: nat,
                           nextId: nat): Tables {
    match FindPermissions(t.permissions, names, ids)
    case Err(_) => t
    case Ok(found) => t.(rolePermissions := Diff(t.rolePermissions, roleId, Map(found, PermissionId), now, nextId))
  }

  /** The request asks for this permission: by name if it names any, else by id. */
  ghost predicate Asked(p: Permission, names: Option<seq<string>>, ids: Option<seq<string>>) {
    if names.Some? && names.value != [] then p.name in names.value else ids.Some? && p.id in ids.value
  }

  ghost predicate AskedFor(permissions: seq<Permission>, id: string, names: Option<seq<string>>,
                           ids: Option<seq<string>>) {
    exists p :: p in permissions && p.id == id && Asked(p, names, ids)
  }

  /** The role grants exactly the permissions asked for, and nothing but its own rows has changed. */
  ghost predicate RoleMoved(t: Tables, u: Tables, roleId: string, names: Option<seq<string>>,
                            ids: Option<seq<string>>, now: nat) {
    var before, after := t.rolePermissions, u.rolePermissions;
    && u == t.(rolePermissions := after)
    && (forall id :: Grants(after, roleId, id) <==> AskedFor(t.permissions, id, names, ids))
    && (forall other, id :: other != roleId ==> (Grants(after, other, id) <==> Grants(before, other, id)))
    && |before| <= |after|
    && (forall i :: 0 <= i < |before| ==>
          if before[i].roleId == roleId && before[i].deletedAt.None?
              && !AskedFor(t.permissions, before[i].permissionId, names, ids)
          then after[i] == before[i].(deletedAt := Some(now))
          else after[i] == before[i])
    && (forall i :: |before| <= i < |after| ==>
          after[i].roleId == roleId && after[i].deletedAt.None? && !Grants(before, roleId, after[i].permissionId))
  }

  lemma WantedIffAskedFor(permissions: seq<Permission>, names: Option<seq<string>>, ids: Option<seq<string>>,
                          id: string)
    requires FindPermissions(permissions, names, ids).Ok?
    ensures id in Map(FindPermissions(permissions, names, ids).value, PermissionId) <==>
      AskedFor(permissions, id, names, ids)
  {
    var found := FindPermissions(permissions, names, ids).value;
    var wanted := Map(found, PermissionId);
    forall p ensures p in found <==> p in permissions && Asked(p, names, ids) {
      if names.Some? && names.value != [] {
        assert found == WithKeyIn(permissions, PermissionName, names.value);
        assert PermissionName(p) == p.name;
      } else if ids.Some? && ids.value != [] {
        assert found == WithKeyIn(permissions, PermissionId, ids.value);
        assert PermissionId(p) == p.id;
      }
    }
    if id in wanted {
      var i :| 0 <= i < |wanted| && wanted[i] == id;
      assert found[i] in found;
    }
    if p :| p in permissions && p.id == id && Asked(p, names, ids) {
      assert p in found;
      var i :| 0 <= i < |found| && found[i] == p;
      assert wanted[i] == id;
    }
  }

  /**
   An accepted request moves the role to what it asks for: afterwards the role grants a permission exactly when the
   request asks for it (an empty request: none), its rows that stay wanted are the same rows, and no other row changes.
   */
  lemma AcceptedRequestMovesTheRole(t: Tables, roleId: string, names: Option<seq<string>>, ids: Option<seq<string>>,
                                    now: nat, nextId: nat)
    requires FindPermissions(t.permissions, names, ids).Ok?
    ensures RoleMoved(t, WithPermissions(t, roleId, names, ids, now, nextId), roleId, names, ids, now)
  {
    var before, wanted := t.rolePermissions, Map(FindPermissions(t.permissions, names, ids).value, PermissionId);
    var after := Diff(before, roleId, wanted, now, nextId);
    forall id ensures id in wanted <==> AskedFor(t.permissions, id, names, ids) {
      WantedIffAskedFor(t.permissions, names, ids, id);
    }
    DiffReachesTheWantedSet(before, roleId, wanted, now, nextId);
    RowsAfterDiff(before, roleId, wanted, now, nextId);
    forall other, id
      ensures Grants(after, other, id) <==> if other == roleId then id in wanted else Grants(before, other, id)
    {
      GrantedIffActiveRow(after, other, id);
      GrantedIffActiveRow(before, other, id);
      assert other == roleId ==> (id in ActiveIds(after, roleId) <==> id in Elements(wanted));
    }
    forall i | |before| <= i < |after|
      ensures after[i].deletedAt.None? && !Grants(before, roleId, after[i].permissionId)
    {
      GrantedIffActiveRow(before, roleId, after[i].permissionId);
    }
  }

  /** The edit brings a permission list, and the list is not accepted. */
  predicate ListRejected(t: Tables, edit: RoleEdit) {
    (edit.names.Some? || edit.ids.Some?) && FindPermissions(t.permissions, edit.names, edit.ids).Err?
  }

  /** The edit gets as far as saving the role. */
  predicate Reaches(t: Tables, roleId: string, edit: RoleEdit) {
    roleId in t.roles && !(edit.name != "" && NameTaken(t.roles, roleId, edit.name))
  }

  function AfterEdit(t: Tables, roleId: string, edit: RoleEdit, now: nat, nextId: nat): Tables {
    if !Reaches(t, roleId, edit) then t
    else
      var saved := t.(roles := t.roles[roleId := Renamed(t.roles[roleId], edit.name, edit.description)]);
      if edit.names.None? && edit.ids.None? then saved
          else WithPermissions(saved, roleId, edit.names, edit.ids, now, nextId)
  }

  /** A saved edit takes the name and the description it gives, and keeps the role's own where it gives none. */
  lemma EditTakesWhatItGives(t: Tables, roleId: string, edit: RoleEdit, now: nat, nextId: nat)
    requires Reaches(t, roleId, edit)
    ensures var roles := AfterEdit(t, roleId, edit, now, nextId).roles;
      && roles.Keys == t.roles.Keys
      && (forall other :: other in roles && other != roleId ==> roles[other] == t.roles[other])
      && (edit.name != "" ==> roles[roleId].name == edit.name)
      && (edit.name == "" ==> roles[roleId].name == t.roles[roleId].name)
      && (edit.description.Some? ==> roles[roleId].description == edit.description.value)
      && (edit.description.None? ==> roles[roleId].description == t.roles[roleId].description)
  {
  }

  /**
   Of its permissions, a saved edit leaves the role what it had unless it brings a list, and moves it to an
   accepted list.
   */
  lemma AcceptedEditMovesTheRole(t: Tables, roleId: string, edit: RoleEdit, now: nat, nextId: nat)
    requires Reaches(t, roleId, edit) && !ListRejected(t, edit)
    ensures var u := AfterEdit(t, roleId, edit, now, nextId);
      if edit.names.None? && edit.ids.None? then u == t.(roles := u.roles)
      else RoleMoved(t.(roles := u.roles), u, roleId, edit.names, edit.ids, now)
  {
    if edit.names.Some? || edit.ids.Some? {
      var saved := t.(roles := t.roles[roleId := Renamed(t.roles[roleId], edit.name, edit.description)]);
      AcceptedRequestMovesTheRole(saved, roleId, edit.names, edit.ids, now, nextId);
    }
  }

  ghost predicate DistinctRoleNames(roles: map<string, Role>) {
    forall a, b :: a in roles && b in roles && a != b ==> roles[a].name != roles[b].name
  }

  /** No edit gives two roles one name; and an edit is turned away for its name only when another role has it. */
  lemma EditsKeepRoleNamesDistinct(t: Tables, roleId: string, edit: RoleEdit, now: nat, nextId: nat)
    requires DistinctRoleNames(t.roles)
    ensures DistinctRoleNames(AfterEdit(t, roleId, edit, now, nextId).roles)
    ensures roleId in t.roles ==>
      (Reaches(t, roleId, edit) <==> edit.name == "" || forall id :: id in t.roles && t.roles[id].name == edit.name ==>
       id == roleId)
  {
    if Reaches(t, roleId, edit) {
      EditTakesWhatItGives(t, roleId, edit, now, nextId);
    }
  }

  /** An edit rejected for its permission list leaves the tables alone exactly when it renames nothing. */
  lemma RejectedEditChangesNothingIff(t: Tables, roleId: string, edit: RoleEdit, now: nat, nextId: nat)
    requires Reaches(t, roleId, edit) && ListRejected(t, edit)
    ensures AfterEdit(t, roleId, edit, now, nextId) == t <==>
      Renamed(t.roles[roleId], edit.name, edit.description) == t.roles[roleId]
  {
    var renamed := Renamed(t.roles[roleId], edit.name, edit.description);
    assert t.roles[roleId := renamed][roleId] == renamed;
    if renamed == t.roles[roleId] {
      assert t.roles[roleId := renamed] == t.roles;
    }
  }

  /** A rejected edit that does rename: the new name stays. */
  lemma RejectedEditRenames(now: nat, nextId: nat)
    ensures var t := Tables([], map["r" := Role("old", "")], [], [], []);
      var edit := RoleEdit("new", None, Some(["unknown"]), None);
      && Reaches(t, "r", edit) && ListRejected(t, edit)
      && AfterEdit(t, "r", edit, now, nextId).roles["r"].name == "new"
  {
    assert WithKeyIn([], PermissionName, ["unknown"]) == [];
  }

  // ----- the service -----

  class RoleService {
    var tables: Tables
    var nextId: nat

    ghost predicate Valid()
      reads this
    {
      && UniquePermissions(tables.permissions)
      && Distinct(Map(tables.rolePermissions, RowId))
      && forall i :: 0 <= i < |tables.rolePermissions| ==> tables.rolePermissions[i].id < nextId
    }

    constructor (tables: Tables, nextId: nat)
      requires UniquePermissions(tables.permissions)
      requires Distinct(Map(tables.rolePermissions, RowId))
      requires forall i :: 0 <= i < |tables.rolePermissions| ==> tables.rolePermissions[i].id < nextId
      ensures Valid() && this.tables == tables && this.nextId == nextId
    {
      this.tables, this.nextId := tables, nextId;
    }

    /** Sets the deletion date on the loaded rows and saves them. */
    method RetireRows(toDelete: seq<RolePermission>, now: nat)
      requires Valid() && Distinct(toDelete)
      requires forall row :: row in toDelete ==> row in tables.rolePermissions
      modifies this`tables
      ensures Valid()
      ensures tables == old(tables).(rolePermissions := tables.rolePermissions)
      ensures |tables.rolePermissions| == |old(tables.rolePermissions)|
      ensures forall i :: 0 <= i < |tables.rolePermissions| ==>
        var row := old(tables.rolePermissions)[i];
        tables.rolePermissions[i] == if row in toDelete then row.(deletedAt := Some(now)) else row
    {
      ghost var before := tables.rolePermissions;
      var rows := tables.rolePermissions;
      for k := 0 to |toDelete|
        invariant |rows| == |before|
        invariant forall i :: 0 <= i < |rows| ==>
          rows[i] == if before[i] in toDelete[..k] then before[i].(deletedAt := Some(now)) else before[i]
      {
        var rolePermission := toDelete[k].(deletedAt := Some(now));
        ghost var previous := rows;
        rows := Saved(rows, rolePermission, RowId);
        assert toDelete[..k + 1] == toDelete[..k] + [toDelete[k]];
        forall i | 0 <= i < |rows|
          ensures rows[i] == if before[i] in toDelete[..k + 1] then before[i].(deletedAt := Some(now)) else before[i]
        {
          SameRow(before, i, toDelete[k]);
        }
      }
      assert toDelete[..|toDelete|] == toDelete;
      tables := tables.(rolePermissions := rows);
      assert Map(rows, RowId) == Map(before, RowId);
    }

    /** Sets the deletion date on the role's active rows that are not wanted. */
    method RetireUnwanted(roleId: string, active: seq<RolePermission>, wanted: seq<string>, now: nat)
      requires Valid() && active == Where(tables.rolePermissions, ActiveIn(roleId))
      modifies this`tables
      ensures Valid()
      ensures tables == old(tables).(rolePermissions := Map(old(tables.rolePermissions), Retired(roleId, wanted, now)))
    {
      var unwanted := (row: RolePermission) => row.permissionId !in wanted;
      var toDelete := Where(active, unwanted);
      WhereKeepsRowsDistinct(tables.rolePermissions, ActiveIn(roleId), unwanted);
      ghost var before := tables.rolePermissions;
      forall i | 0 <= i < |before|
        ensures before[i] in toDelete <==> ActiveIn(roleId)(before[i]) && before[i].permissionId !in wanted
      {
        assert before[i] in before;
      }
      if |toDelete| > 0 {
        RetireRows(toDelete, now);
      }
      assert tables.rolePermissions == Map(before, Retired(roleId, wanted, now));
    }

    /** Adds a row for each permission of the list. */
    method CreateRows(roleId: string, toCreate: seq<string>)
      requires Valid()
      modifies this
      ensures Valid()
      ensures tables == old(tables).(rolePermissions := tables.rolePermissions)
      ensures tables.rolePermissions == old(tables.rolePermissions) + NewRows(roleId, toCreate, old(nextId))
    {
      var created := NewRows(roleId, toCreate, nextId);
      ghost var before := tables.rolePermissions;
      tables := tables.(rolePermissions := tables.rolePermissions + created);
      nextId := nextId + |toCreate|;
      assert forall i :: 0 <= i < |before| ==> Map(tables.rolePermissions, RowId)[i] == Map(before, RowId)[i];
    }

    /** A permission id is answered exactly when an active row of the role carries it. */
    method GetRoleById(roleId: string) returns (r: Result<LoadedRole, Error>)
      ensures r == if roleId in tables.roles then Ok(Loaded(tables, roleId)) else Err(RoleNotFound)
      ensures r.Ok? ==> r.value.role == tables.roles[roleId]
      ensures r.Ok? ==> forall id :: id in r.value.permissionIds <==>
        Grants(tables.rolePermissions, roleId, id)
    {
      if roleId !in tables.roles {
        return Err(RoleNotFound);
      }
      forall id
        ensures id in ActiveIds(tables.rolePermissions, roleId) <==> Grants(tables.rolePermissions, roleId, id)
      {
        GrantedIffActiveRow(tables.rolePermissions, roleId, id);
      }
      return Ok(LoadedRole(tables.roles[roleId], ActiveIds(tables.rolePermissions, roleId)));
    }

    method UpdateRolePermissions(roleId: string, names: Option<seq<string>>, ids: Option<seq<string>>, now: nat)
      returns (r: Result<LoadedRole, Error>)
      requires Valid()
      modifies this
      ensures Valid()
      ensures roleId !in old(tables.roles) ==> r == Err(RoleNotFound) && tables == old(tables)
      ensures roleId in old(tables.roles) ==>
        && tables == WithPermissions(old(tables), roleId, names, ids, now, old(nextId))
        && r == match FindPermissions(old(tables.permissions), names, ids)
                case Err(e) => Err(e)
                case Ok(_) => Ok(Loaded(tables, roleId))
      ensures r.Ok? ==> RoleMoved(old(tables), tables, roleId, names, ids, now)
    {
      if roleId !in tables.roles {
        return Err(RoleNotFound);
      }
      var permissions := FindPermissions(tables.permissions, names, ids);
      if permissions.Err? {
        return Err(permissions.error);
      }
      AcceptedRequestMovesTheRole(tables, roleId, names, ids, now, nextId);
      var wanted := Map(permissions.value, PermissionId);
      var active := Where(tables.rolePermissions, ActiveIn(roleId));
      RetireUnwanted(roleId, active, wanted, now);
      var existing := Map(active, PermissionOf);
      var toCreate := Where(wanted, NotIn(existing));
      if |toCreate| > 0 {
        CreateRows(roleId, toCreate);
      }
      r := GetRoleById(roleId);
    }

    /** The name and description are saved before the permission list is looked at. */
    method UpdateRole(roleId: string, edit: RoleEdit, now: nat) returns (r: Result<LoadedRole, Error>)
      requires Valid()
      modifies this
      ensures Valid()
      ensures tables == AfterEdit(old(tables), roleId, edit, now, old(nextId))
      ensures r == if roleId !in old(tables.roles) then Err(RoleNotFound)
                   else if !Reaches(old(tables), roleId, edit) then Err(RoleAlreadyExists)
                   else if ListRejected(old(tables), edit)
                   then Err(FindPermissions(old(tables.permissions), edit.names, edit.ids).error)
                   else Ok(Loaded(tables, roleId))
    {
      if roleId !in tables.roles {
        return Err(RoleNotFound);
      }
      var role := tables.roles[roleId];
      if edit.name != "" {
        if NameTaken(tables.roles, roleId, edit.name) {
          return Err(RoleAlreadyExists);
        }
        role := role.(name := edit.name);
      }
      if edit.description.Some? {
        role := role.(description := edit.description.value);
      }
      tables := tables.(roles := tables.roles[roleId := role]);
      if edit.names.Some? || edit.ids.Some? {
        r := UpdateRolePermissions(roleId, edit.names, edit.ids, now);
        return;
      }
      r := GetRoleById(roleId);
    }
  }

  lemma SameRow(rows: seq<RolePermission>, i: nat, row: RolePermission)
    requires Distinct(Map(rows, RowId)) && i < |rows| && row in rows
    ensures rows[i].id == row.id <==> rows[i] == row
  {
    var j :| 0 <= j < |rows| && rows[j] == row;
    assert Map(rows, RowId)[i] == rows[i].id && Map(rows, RowId)[j] == row.id;
  }

  lemma WhereKeepsRowsDistinct(rows: seq<RolePermission>, p: RolePermission -> bool, q: RolePermission -> bool)
    requires Distinct(Map(rows, RowId))
    ensures Distinct(Where(Where(rows, p), q))
  {
    WhereKeepsKeysDistinct(rows, p, RowId);
    WhereKeepsKeysDistinct(Where(rows, p), q, RowId);
    var kept := Where(Where(rows, p), q);
    assert forall i :: 0 <= i < |kept| ==> Map(kept, RowId)[i] == kept[i].id;
  }
}
