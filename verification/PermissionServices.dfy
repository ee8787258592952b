/** The permission service: client-level operations over the tables and the stacked caches. */
module PermissionServices {
  import opened ClientPermissions
  import opened PermissionCaches
  import opened PermissionMatching
  import opened PermissionTables
  import opened RoleServices
  import opened StackedCaches
  import opened Wrappers

  class PermissionService {
    var now: nat
    var tables: Tables
    var directCache: map<string, Entry<seq<string>>>
    var roleCache: map<string, Entry<seq<RoleView>>>
    var effectiveCache: map<string, Entry<seq<string>>>

    ghost function Abstract(): State
      reads this
    {
      State(now, tables, directCache, roleCache, effectiveCache)
    }

    constructor (now: nat, tables: Tables)
      ensures Abstract() == Initial(now, tables)
    {
      this.now, this.tables := now, tables;
      directCache, roleCache, effectiveCache := map[], map[], map[];
    }

    /** Which of the commands the operation sends to Redis are lost is an input: `lost`. */
    method GetClientRoles(clientId: string, lost: set<Command>) returns (views: seq<RoleView>)
      modifies this`roleCache
      ensures Answer(Abstract(), views) == ReadRoles(QUERIES, old(Abstract()), clientId, lost)
    {
      if Command(Get, Roles) !in lost {
        var cached := Lookup(roleCache, clientId, now);
        if cached.Some? {
          return cached.value;
        }
      }
      views := RoleViews(tables, clientId);
      if Command(Set, Roles) !in lost {
        roleCache := roleCache[clientId := Entry(views, now)];
      }
    }

    method GetClientDirectPermissions(clientId: string, lost: set<Command>) returns (names: seq<string>)
      modifies this`directCache
      ensures Answer(Abstract(), names) == ReadDirect(QUERIES, old(Abstract()), clientId, lost)
    {
      if Command(Get, Direct) !in lost {
        var cached := Lookup(directCache, clientId, now);
        if cached.Some? {
          return cached.value;
        }
      }
      names := DirectNames(tables, clientId);
      if Command(Set, Direct) !in lost {
        directCache := directCache[clientId := Entry(names, now)];
      }
    }

    method GetClientEffectivePermissions(clientId: string, lost: set<Command>) returns (names: seq<string>)
      modifies this`directCache, this`roleCache, this`effectiveCache
      ensures Answer(Abstract(), names) == ReadEffective(QUERIES, old(Abstract()), clientId, lost)
    {
      if Command(Get, Effective) !in lost {
        var cached := Lookup(effectiveCache, clientId, now);
        if cached.Some? {
          return cached.value;
        }
      }
      PartReadsAreSeparate(QUERIES, Abstract(), clientId, lost);
      var direct := GetClientDirectPermissions(clientId, lost);
      var views := GetClientRoles(clientId, lost);
      names := CollectNames(direct, views);
      if Command(Set, Effective) !in lost {
        effectiveCache := effectiveCache[clientId := Entry(names, now)];
      }
    }

    method ClientHasPermission(clientId: string, permissionName: string, lost: set<Command>) returns (allowed: bool)
      modifies this`directCache, this`roleCache, this`effectiveCache
      ensures Abstract() == ReadEffective(QUERIES, old(Abstract()), clientId, lost).state
      ensures allowed == Allows(ReadEffective(QUERIES, old(Abstract()), clientId, lost).value, permissionName)
    {
      var permissionNames := GetClientEffectivePermissions(clientId, lost);
      if |permissionNames| == 0 {
        return false;
      }
      return CheckPermissionHierarchy(permissionNames, permissionName);
    }

    method InvalidateClientCache(clientId: string, lost: set<Command>)
      modifies this`directCache, this`roleCache, this`effectiveCache
      ensures Abstract() == Invalidate(old(Abstract()), clientId, lost)
    {
      if Command(Del, Effective) !in lost {
        effectiveCache := effectiveCache - {clientId};
      }
      if Command(Del, Direct) !in lost {
        directCache := directCache - {clientId};
      }
      if Command(Del, Roles) !in lost {
        roleCache := roleCache - {clientId};
      }
    }

    method AssignRoleToClient(clientId: string, roleId: string, lost: set<Command>)
      modifies this
      ensures Abstract() == Perform(QUERIES, old(Abstract()), AssignRole(clientId, roleId), lost)
    {
      var row := ClientRole(clientId, roleId);
      if row in tables.clientRoles {
        return;
      }
      InvalidateClientCache(clientId, lost);
      tables := tables.(clientRoles := tables.clientRoles + [row]);
    }

    method RemoveRoleFromClient(clientId: string, roleId: string, lost: set<Command>)
      modifies this
      ensures Abstract() == Perform(QUERIES, old(Abstract()), RemoveRole(clientId, roleId), lost)
    {
      var row := ClientRole(clientId, roleId);
      if row in tables.clientRoles {
        InvalidateClientCache(clientId, lost);
        tables := tables.(clientRoles := Where(tables.clientRoles, NotRow(row)));
      }
    }

    method AssignPermissionToClient(clientId: string, permissionName: string, lost: set<Command>)
      returns (r: Result<(), Error>)
      modifies this
      ensures Abstract() == Perform(QUERIES, old(Abstract()), AssignPermission(clientId, permissionName), lost)
      ensures r.Ok? <==> Known(old(tables), permissionName)
    {
      InvalidateClientCache(clientId, lost);
      var permission := FindByName(tables.permissions, permissionName);
      if permission.None? {
        return Err(PermissionNotFound);
      }
      var row := ClientPermission(clientId, permission.value.id);
      if row in tables.clientPermissions {
        return Ok(());
      }
      tables := tables.(clientPermissions := tables.clientPermissions + [row]);
      return Ok(());
    }

    method RemovePermissionFromClient(clientId: string, permissionName: string, lost: set<Command>)
      modifies this
      ensures Abstract() == Perform(QUERIES, old(Abstract()), RemovePermission(clientId, permissionName), lost)
    {
      InvalidateClientCache(clientId, lost);
      var permission := FindByName(tables.permissions, permissionName);
      if permission.None? {
        return;
      }
      tables := Without(tables, ClientPermission(clientId, permission.value.id));
    }

    /** One query for all names; answers the names it did not find, in the order they were asked for. */
    method ValidatePermissionsExist(permissionNames: seq<string>) returns (missing: seq<string>)
      ensures missing == Where(permissionNames, Unknown(tables.permissions))
      ensures missing == [] <==> AllKnown(tables, permissionNames)
    {
      if |permissionNames| == 0 {
        return [];
      }
      var existing := WithKeyIn(tables.permissions, PermissionName, permissionNames);
      var existingNames := Map(existing, PermissionName);
      missing := Where(permissionNames, NotIn(existingNames));
      forall name | name in permissionNames
        ensures Unknown(tables.permissions)(name) <==> NotIn(existingNames)(name)
      {
        FoundByQueryIffKnown(tables.permissions, permissionNames, name);
      }
      WhereAgree(permissionNames, NotIn(existingNames), Unknown(tables.permissions));
      assert missing != [] ==> missing[0] in missing;
    }

    /** Losses say which deletes of the k-th name's invalidation are lost. */
    method AssignPermissionsToClient(clientId: string, permissionNames: seq<string>, losses: nat -> set<Command>)
      returns (r: Result<(), Error>)
      modifies this
      ensures Abstract()
           == Perform(QUERIES, old(Abstract()), AssignPermissions(clientId, permissionNames),
                      LostByAll(losses, |permissionNames|))
      ensures r.Ok? <==> AllKnown(old(tables), permissionNames)
    {
      var missing := ValidatePermissionsExist(permissionNames);
      if |missing| > 0 {
        return Err(PermissionNotFound);
      }
      ghost var before := Abstract();
      for k := 0 to |permissionNames|
        invariant Abstract() == AfterAssigned(before, clientId, permissionNames[..k], losses)
      {
        var linked := AssignPermissionToClient(clientId, permissionNames[k], losses(k));
        NextAssigned(before, clientId, permissionNames, losses, k);
      }
      assert permissionNames[..|permissionNames|] == permissionNames;
      return Ok(());
    }

    method RemovePermissionsFromClient(clientId: string, permissionNames: seq<string>, losses: nat -> set<Command>)
      modifies this
      ensures Abstract()
           == Perform(QUERIES, old(Abstract()), RemovePermissions(clientId, permissionNames),
                      LostByAll(losses, |permissionNames|))
    {
      ghost var before := Abstract();
      for k := 0 to |permissionNames|
        invariant Abstract() == AfterRemoved(before, clientId, permissionNames[..k], losses)
      {
        RemovePermissionFromClient(clientId, permissionNames[k], losses(k));
        NextRemoved(before, clientId, permissionNames, losses, k);
      }
      assert permissionNames[..|permissionNames|] == permissionNames;
    }

    /** A first invalidation, then those of the names if all are known: a delete is lost when all its attempts are. */
    method UpdateClientPermissions(clientId: string, permissionNames: seq<string>, lost: set<Command>,
                                   losses: nat -> set<Command>)
      returns (r: Result<(), Error>)
      modifies this
      ensures Abstract() == Perform(QUERIES, old(Abstract()), UpdatePermissions(clientId, permissionNames),
                                    if permissionNames != [] && AllKnown(old(tables), permissionNames)
                                    then lost * LostByAll(losses, |permissionNames|) else lost)
      ensures r.Ok? <==> AllKnown(old(tables), permissionNames)
    {
      ghost var before := Abstract();
      InvalidateClientCache(clientId, lost);
      tables := Cleared(tables, clientId);
      r := AssignPermissionsToClient(clientId, permissionNames, losses);
      InvalidateTwice(before, clientId, lost, LostByAll(losses, |permissionNames|));
    }
  }

  /** The deletes lost in each of the first n attempts, of which there is at least one. */
  function LostByAll(losses: nat -> set<Command>, n: nat): set<Command> {
    if n <= 1 then losses(0) else LostByAll(losses, n - 1) * losses(n - 1)
  }

  /** The state after the first names of a list have been assigned, one by one. */
  function AfterAssigned(s: State, clientId: string, names: seq<string>, losses: nat -> set<Command>): State {
    if names == [] then s
    else Invalidate(s, clientId, LostByAll(losses, |names|)).(tables := AssignedAll(s.tables, clientId, names))
  }

  lemma NextAssigned(s: State, clientId: string, names: seq<string>, losses: nat -> set<Command>, k: nat)
    requires k < |names|
    ensures Perform(QUERIES, AfterAssigned(s, clientId, names[..k], losses), AssignPermission(clientId, names[k]),
                    losses(k))
         == AfterAssigned(s, clientId, names[..k + 1], losses)
  {
    var some, all := names[..k], names[..k + 1];
    assert all[..k] == some && all[k] == names[k];
    assert AssignedAll(s.tables, clientId, all) == Assigned(AssignedAll(s.tables, clientId, some), clientId, names[k]);
    if k == 0 {
      assert some == [] && AfterAssigned(s, clientId, some, losses) == s;
      assert LostByAll(losses, 1) == losses(0);
    } else {
      InvalidateTwice(s, clientId, LostByAll(losses, k), losses(k));
      assert LostByAll(losses, k + 1) == LostByAll(losses, k) * losses(k);
      assert |some| == k && AfterAssigned(s, clientId, some, losses).tables == AssignedAll(s.tables, clientId, some);
    }
  }

  function AfterRemoved(s: State, clientId: string, names: seq<string>, losses: nat -> set<Command>): State {
    if names == [] then s
    else Invalidate(s, clientId, LostByAll(losses, |names|)).(tables := RemovedAll(s.tables, clientId, names))
  }

  lemma NextRemoved(s: State, clientId: string, names: seq<string>, losses: nat -> set<Command>, k: nat)
    requires k < |names|
    ensures Perform(QUERIES, AfterRemoved(s, clientId, names[..k], losses), RemovePermission(clientId, names[k]),
                    losses(k))
         == AfterRemoved(s, clientId, names[..k + 1], losses)
  {
    var some, all := names[..k], names[..k + 1];
    assert all[..k] == some && all[k] == names[k];
    assert RemovedAll(s.tables, clientId, all) == Removed(RemovedAll(s.tables, clientId, some), clientId, names[k]);
    if k == 0 {
      assert some == [] && AfterRemoved(s, clientId, some, losses) == s;
      assert LostByAll(losses, 1) == losses(0);
    } else {
      InvalidateTwice(s, clientId, LostByAll(losses, k), losses(k));
      assert LostByAll(losses, k + 1) == LostByAll(losses, k) * losses(k);
      assert |some| == k && AfterRemoved(s, clientId, some, losses).tables == RemovedAll(s.tables, clientId, some);
    }
  }

  lemma {:induction false} LostByAllIffLostEachTime(losses: nat -> set<Command>, n: nat, command: Command)
    requires n > 0
    ensures command in LostByAll(losses, n) <==> forall k: nat :: k < n ==> command in losses(k)
  {
    if n > 1 {
      LostByAllIffLostEachTime(losses, n - 1, command);
      assert (forall k: nat :: k < n ==> command in losses(k))
        <==> (forall k: nat :: k < n - 1 ==> command in losses(k)) && command in losses(n - 1);
    }
  }

  function Unknown(permissions: seq<Permission>): string -> bool {
    (name: string) => FindByName(permissions, name).None?
  }

  lemma FoundByQueryIffKnown(permissions: seq<Permission>, names: seq<string>, name: string)
    requires name in names
    ensures name in Map(WithKeyIn(permissions, PermissionName, names), PermissionName) <==>
      FindByName(permissions, name).Some?
  {
    KnownIffNamed(permissions, name);
    KeysFound(permissions, PermissionName, names);
    assert name in Elements(names);
    var all := Map(permissions, PermissionName);
    if p :| p in permissions && p.name == name {
      var i :| 0 <= i < |permissions| && permissions[i] == p;
      assert all[i] == name;
    }
    assert name in all <==> name in Elements(all);
    var found := Map(WithKeyIn(permissions, PermissionName, names), PermissionName);
    assert name in found <==> name in Elements(found);
  }

  lemma {:induction false} WhereAgree(names: seq<string>, p: string -> bool, q: string -> bool)
    requires forall name :: name in names ==> p(name) == q(name)
    ensures Where(names, p) == Where(names, q)
  {
    if names != [] {
      WhereAgree(names[1..], p, q);
    }
  }

  /** Fills a Set with the direct names, then with every role's non-empty names. */
  method CollectNames(direct: seq<string>, views: seq<RoleView>) returns (names: seq<string>)
    ensures names == Combine(direct, views)
  {
    names := [];
    for k := 0 to |direct|
      invariant names == AddAll([], direct[..k])
    {
      assert direct[..k + 1][..k] == direct[..k];
      if direct[k] !in names {
        names := names + [direct[k]];
      }
    }
    assert direct[..|direct|] == direct;
    ghost var start := names;
    for k := 0 to |views|
      invariant names == AddRoles(start, views[..k])
    {
      assert views[..k + 1][..k] == views[..k];
      var granted := Where(views[k].permissionNames, NonEmpty);
      ghost var before := names;
      for m := 0 to |granted|
        invariant names == AddAll(before, granted[..m])
      {
        assert granted[..m + 1][..m] == granted[..m];
        if granted[m] !in names {
          names := names + [granted[m]];
        }
      }
      assert granted[..|granted|] == granted;
    }
    assert views[..|views|] == views;
  }
}
