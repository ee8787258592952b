/** The permission tables, the queries over them, and the look-up that validates a list of permissions. */
module PermissionTables {
  import opened Wrappers

  datatype Permission = Permission(id: string, name: string)

  datatype Role = Role(name: string, description: string)

  datatype RolePermission = RolePermission(id: nat, roleId: string, permissionId: string, deletedAt: Option<nat>)

  datatype ClientRole = ClientRole(clientId: string, roleId: string)

  datatype ClientPermission = ClientPermission(clientId: string, permissionId: string)

  datatype Tables = Tables(
    permissions: seq<Permission>,
    roles: map<string, Role>,
    rolePermissions: seq<RolePermission>,
    clientRoles: seq<ClientRole>,
    clientPermissions: seq<ClientPermission>)

  datatype Error = PermissionNotFound | RoleNotFound | RoleAlreadyExists

  ghost predicate Distinct<T>(s: seq<T>) {
    forall i, j :: 0 <= i < j < |s| ==> s[i] != s[j]
  }

  function Elements<T(==)>(s: seq<T>): set<T> {
    set x | x in s
  }

  /** The rows a query returns, in table order. */
  function Where<T(!new)>(rows: seq<T>, p: T -> bool): (r: seq<T>)
    ensures forall x :: x in r <==> x in rows && p(x)
  {
    if rows == [] then []
    else if p(rows[0]) then [rows[0]] + Where(rows[1..], p)
    else Where(rows[1..], p)
  }

  ghost predicate InOrder(at: seq<nat>) {
    forall i, j :: 0 <= i < j < |at| ==> at[i] < at[j]
  }

  ghost predicate PointsAt<T>(rows: seq<T>, picked: seq<T>, at: seq<nat>) {
    |picked| == |at| && forall i :: 0 <= i < |at| ==> at[i] < |rows| && picked[i] == rows[at[i]]
  }

  /** The positions of the rows that satisfy p, and no others. */
  ghost predicate PositionsOf<T(!new)>(rows: seq<T>, p: T -> bool, at: seq<nat>) {
    forall k :: 0 <= k < |rows| ==> (k in at <==> p(rows[k]))
  }

  /** A query returns each row that satisfies it once, in table order. */
  lemma {:induction false} WherePositions<T(!new)>(rows: seq<T>, p: T -> bool) returns (at: seq<nat>)
    ensures InOrder(at) && PointsAt(rows, Where(rows, p), at) && PositionsOf(rows, p, at)
  {
    at := [];
    if rows != [] {
      var rest := WherePositions(rows[1..], p);
      at := (if p(rows[0]) then [0] else []) + Later(rest);
      OneMoreRow(rows, p, rest);
      PointsAtOneMore(rows, Where(rows[1..], p), rest, p(rows[0]));
      WhereStep(rows, p);
    }
  }

  lemma WhereStep<T(!new)>(rows: seq<T>, p: T -> bool)
    requires rows != []
    ensures Where(rows, p) == (if p(rows[0]) then [rows[0]] else []) + Where(rows[1..], p)
  {
    if !p(rows[0]) {
      assert [] + Where(rows[1..], p) == Where(rows[1..], p);
    }
  }

  lemma PointsAtOneMore<T>(rows: seq<T>, picked: seq<T>, rest: seq<nat>, hit: bool)
    requires rows != [] && PointsAt(rows[1..], picked, rest)
    ensures PointsAt(rows, (if hit then [rows[0]] else []) + picked, (if hit then [0] else []) + Later(rest))
  {
    var at, all := (if hit then [0] else []) + Later(rest), (if hit then [rows[0]] else []) + picked;
    var n := if hit then 1 else 0;
    forall i | 0 <= i < |at| ensures at[i] < |rows| && all[i] == rows[at[i]] {
      if n <= i {
        assert at[i] == rest[i - n] + 1 && all[i] == picked[i - n];
      }
    }
  }

  lemma OneMoreRow<T(!new)>(rows: seq<T>, p: T -> bool, rest: seq<nat>)
    requires rows != [] && InOrder(rest) && PositionsOf(rows[1..], p, rest)
    ensures var at := (if p(rows[0]) then [0] else []) + Later(rest);
      InOrder(at) && PositionsOf(rows, p, at)
  {
    var first := if p(rows[0]) then [0] else [];
    var at := first + Later(rest);
    forall k | 0 <= k < |rows| ensures k in at <==> p(rows[k]) {
      assert k in at <==> k in first || k in Later(rest);
      if k > 0 {
        assert rows[1..][k - 1] == rows[k];
        InLater(rest, k);
      }
    }
  }

  function Later(at: seq<nat>): (r: seq<nat>)
    ensures |r| == |at| && forall i :: 0 <= i < |r| ==> r[i] == at[i] + 1
  {
    seq(|at|, i requires 0 <= i < |at| => at[i] + 1)
  }

  lemma InLater(at: seq<nat>, k: nat)
    requires k > 0
    ensures k in Later(at) <==> k - 1 in at
  {
    if k - 1 in at {
      var i :| 0 <= i < |at| && at[i] == k - 1;
      assert Later(at)[i] == k;
    }
  }

  function Map<T, U>(rows: seq<T>, f: T -> U): (r: seq<U>)
    ensures |r| == |rows| && forall i :: 0 <= i < |r| ==> r[i] == f(rows[i])
  {
    seq(|rows|, i requires 0 <= i < |rows| => f(rows[i]))
  }

  /** The unique constraints on the permission table. */
  ghost predicate UniquePermissions(permissions: seq<Permission>) {
    Distinct(Map(permissions, PermissionName)) && Distinct(Map(permissions, PermissionId))
  }

  function PermissionName(p: Permission): string { p.name }

  function PermissionId(p: Permission): string { p.id }

  lemma {:induction false} WhereKeepsKeysDistinct<T(!new), K>(rows: seq<T>, p: T -> bool, key: T -> K)
    requires Distinct(Map(rows, key))
    ensures Distinct(Map(Where(rows, p), key))
  {
    if rows != [] {
      var rest := Where(rows[1..], p);
      assert forall i :: 0 <= i < |rows[1..]| ==> Map(rows[1..], key)[i] == Map(rows, key)[i + 1];
      WhereKeepsKeysDistinct(rows[1..], p, key);
      forall x | x in rest ensures key(x) != key(rows[0]) {
        var i :| 0 <= i < |rows[1..]| && rows[1..][i] == x;
        assert Map(rows, key)[i + 1] == key(x) && Map(rows, key)[0] == key(rows[0]);
      }
    }
  }

  lemma {:induction false} WhereKeepsDistinct<T(!new)>(rows: seq<T>, p: T -> bool)
    requires Distinct(rows)
    ensures Distinct(Where(rows, p))
  {
    if rows != [] {
      WhereKeepsDistinct(rows[1..], p);
    }
  }

  lemma {:induction false} DistinctIffNothingCollapses<T>(s: seq<T>)
    ensures |Elements(s)| <= |s|
    ensures Distinct(s) <==> |Elements(s)| == |s|
  {
    if s != [] {
      var tail := s[1..];
      DistinctIffNothingCollapses(tail);
      assert Elements(s) == Elements(tail) + {s[0]};
      if s[0] in tail {
        var i :| 0 <= i < |tail| && tail[i] == s[0];
        assert s[i + 1] == s[0] && Elements(s) == Elements(tail);
        assert !Distinct(s);
      } else if Distinct(s) {
        assert forall i, j :: 0 <= i < j < |tail| ==> tail[i] == s[i + 1] && tail[j] == s[j + 1];
      }
    }
  }

  lemma SubsetOfSameSizeIsAll<T>(small: set<T>, big: set<T>)
    requires small <= big
    ensures |small| <= |big|
    ensures |small| == |big| ==> small == big
  {
    assert big == small + (big - small);
  }

  // ----- findPermissions -----

  function KeyIn(key: Permission -> string, wanted: seq<string>): Permission -> bool {
    (p: Permission) => key(p) in wanted
  }

  function WithKeyIn(permissions: seq<Permission>, key: Permission -> string, wanted: seq<string>): seq<Permission> {
    Where(permissions, KeyIn(key, wanted))
  }

  function FindPermissions(permissions: seq<Permission>, names: Option<seq<string>>, ids: Option<seq<string>>)
    : (r: Result<seq<Permission>, Error>)
    ensures r.Err? ==> r.error == PermissionNotFound
  {
    if names.Some? && |names.value| > 0 then
      var found := WithKeyIn(permissions, PermissionName, names.value);
      if |found| != |names.value| then Err(PermissionNotFound) else Ok(found)
    else if ids.Some? && |ids.value| > 0 then
      var found := WithKeyIn(permissions, PermissionId, ids.value);
      if |found| != |ids.value| then Err(PermissionNotFound) else Ok(found)
    else
      Ok([])
  }

  /** Comparing lengths finds out exactly whether the wanted keys are distinct and all present. */
  lemma LengthCheckIsExact(permissions: seq<Permission>, key: Permission -> string, wanted: seq<string>)
    requires Distinct(Map(permissions, key))
    ensures var found := WithKeyIn(permissions, key, wanted);
      && (|found| == |wanted| <==> Distinct(wanted) && Elements(wanted) <= Elements(Map(permissions, key)))
      && (|found| == |wanted| ==> Distinct(Map(found, key)) && Elements(Map(found, key)) == Elements(wanted))
  {
    var p := KeyIn(key, wanted);
    var found := Where(permissions, p);
    var keys := Map(found, key);
    WhereKeepsKeysDistinct(permissions, p, key);
    DistinctIffNothingCollapses(keys);
    DistinctIffNothingCollapses(wanted);
    KeysFound(permissions, key, wanted);
    SubsetOfSameSizeIsAll(Elements(keys), Elements(wanted));
    if Elements(wanted) <= Elements(Map(permissions, key)) {
      assert Elements(keys) == Elements(wanted);
    }
    assert Elements(keys) == Elements(wanted) ==> Elements(wanted) <= Elements(Map(permissions, key));
  }

  lemma KeysFound(permissions: seq<Permission>, key: Permission -> string, wanted: seq<string>)
    ensures Elements(Map(WithKeyIn(permissions, key, wanted), key))
         == Elements(wanted) * Elements(Map(permissions, key))
  {
    var found := WithKeyIn(permissions, key, wanted);
    forall k ensures k in Elements(Map(found, key)) <==> k in Elements(wanted) * Elements(Map(permissions, key)) {
      if k in Elements(Map(found, key)) {
        var i :| 0 <= i < |found| && key(found[i]) == k;
        assert found[i] in found;
        var j :| 0 <= j < |permissions| && permissions[j] == found[i];
        assert Map(permissions, key)[j] == k;
      }
      if k in Elements(wanted) * Elements(Map(permissions, key)) {
        var j :| 0 <= j < |permissions| && Map(permissions, key)[j] == k;
        assert permissions[j] in found;
        var i :| 0 <= i < |found| && found[i] == permissions[j];
        assert Map(found, key)[i] == k;
      }
    }
  }

  /**
   A non-empty list of names is accepted exactly when the names are pairwise distinct and all exist, and
   then the rows found carry exactly those names. Ids are looked at only when no name is given.
   */
  lemma AcceptedNames(permissions: seq<Permission>, names: seq<string>, ids: Option<seq<string>>)
    requires UniquePermissions(permissions) && names != []
    ensures var r := FindPermissions(permissions, Some(names), ids);
      && (r.Ok? <==> Distinct(names) && Elements(names) <= Elements(Map(permissions, PermissionName)))
      && (r.Ok? ==>
          Elements(Map(r.value, PermissionName)) == Elements(names) && Elements(r.value) <= Elements(permissions))
      && (r.Ok? ==> UniquePermissions(r.value))
  {
    LengthCheckIsExact(permissions, PermissionName, names);
    WhereKeepsKeysDistinct(permissions, KeyIn(PermissionName, names), PermissionId);
  }

  lemma AcceptedIds(permissions: seq<Permission>, names: Option<seq<string>>, ids: seq<string>)
    requires UniquePermissions(permissions) && ids != []
    requires names.None? || names.value == []
    ensures var r := FindPermissions(permissions, names, Some(ids));
      && (r.Ok? <==> Distinct(ids) && Elements(ids) <= Elements(Map(permissions, PermissionId)))
      && (r.Ok? ==> Elements(Map(r.value, PermissionId)) == Elements(ids) && Elements(r.value) <= Elements(permissions))
      && (r.Ok? ==> UniquePermissions(r.value))
  {
    LengthCheckIsExact(permissions, PermissionId, ids);
    WhereKeepsKeysDistinct(permissions, KeyIn(PermissionId, ids), PermissionName);
  }

  /** A request that names nothing is accepted, and finds nothing. */
  lemma EmptyRequestIsAccepted(permissions: seq<Permission>, names: Option<seq<string>>, ids: Option<seq<string>>)
    requires (names.None? || names.value == []) && (ids.None? || ids.value == [])
    ensures FindPermissions(permissions, names, ids) == Ok([])
  {
  }
}
