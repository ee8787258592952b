/** What the client-level operations do to the permission tables. */
module ClientPermissions {
  import opened PermissionTables
  import opened Wrappers

  function OfClient(clientId: string): ClientPermission -> bool {
    (row: ClientPermission) => row.clientId == clientId
  }

  function OfOthers(clientId: string): ClientPermission -> bool {
    (row: ClientPermission) => row.clientId != clientId
  }

  function RoleOf(clientId: string): ClientRole -> bool {
    (row: ClientRole) => row.clientId == clientId
  }

  function FindByName(permissions: seq<Permission>, name: string): Option<Permission> {
    if permissions == [] then None
    else if permissions[0].name == name then Some(permissions[0])
    else FindByName(permissions[1..], name)
  }

  /** permission?.name of a joined row; the empty string when there is no such permission. */
  function NameOf(permissions: seq<Permission>, id: string): string {
    if permissions == [] then ""
    else if permissions[0].id == id then permissions[0].name
    else NameOf(permissions[1..], id)
  }

  function NonEmpty(name: string): bool { name != "" }

  function JoinedName(permissions: seq<Permission>): ClientPermission -> string {
    (row: ClientPermission) => NameOf(permissions, row.permissionId)
  }

  /** The names of the permissions linked directly to a client. */
  function DirectNames(t: Tables, clientId: string): seq<string> {
    Where(Map(Where(t.clientPermissions, OfClient(clientId)), JoinedName(t.permissions)), NonEmpty)
  }

  ghost predicate Known(t: Tables, name: string) {
    FindByName(t.permissions, name).Some?
  }

  /** Links one permission to a client; an unknown name or an existing link changes nothing. */
  function Assigned(t: Tables, clientId: string, name: string): Tables {
    match FindByName(t.permissions, name)
    case None => t
    case Some(p) =>
      var row := ClientPermission(clientId, p.id);
      if row in t.clientPermissions then t else t.(clientPermissions := t.clientPermissions + [row])
  }

  function NotLink(row: ClientPermission): ClientPermission -> bool {
    (r: ClientPermission) => r != row
  }

  function Without(t: Tables, row: ClientPermission): Tables {
    t.(clientPermissions := Where(t.clientPermissions, NotLink(row)))
  }

  function Removed(t: Tables, clientId: string, name: string): Tables {
    match FindByName(t.permissions, name)
    case None => t
    case Some(p) => Without(t, ClientPermission(clientId, p.id))
  }

  function AssignedAll(t: Tables, clientId: string, names: seq<string>): Tables {
    if names == [] then t else Assigned(AssignedAll(t, clientId, names[..|names| - 1]), clientId, names[|names| - 1])
  }

  function RemovedAll(t: Tables, clientId: string, names: seq<string>): Tables {
    if names == [] then t else Removed(RemovedAll(t, clientId, names[..|names| - 1]), clientId, names[|names| - 1])
  }

  function Cleared(t: Tables, clientId: string): Tables {
    t.(clientPermissions := Where(t.clientPermissions, OfOthers(clientId)))
  }

  predicate AllKnown(t: Tables, names: seq<string>) {
    forall n :: n in names ==> FindByName(t.permissions, n).Some?
  }

  /** updateClientPermissions: the client's links are removed before the new names are validated. */
  function Updated(t: Tables, clientId: string, names: seq<string>): Tables {
    if AllKnown(t, names) then AssignedAll(Cleared(t, clientId), clientId, names) else Cleared(t, clientId)
  }

  // ----- what the operations mean for the client and for the others -----

  lemma {:induction false} WhereOfConcat<T(!new)>(a: seq<T>, b: seq<T>, p: T -> bool)
    ensures Where(a + b, p) == Where(a, p) + Where(b, p)
  {
    if a == [] {
      assert a + b == b;
    } else {
      WhereOfConcat(a[1..], b, p);
      assert (a + b)[1..] == a[1..] + b;
      var first := if p(a[0]) then [a[0]] else [];
      assert first + (Where(a[1..], p) + Where(b, p)) == (first + Where(a[1..], p)) + Where(b, p);
    }
  }

  lemma {:induction false} WhereTwice<T(!new)>(a: seq<T>, p: T -> bool, q: T -> bool)
    requires forall x :: q(x) ==> p(x)
    ensures Where(Where(a, p), q) == Where(a, q)
  {
    if a != [] {
      WhereTwice(a[1..], p, q);
    }
  }

  lemma {:induction false} WhereAll<T(!new)>(a: seq<T>, p: T -> bool)
    requires forall x :: x in a ==> p(x)
    ensures Where(a, p) == a
  {
    if a != [] {
      WhereAll(a[1..], p);
    }
  }

  lemma {:induction false} WhereNone<T(!new)>(a: seq<T>, p: T -> bool)
    requires forall x :: x in a ==> !p(x)
    ensures Where(a, p) == []
  {
    if a != [] {
      WhereNone(a[1..], p);
    }
  }

  /** Nothing but the links of one client differs. */
  ghost predicate OnlyLinksOf(t: Tables, u: Tables, clientId: string) {
    && u == t.(clientPermissions := u.clientPermissions)
    && Where(u.clientPermissions, OfOthers(clientId)) == Where(t.clientPermissions, OfOthers(clientId))
  }

  lemma OtherClientsKeepTheirNames(t: Tables, u: Tables, clientId: string, other: string)
    requires OnlyLinksOf(t, u, clientId) && other != clientId
    ensures DirectNames(u, other) == DirectNames(t, other)
  {
    WhereTwice(t.clientPermissions, OfOthers(clientId), OfClient(other));
    WhereTwice(u.clientPermissions, OfOthers(clientId), OfClient(other));
  }

  lemma AssignedTouchesOneClient(t: Tables, clientId: string, name: string)
    ensures OnlyLinksOf(t, Assigned(t, clientId, name), clientId)
  {
    if Known(t, name) {
      WhereOfConcat(t.clientPermissions, [ClientPermission(clientId, FindByName(t.permissions, name).value.id)],
                    OfOthers(clientId));
    }
  }

  lemma RemovedTouchesOneClient(t: Tables, clientId: string, name: string)
    ensures OnlyLinksOf(t, Removed(t, clientId, name), clientId)
  {
    if Known(t, name) {
      var row := ClientPermission(clientId, FindByName(t.permissions, name).value.id);
      WhereTwice(t.clientPermissions, NotLink(row), OfOthers(clientId));
    }
  }

  lemma {:induction false} AssignedAllTouchesOneClient(t: Tables, clientId: string, names: seq<string>)
    ensures OnlyLinksOf(t, AssignedAll(t, clientId, names), clientId)
  {
    if names != [] {
      var init := names[..|names| - 1];
      AssignedAllTouchesOneClient(t, clientId, init);
      AssignedTouchesOneClient(AssignedAll(t, clientId, init), clientId, names[|names| - 1]);
    }
  }

  lemma {:induction false} RemovedAllTouchesOneClient(t: Tables, clientId: string, names: seq<string>)
    ensures OnlyLinksOf(t, RemovedAll(t, clientId, names), clientId)
  {
    if names != [] {
      var init := names[..|names| - 1];
      RemovedAllTouchesOneClient(t, clientId, init);
      RemovedTouchesOneClient(RemovedAll(t, clientId, init), clientId, names[|names| - 1]);
    }
  }

  lemma UpdatedTouchesOneClient(t: Tables, clientId: string, names: seq<string>)
    ensures OnlyLinksOf(t, Updated(t, clientId, names), clientId)
  {
    WhereTwice(t.clientPermissions, OfOthers(clientId), OfOthers(clientId));
    AssignedAllTouchesOneClient(Cleared(t, clientId), clientId, names);
  }

  lemma {:induction false} NameFound(permissions: seq<Permission>, name: string)
    requires Distinct(Map(permissions, PermissionId)) && FindByName(permissions, name).Some?
    ensures var p := FindByName(permissions, name).value;
      p in permissions && p.name == name && NameOf(permissions, p.id) == name
  {
    if permissions[0].name != name {
      var rest := permissions[1..];
      assert forall i :: 0 <= i < |rest| ==> Map(rest, PermissionId)[i] == Map(permissions, PermissionId)[i + 1];
      NameFound(rest, name);
      var p := FindByName(rest, name).value;
      var i :| 0 <= i < |rest| && rest[i] == p;
      assert Map(permissions, PermissionId)[i + 1] == p.id && Map(permissions, PermissionId)[0] == permissions[0].id;
    }
  }

  /** The joined name is the name of the permission with the row's id. */
  lemma {:induction false} NameOfIs(permissions: seq<Permission>, id: string, name: string)
    requires Distinct(Map(permissions, PermissionId)) && name != ""
    ensures NameOf(permissions, id) == name <==> exists p :: p in permissions && p.id == id && p.name == name
  {
    if permissions != [] {
      var rest := permissions[1..];
      assert forall i :: 0 <= i < |rest| ==> Map(rest, PermissionId)[i] == Map(permissions, PermissionId)[i + 1];
      NameOfIs(rest, id, name);
      forall p | p in rest ensures p.id != permissions[0].id {
        var i :| 0 <= i < |rest| && rest[i] == p;
        assert Map(permissions, PermissionId)[i + 1] == p.id && Map(permissions, PermissionId)[0] == permissions[0].id;
      }
      assert forall p :: p in permissions <==> p == permissions[0] || p in rest;
    }
  }

  lemma {:induction false} KnownIffNamed(permissions: seq<Permission>, name: string)
    ensures FindByName(permissions, name).Some? <==> exists p :: p in permissions && p.name == name
  {
    if permissions != [] {
      KnownIffNamed(permissions[1..], name);
      assert forall p :: p in permissions <==> p == permissions[0] || p in permissions[1..];
    }
  }

  /** A name is held directly exactly when the row linking it is in the table. */
  lemma HeldIffLinked(t: Tables, clientId: string, name: string)
    ensures name in DirectNames(t, clientId) <==>
      name != "" && exists row ::
          row in t.clientPermissions && row.clientId == clientId && NameOf(t.permissions, row.permissionId) == name
  {
    var rows := Where(t.clientPermissions, OfClient(clientId));
    var joined := Map(rows, JoinedName(t.permissions));
    if row :|
        row in t.clientPermissions && row.clientId == clientId && NameOf(t.permissions, row.permissionId) == name {
      var i :| 0 <= i < |rows| && rows[i] == row;
      assert joined[i] == name;
    }
    if name in joined {
      var i :| 0 <= i < |joined| && joined[i] == name;
      assert rows[i] in rows;
    }
  }

  lemma AssignedAddsOneName(t: Tables, clientId: string, name: string)
    requires UniquePermissions(t.permissions) && Known(t, name)
    ensures Elements(DirectNames(Assigned(t, clientId, name), clientId))
         == Elements(DirectNames(t, clientId)) + ({name} - {""})
  {
    var u := Assigned(t, clientId, name);
    var p := FindByName(t.permissions, name).value;
    NameFound(t.permissions, name);
    assert ClientPermission(clientId, p.id) in u.clientPermissions;
    forall n ensures n in DirectNames(u, clientId) <==> n in DirectNames(t, clientId) || (n == name && n != "") {
      HeldIffLinked(t, clientId, n);
      HeldIffLinked(u, clientId, n);
      if n == name && n != "" {
        assert NameOf(u.permissions, ClientPermission(clientId, p.id).permissionId) == n;
      }
    }
  }

  lemma {:induction false} NamedByOnePermission(permissions: seq<Permission>, id: string, name: string)
    requires Distinct(Map(permissions, PermissionName)) && name != "" && NameOf(permissions, id) == name
    ensures FindByName(permissions, name).Some? && FindByName(permissions, name).value.id == id
  {
    var rest := permissions[1..];
    assert forall i :: 0 <= i < |rest| ==> Map(rest, PermissionName)[i] == Map(permissions, PermissionName)[i + 1];
    if permissions[0].id != id {
      NamedByOnePermission(rest, id, name);
      var p := FindByName(rest, name).value;
      FoundIsARow(rest, name);
      var i :| 0 <= i < |rest| && rest[i] == p;
      assert Map(permissions, PermissionName)[i + 1] == name
          && Map(permissions, PermissionName)[0] == permissions[0].name;
    }
  }

  lemma {:induction false} FoundIsARow(permissions: seq<Permission>, name: string)
    requires FindByName(permissions, name).Some?
    ensures FindByName(permissions, name).value in permissions && FindByName(permissions, name).value.name == name
  {
    if permissions[0].name != name {
      FoundIsARow(permissions[1..], name);
    }
  }

  /** Removing a permission takes away its name and no other. */
  lemma RemovedDropsOneName(t: Tables, clientId: string, name: string)
    requires UniquePermissions(t.permissions)
    ensures Elements(DirectNames(Removed(t, clientId, name), clientId)) == Elements(DirectNames(t, clientId)) - {name}
  {
    var u := Removed(t, clientId, name);
    forall n ensures n in DirectNames(u, clientId) <==> n in DirectNames(t, clientId) && n != name {
      HeldIffLinked(t, clientId, n);
      HeldIffLinked(u, clientId, n);
      if Known(t, name) {
        NameFound(t.permissions, name);
      }
      if row :|
          row in t.clientPermissions && row.clientId == clientId && NameOf(t.permissions, row.permissionId) == n
              && n != "" {
        NamedByOnePermission(t.permissions, row.permissionId, n);
        assert n != name ==> row in u.clientPermissions;
      }
      if row :|
          row in u.clientPermissions && row.clientId == clientId && NameOf(u.permissions, row.permissionId) == name
              && name != "" {
        NamedByOnePermission(t.permissions, row.permissionId, name);
      }
    }
  }

  /** Assigning a list of known names, repeated or not, adds exactly those names. */
  lemma {:induction false} AssignedAllAddsTheNames(t: Tables, clientId: string, names: seq<string>)
    requires UniquePermissions(t.permissions) && AllKnown(t, names)
    ensures Elements(DirectNames(AssignedAll(t, clientId, names), clientId))
         == Elements(DirectNames(t, clientId)) + (Elements(names) - {""})
  {
    if names != [] {
      var init, last := names[..|names| - 1], names[|names| - 1];
      AssignedAllAddsTheNames(t, clientId, init);
      AssignedAllTouchesOneClient(t, clientId, init);
      AssignedAddsOneName(AssignedAll(t, clientId, init), clientId, last);
      ElementsOfInitAndLast(names);
    }
  }

  lemma ElementsOfInitAndLast(names: seq<string>)
    requires names != []
    ensures Elements(names) == Elements(names[..|names| - 1]) + {names[|names| - 1]}
  {
    assert names == names[..|names| - 1] + [names[|names| - 1]];
  }

  lemma {:induction false} RemovedAllDropsTheNames(t: Tables, clientId: string, names: seq<string>)
    requires UniquePermissions(t.permissions)
    ensures Elements(DirectNames(RemovedAll(t, clientId, names), clientId))
         == Elements(DirectNames(t, clientId)) - Elements(names)
  {
    if names != [] {
      var init := names[..|names| - 1];
      RemovedAllDropsTheNames(t, clientId, init);
      RemovedAllTouchesOneClient(t, clientId, init);
      RemovedDropsOneName(RemovedAll(t, clientId, init), clientId, names[|names| - 1]);
      ElementsOfInitAndLast(names);
    }
  }

  /** No link is stored twice. */
  lemma {:induction false} AssignedAllKeepsLinksDistinct(t: Tables, clientId: string, names: seq<string>)
    requires Distinct(t.clientPermissions)
    ensures Distinct(AssignedAll(t, clientId, names).clientPermissions)
  {
    if names != [] {
      AssignedAllKeepsLinksDistinct(t, clientId, names[..|names| - 1]);
    }
  }

  lemma UpdatedHolds(t: Tables, clientId: string, names: seq<string>)
    requires UniquePermissions(t.permissions)
    ensures Elements(DirectNames(Updated(t, clientId, names), clientId))
         == (if AllKnown(t, names) then Elements(names) - {""} else {})
  {
    var cleared := Cleared(t, clientId);
    WhereNone(cleared.clientPermissions, OfClient(clientId));
    assert DirectNames(cleared, clientId) == [];
    if AllKnown(t, names) {
      AssignedAllAddsTheNames(cleared, clientId, names);
    }
  }

  /**
   updateClientPermissions: when every name is known the client ends up holding exactly the requested
   names, repeated or not; when one is unknown it ends up holding none. Other clients keep theirs, and
   no link is ever stored twice.
   */
  lemma UpdateReachesTheRequestedSet(t: Tables, clientId: string, names: seq<string>)
    requires UniquePermissions(t.permissions) && Distinct(t.clientPermissions)
    ensures var u := Updated(t, clientId, names);
      && Elements(DirectNames(u, clientId)) == (if AllKnown(t, names) then Elements(names) - {""} else {})
      && (forall other :: other != clientId ==> DirectNames(u, other) == DirectNames(t, other))
      && Distinct(u.clientPermissions)
  {
    var u, cleared := Updated(t, clientId, names), Cleared(t, clientId);
    UpdatedTouchesOneClient(t, clientId, names);
    forall other | other != clientId ensures DirectNames(u, other) == DirectNames(t, other) {
      OtherClientsKeepTheirNames(t, u, clientId, other);
    }
    UpdatedHolds(t, clientId, names);
    WhereKeepsDistinct(t.clientPermissions, OfOthers(clientId));
    AssignedAllKeepsLinksDistinct(cleared, clientId, names);
  }
}
