/**
 The caches of the permission service: how stale an answer can be, and why client-level operations keep
 the caches coherent with the tables.
 */
module PermissionCaches {
  import opened ClientPermissions
  import opened PermissionMatching
  import opened PermissionTables
  import opened RoleServices
  import opened StackedCaches
  import opened Wrappers

  // ----- what the rows say -----

  /** A row links the client to a permission of this name. */
  ghost predicate HeldDirectly(t: Tables, clientId: string, name: string) {
    exists row ::
      row in t.clientPermissions && row.clientId == clientId && NameOf(t.permissions, row.permissionId) == name
  }

  /** A row links the client to a role, and an active row of that role leads to a permission of this name. */
  ghost predicate HeldThroughRole(t: Tables, clientId: string, name: string) {
    exists link, row :: HoldsThrough(t, clientId, link, row, name)
  }

  ghost predicate HoldsThrough(t: Tables, clientId: string, link: ClientRole, row: RolePermission, name: string) {
    && link in t.clientRoles && link.clientId == clientId
    && row in t.rolePermissions && row.roleId == link.roleId && row.deletedAt.None?
    && NameOf(t.permissions, row.permissionId) == name
  }

  // ----- the values being cached -----

  function JoinedPermission(permissions: seq<Permission>): RolePermission -> string {
    (row: RolePermission) => NameOf(permissions, row.permissionId)
  }

  function ViewOf(t: Tables): ClientRole -> RoleView {
    (link: ClientRole) =>
      RoleView(link.roleId, Map(Where(t.rolePermissions, ActiveIn(link.roleId)), JoinedPermission(t.permissions)))
  }

  function RoleViews(t: Tables, clientId: string): seq<RoleView> {
    Map(Where(t.clientRoles, RoleOf(clientId)), ViewOf(t))
  }

  /** Adds the names that are not there yet, in order, as filling a Set does. */
  function AddAll(names: seq<string>, more: seq<string>): seq<string> {
    if more == [] then names
    else
      var init := AddAll(names, more[..|more| - 1]);
      var last := more[|more| - 1];
      if last in init then init else init + [last]
  }

  function AddRoles(names: seq<string>, roles: seq<RoleView>): seq<string> {
    if roles == [] then names
    else AddAll(AddRoles(names, roles[..|roles| - 1]), Where(roles[|roles| - 1].permissionNames, NonEmpty))
  }

  /** Array.from of the Set made of the direct names and of every role's non-empty names. */
  function Combine(direct: seq<string>, roles: seq<RoleView>): seq<string> {
    AddRoles(AddAll([], direct), roles)
  }

  lemma {:induction false} AddAllElements(names: seq<string>, more: seq<string>, name: string)
    ensures name in AddAll(names, more) <==> name in names || name in more
  {
    if more != [] {
      AddAllElements(names, more[..|more| - 1], name);
      assert more == more[..|more| - 1] + [more[|more| - 1]];
    }
  }

  ghost predicate GrantedByRoles(roles: seq<RoleView>, name: string) {
    exists i :: 0 <= i < |roles| && name in roles[i].permissionNames
  }

  lemma {:induction false} AddRolesElements(names: seq<string>, roles: seq<RoleView>, name: string)
    ensures name in AddRoles(names, roles) <==> name in names || (name != "" && GrantedByRoles(roles, name))
  {
    if roles != [] {
      var init, last := roles[..|roles| - 1], roles[|roles| - 1];
      AddRolesElements(names, init, name);
      AddAllElements(AddRoles(names, init), Where(last.permissionNames, NonEmpty), name);
      assert GrantedByRoles(roles, name) <==> GrantedByRoles(init, name) || name in last.permissionNames by {
        if GrantedByRoles(init, name) {
          var i :| 0 <= i < |init| && name in init[i].permissionNames;
          assert roles[i] == init[i];
        }
        if name in last.permissionNames {
          assert name in roles[|roles| - 1].permissionNames;
        }
        if GrantedByRoles(roles, name) && name !in last.permissionNames {
          var i :| 0 <= i < |roles| && name in roles[i].permissionNames;
          assert init[i] == roles[i];
        }
      }
    }
  }

  /** The cached roles of a client are one per link, in the order of the links, each under its role's id. */
  lemma OneViewPerLink(t: Tables, clientId: string) returns (at: seq<nat>)
    ensures |RoleViews(t, clientId)| == |at| && InOrder(at)
    ensures forall k :: 0 <= k < |t.clientRoles| ==> (k in at <==> t.clientRoles[k].clientId == clientId)
    ensures forall i :: 0 <= i < |at| ==>
        at[i] < |t.clientRoles| && RoleViews(t, clientId)[i].roleId == t.clientRoles[at[i]].roleId
  {
    at := WherePositions(t.clientRoles, RoleOf(clientId));
  }

  /** A view names what the active rows of its role lead to. */
  lemma ViewNamesActiveRows(t: Tables, link: ClientRole, name: string)
    ensures name in ViewOf(t)(link).permissionNames <==>
      exists row :: row in t.rolePermissions && row.roleId == link.roleId && row.deletedAt.None?
        && NameOf(t.permissions, row.permissionId) == name
  {
    var active := Where(t.rolePermissions, ActiveIn(link.roleId));
    var names := ViewOf(t)(link).permissionNames;
    assert names == Map(active, JoinedPermission(t.permissions));
    if name in names {
      var i :| 0 <= i < |names| && names[i] == name;
      assert active[i] in active;
    }
    if row :|
        row in t.rolePermissions && row.roleId == link.roleId && row.deletedAt.None?
          && NameOf(t.permissions, row.permissionId) == name {
      assert row in active;
      var i :| 0 <= i < |active| && active[i] == row;
      assert names[i] == name;
    }
  }

  /** The cached roles grant a name exactly when some row of some role of the client does. */
  lemma RolesGrantWhatTheirRowsSay(t: Tables, clientId: string, name: string)
    ensures GrantedByRoles(RoleViews(t, clientId), name) <==> HeldThroughRole(t, clientId, name)
  {
    var links, views := Where(t.clientRoles, RoleOf(clientId)), RoleViews(t, clientId);
    if GrantedByRoles(views, name) {
      var i :| 0 <= i < |views| && name in views[i].permissionNames;
      assert links[i] in links && views[i] == ViewOf(t)(links[i]);
      ViewNamesActiveRows(t, links[i], name);
      var row :| row in t.rolePermissions && row.roleId == links[i].roleId && row.deletedAt.None?
        && NameOf(t.permissions, row.permissionId) == name;
      assert HoldsThrough(t, clientId, links[i], row, name);
    }
    if link, row :| HoldsThrough(t, clientId, link, row, name) {
      assert link in links;
      var i :| 0 <= i < |links| && links[i] == link;
      ViewNamesActiveRows(t, link, name);
      assert name in views[i].permissionNames;
    }
  }

  lemma DirectNamesAreWhatRowsSay(t: Tables, clientId: string, name: string)
    ensures name in DirectNames(t, clientId) <==> name != "" && HeldDirectly(t, clientId, name)
  {
    HeldIffLinked(t, clientId, name);
  }

  const QUERIES := Queries(DirectNames, RoleViews, Combine)

  /** The effective names are the direct ones and the non-empty ones of the roles. */
  lemma CombineElements(direct: seq<string>, roles: seq<RoleView>, name: string)
    ensures name in Combine(direct, roles) <==> name in direct || (name != "" && GrantedByRoles(roles, name))
  {
    AddAllElements([], direct, name);
    AddRolesElements(AddAll([], direct), roles, name);
  }

  /** clientHasPermission on the effective names. */
  function Allows(permissionNames: seq<string>, permissionName: string): bool {
    if |permissionNames| == 0 then false else CheckPermissionHierarchy(permissionNames, permissionName)
  }

  /**
   Bounded staleness: after any run from empty caches, whatever writers, evictions and lost commands it
   went through, the answer of clientHasPermission is the one for direct links the run held less than
   2 * CACHE_TTL - 1 milliseconds before and for roles it held less than 2 * CACHE_TTL - 1 milliseconds before.
   */
  lemma StalenessIsBounded(now: nat, tables: Tables, steps: seq<Step>, clientId: string, lost: set<Command>)
    returns (i: nat, j: nat)
    ensures var run := Run(QUERIES, Initial(now, tables), steps);
      && i < |run| && j < |run|
      && run[i].now <= Last(run).now < run[i].now + 2 * CACHE_TTL - 1
      && run[j].now <= Last(run).now < run[j].now + 2 * CACHE_TTL - 1
      && ReadEffective(QUERIES, Last(run), clientId, lost).value
         == Combine(DirectNames(run[i].tables, clientId), RoleViews(run[j].tables, clientId))
  {
    RunIsExplained(QUERIES, now, tables, steps);
    i, j := EffectiveIsFresh(QUERIES, Run(QUERIES, Initial(now, tables), steps), clientId, lost);
  }

  /**
   What a permission check answers after a run, in terms of rows: some permission that matches the requirement was
   linked to the client at one such instant, or granted by a role of the client at another. A requirement that
   does not parse is met only by holding it literally.
   */
  lemma StaleAnswerExplained(now: nat, tables: Tables, steps: seq<Step>, clientId: string, lost: set<Command>,
                             requirement: string)
    returns (i: nat, j: nat)
    requires requirement != ""
    ensures var run := Run(QUERIES, Initial(now, tables), steps);
      && i < |run| && j < |run|
      && Last(run).now < run[i].now + 2 * CACHE_TTL - 1
      && Last(run).now < run[j].now + 2 * CACHE_TTL - 1
      && (Allows(ReadEffective(QUERIES, Last(run), clientId, lost).value, requirement) <==>
          exists held :: Meets(requirement, held)
            && (HeldDirectly(run[i].tables, clientId, held) || HeldThroughRole(run[j].tables, clientId, held)))
  {
    i, j := StalenessIsBounded(now, tables, steps, clientId, lost);
    var run := Run(QUERIES, Initial(now, tables), steps);
    AllowedByRows(run[i].tables, run[j].tables, clientId, requirement);
  }

  /** The held permission satisfies the slow matcher, or is the requirement itself when that does not parse. */
  ghost predicate Meets(requirement: string, held: string) {
    match ParsePermission(requirement)
    case Some(required) => MatchesPermission(required, held)
    case None => held == requirement
  }

  lemma AllowedByRows(t: Tables, u: Tables, clientId: string, requirement: string)
    requires requirement != ""
    ensures Allows(Combine(DirectNames(t, clientId), RoleViews(u, clientId)), requirement) <==>
      exists held :: Meets(requirement, held) && (HeldDirectly(t, clientId, held) || HeldThroughRole(u, clientId, held))
  {
    var names := Combine(DirectNames(t, clientId), RoleViews(u, clientId));
    FastCheckIsSlowMatcher(names, requirement);
    forall held | Meets(requirement, held)
      ensures held in names <==> HeldDirectly(t, clientId, held) || HeldThroughRole(u, clientId, held)
    {
      MatchingIsNonEmpty(requirement, held);
      CombineElements(DirectNames(t, clientId), RoleViews(u, clientId), held);
      DirectNamesAreWhatRowsSay(t, clientId, held);
      RolesGrantWhatTheirRowsSay(u, clientId, held);
    }
    assert Allows(names, requirement) <==> exists held :: Meets(requirement, held) && held in names;
  }

  lemma MatchingIsNonEmpty(requirement: string, held: string)
    requires requirement != "" && Meets(requirement, held)
    ensures held != ""
  {
    assert Split("") == [""];
  }

  // ----- coherence under client-level operations -----

  datatype ClientOperation =
    | AssignRole(clientId: string, roleId: string)
    | RemoveRole(clientId: string, roleId: string)
    | AssignPermission(clientId: string, name: string)
    | RemovePermission(clientId: string, name: string)
    | AssignPermissions(clientId: string, names: seq<string>)
    | RemovePermissions(clientId: string, names: seq<string>)
    | UpdatePermissions(clientId: string, names: seq<string>)
    | ReadPermissions(clientId: string)
    | ReadDirectPermissions(clientId: string)
    | ReadClientRoles(clientId: string)

  function NotRow(row: ClientRole): ClientRole -> bool {
    (r: ClientRole) => r != row
  }

  /** The tables an operation leads to. */
  function TablesAfter(t: Tables, op: ClientOperation): Tables {
    match op
    case AssignRole(c, r) =>
      if ClientRole(c, r) in t.clientRoles then t else t.(clientRoles := t.clientRoles + [ClientRole(c, r)])
    case RemoveRole(c, r) => t.(clientRoles := Where(t.clientRoles, NotRow(ClientRole(c, r))))
    case AssignPermission(c, name) => Assigned(t, c, name)
    case RemovePermission(c, name) => Removed(t, c, name)
    case AssignPermissions(c, names) => if AllKnown(t, names) then AssignedAll(t, c, names) else t
    case RemovePermissions(c, names) => RemovedAll(t, c, names)
    case UpdatePermissions(c, names) => Updated(t, c, names)
    case ReadPermissions(_) => t
    case ReadDirectPermissions(_) => t
    case ReadClientRoles(_) => t
  }

  /** Whether the operation gets as far as deleting the client's cache entries. */
  predicate Invalidates(t: Tables, op: ClientOperation) {
    match op
    case AssignRole(c, r) => ClientRole(c, r) !in t.clientRoles
    case RemoveRole(c, r) => ClientRole(c, r) in t.clientRoles
    case AssignPermission(_, _) => true
    case RemovePermission(_, _) => true
    case AssignPermissions(_, names) => names != [] && AllKnown(t, names)
    case RemovePermissions(_, names) => names != []
    case UpdatePermissions(_, _) => true
    case ReadPermissions(_) => false
    case ReadDirectPermissions(_) => false
    case ReadClientRoles(_) => false
  }

  /** The state after a client-level operation run as one atomic step. */
  function Perform(q: Queries, s: State, op: ClientOperation, lost: set<Command>): State {
    match op
    case ReadPermissions(c) => ReadEffective(q, s, c, lost).state
    case ReadDirectPermissions(c) => ReadDirect(q, s, c, lost).state
    case ReadClientRoles(c) => ReadRoles(q, s, c, lost).state
    case _ =>
      if Invalidates(s.tables, op) then Invalidate(s, op.clientId, lost).(tables := TablesAfter(s.tables, op)) else s
  }

  /** An operation that leaves the caches alone leaves the tables alone. */
  lemma NoInvalidationNoWrite(t: Tables, op: ClientOperation)
    requires !Invalidates(t, op)
    ensures TablesAfter(t, op) == t
  {
    if op.RemoveRole? {
      WhereAll(t.clientRoles, NotRow(ClientRole(op.clientId, op.roleId)));
    }
  }

  lemma OnlyOneClientIsRewritten(t: Tables, op: ClientOperation)
    requires !op.AssignRole? && !op.RemoveRole?
    ensures OnlyLinksOf(t, TablesAfter(t, op), op.clientId)
  {
    match op
    case AssignPermission(c, name) => AssignedTouchesOneClient(t, c, name);
    case RemovePermission(c, name) => RemovedTouchesOneClient(t, c, name);
    case AssignPermissions(c, names) => AssignedAllTouchesOneClient(t, c, names);
    case RemovePermissions(c, names) => RemovedAllTouchesOneClient(t, c, names);
    case UpdatePermissions(c, names) => UpdatedTouchesOneClient(t, c, names);
    case _ =>
  }

  lemma OtherLinksStay(links: seq<ClientRole>, row: ClientRole, other: string)
    requires other != row.clientId
    ensures Where(links + [row], RoleOf(other)) == Where(links, RoleOf(other))
    ensures Where(Where(links, NotRow(row)), RoleOf(other)) == Where(links, RoleOf(other))
  {
    WhereOfConcat(links, [row], RoleOf(other));
    WhereTwice(links, NotRow(row), RoleOf(other));
  }

  /** What each operation leaves: the links of roles and the names held directly, as sets. */
  lemma OperationMeans(t: Tables, op: ClientOperation)
    requires UniquePermissions(t.permissions)
    ensures var u, c := TablesAfter(t, op), op.clientId;
      && u.permissions == t.permissions && u.roles == t.roles && u.rolePermissions == t.rolePermissions
      && match op
         case AssignRole(_, r) =>
           && u.clientPermissions == t.clientPermissions
           && forall link :: link in u.clientRoles <==> link in t.clientRoles || link == ClientRole(c, r)
         case RemoveRole(_, r) =>
           && u.clientPermissions == t.clientPermissions
           && forall link :: link in u.clientRoles <==> link in t.clientRoles && link != ClientRole(c, r)
         case _ =>
           && u.clientRoles == t.clientRoles
           && Elements(DirectNames(u, c)) == HeldAfter(t, op)
  {
    match op
    case AssignPermission(c, name) =>
      if Known(t, name) {
        AssignedAddsOneName(t, c, name);
      }
    case RemovePermission(c, name) => RemovedDropsOneName(t, c, name);
    case AssignPermissions(c, names) =>
      AssignedAllTouchesOneClient(t, c, names);
      if AllKnown(t, names) {
        AssignedAllAddsTheNames(t, c, names);
      }
    case RemovePermissions(c, names) =>
      RemovedAllTouchesOneClient(t, c, names);
      RemovedAllDropsTheNames(t, c, names);
    case UpdatePermissions(c, names) =>
      UpdatedTouchesOneClient(t, c, names);
      UpdatedHolds(t, c, names);
    case _ =>
  }

  /** The names the client holds directly afterwards; the empty name counts for none. */
  ghost function HeldAfter(t: Tables, op: ClientOperation): set<string> {
    var held := Elements(DirectNames(t, op.clientId));
    match op
    case AssignPermission(_, name) => if Known(t, name) then held + ({name} - {""}) else held
    case RemovePermission(_, name) => held - {name}
    case AssignPermissions(_, names) => if AllKnown(t, names) then held + (Elements(names) - {""}) else held
    case RemovePermissions(_, names) => held - Elements(names)
    case UpdatePermissions(_, names) => if AllKnown(t, names) then Elements(names) - {""} else {}
    case _ => held
  }

  /** No operation on one client changes what the tables say about another. */
  lemma OthersSeeNoChange(t: Tables, op: ClientOperation, other: string)
    requires other != op.clientId
    ensures DirectNames(TablesAfter(t, op), other) == DirectNames(t, other)
    ensures RoleViews(TablesAfter(t, op), other) == RoleViews(t, other)
  {
    if op.AssignRole? || op.RemoveRole? {
      OtherLinksStay(t.clientRoles, ClientRole(op.clientId, op.roleId), other);
      assert ViewOf(TablesAfter(t, op)) == ViewOf(t);
    } else {
      OnlyOneClientIsRewritten(t, op);
      OtherClientsKeepTheirNames(t, TablesAfter(t, op), op.clientId, other);
    }
  }

  lemma OperationKeepsCoherence(q: Queries, s: State, op: ClientOperation, lost: set<Command>)
    requires Coherent(q, s) && forall k :: Command(Del, k) !in lost
    requires forall c :: c != op.clientId ==>
      q.direct(TablesAfter(s.tables, op), c) == q.direct(s.tables, c)
          && q.roles(TablesAfter(s.tables, op), c) == q.roles(s.tables, c)
    ensures Coherent(q, Perform(q, s, op, lost))
    ensures Perform(q, s, op, lost).tables == TablesAfter(s.tables, op)
  {
    if !Invalidates(s.tables, op) {
      NoInvalidationNoWrite(s.tables, op);
    }
    if op.ReadPermissions? {
      ReadKeepsCoherence(q, s, op.clientId, lost);
    } else if op.ReadDirectPermissions? || op.ReadClientRoles? {
      PartReadsKeepCoherence(q, s, op.clientId, lost);
    } else if Invalidates(s.tables, op) {
      WriteForOneClient(q, s, TablesAfter(s.tables, op), op.clientId, lost);
    }
  }

  /** A scheduled event: time passes, Redis evicts, or a client-level operation runs. */
  datatype Event =
    | Wait(milliseconds: nat)
    | Drop(kind: Kind, clientId: string)
    | Do(op: ClientOperation, lost: set<Command>)

  function Handle(q: Queries, s: State, event: Event): State {
    match event
    case Wait(milliseconds) => Next(q, s, Tick(milliseconds))
    case Drop(kind, c) => Next(q, s, Evict(kind, c))
    case Do(op, lost) => Perform(q, s, op, lost)
  }

  function After(q: Queries, s: State, events: seq<Event>): State {
    if events == [] then s else Handle(q, After(q, s, events[..|events| - 1]), events[|events| - 1])
  }

  lemma IdleKeepsCoherence(q: Queries, s: State, event: Event)
    requires Coherent(q, s) && !event.Do?
    ensures Coherent(q, Handle(q, s, event))
  {
  }

  lemma EventKeepsCoherence(s: State, event: Event)
    requires Coherent(QUERIES, s) && (event.Do? ==> forall k :: Command(Del, k) !in event.lost)
    ensures Coherent(QUERIES, Handle(QUERIES, s, event))
  {
    if event.Do? {
      forall c | c != event.op.clientId
        ensures QUERIES.direct(TablesAfter(s.tables, event.op), c) == QUERIES.direct(s.tables, c)
        ensures QUERIES.roles(TablesAfter(s.tables, event.op), c) == QUERIES.roles(s.tables, c)
      {
        OthersSeeNoChange(s.tables, event.op, c);
      }
      OperationKeepsCoherence(QUERIES, s, event.op, event.lost);
    } else {
      IdleKeepsCoherence(QUERIES, s, event);
    }
  }

  /**
   Runs made of client-level operations and reads, with evictions and lost gets and sets but no lost
   del, keep every cache entry equal to what the tables give.
   */
  lemma {:induction false} ClientRunsAreCoherent(now: nat, tables: Tables, events: seq<Event>)
    requires forall i, k :: 0 <= i < |events| && events[i].Do? ==> Command(Del, k) !in events[i].lost
    ensures Coherent(QUERIES, After(QUERIES, Initial(now, tables), events))
  {
    if events != [] {
      var init, last := events[..|events| - 1], events[|events| - 1];
      ClientRunsAreCoherent(now, tables, init);
      EventKeepsCoherence(After(QUERIES, Initial(now, tables), init), last);
    }
  }

  // ----- witnesses -----

  /** One client holding one role that grants one permission, and the same tables after the grant is retired. */
  function Granting(client: string, role: string, name: string): Tables {
    Tables([Permission("p", name)], map[], [RolePermission(0, role, "p", None)], [ClientRole(client, role)], [])
  }

  function Revoked(t: Tables, now: nat): Tables
    requires |t.rolePermissions| == 1
  {
    t.(rolePermissions := [t.rolePermissions[0].(deletedAt := Some(now))])
  }

  lemma WitnessTables(client: string, role: string, name: string, now: nat)
    requires name != ""
    ensures var t := Granting(client, role, name);
      && Combine(DirectNames(t, client), RoleViews(t, client)) == [name]
      && Combine(DirectNames(Revoked(t, now), client), RoleViews(Revoked(t, now), client)) == []
  {
    var t := Granting(client, role, name);
    var u := Revoked(t, now);
    assert Where([name], NonEmpty) == [name] && AddAll([], [name]) == [name];
    assert DirectNames(t, client) == [] && DirectNames(u, client) == [];
    assert Where(t.rolePermissions, ActiveIn(role)) == t.rolePermissions;
    assert Where(u.rolePermissions, ActiveIn(role)) == [];
    assert NameOf(t.permissions, "p") == name;
    assert Map(t.rolePermissions, JoinedPermission(t.permissions)) == [name];
    assert ViewOf(t)(ClientRole(client, role)) == RoleView(role, [name]);
    assert Where(t.clientRoles, RoleOf(client)) == t.clientRoles;
    assert RoleViews(t, client) == [RoleView(role, [name])];
    assert RoleViews(u, client) == [RoleView(role, [])];
    assert AddRoles([], RoleViews(t, client)) == AddAll([], Where([name], NonEmpty)) == [name];
    assert AddRoles([], RoleViews(u, client)) == AddAll([], Where([], NonEmpty)) == [];
  }

  /**
   The bound cannot be lowered to one TTL, nor by an instant: whatever the queries are, tables u written at
   instant 0 are not seen by a read 2 * CACHE_TTL - 2 milliseconds later, though they have been in place ever since.
   */
  lemma OldTablesSurvive(q: Queries, t: Tables, u: Tables, client: string) returns (steps: seq<Step>)
    ensures var run := Run(q, Initial(0, t), steps);
      && Last(run).now == 2 * CACHE_TTL - 2
      && ReadEffective(q, Last(run), client, {}).value == q.combine(q.direct(t, client), q.roles(t, client))
      && forall i :: 0 <= i < |run| && run[i].now > 0 ==> run[i].tables == u
  {
    var half := CACHE_TTL - 1;
    var direct, roles := map[client := Entry(q.direct(t, client), 0)], map[client := Entry(q.roles(t, client), 0)];
    var value := q.combine(q.direct(t, client), q.roles(t, client));
    var s0 := Initial(0, t);
    var s1 := State(0, t, direct, roles, map[client := Entry(value, 0)]);
    var s2 := State(0, t, direct, roles, map[]);
    var s3 := State(0, u, direct, roles, map[]);
    var s4 := State(half, u, direct, roles, map[]);
    var s5 := State(half, u, direct, roles, map[client := Entry(value, half)]);
    var s6 := State(2 * half, u, direct, roles, map[client := Entry(value, half)]);
    assert s1.effective - {client} == map[];
    steps := [];
    steps := Extend(q, s0, steps, [s0], GetEffective(client, {}));
    steps := Extend(q, s0, steps, [s0, s1], Evict(Effective, client));
    steps := Extend(q, s0, steps, [s0, s1, s2], WriteTables(u));
    steps := Extend(q, s0, steps, [s0, s1, s2, s3], Tick(half));
    steps := Extend(q, s0, steps, [s0, s1, s2, s3, s4], GetEffective(client, {}));
    steps := Extend(q, s0, steps, [s0, s1, s2, s3, s4, s5], Tick(half));
    assert Run(q, s0, steps) == [s0, s1, s2, s3, s4, s5, s6];
  }

  /** A grant revoked at instant 0 is still honoured 2 * CACHE_TTL - 2 milliseconds later. */
  lemma StalenessBoundIsReached(client: string, role: string, name: string) returns (steps: seq<Step>)
    requires name != ""
    ensures var run := Run(QUERIES, Initial(0, Granting(client, role, name)), steps);
      && Last(run).now == 2 * CACHE_TTL - 2 == 3_599_998
      && ReadEffective(QUERIES, Last(run), client, {}).value == [name]
      && forall i :: 0 <= i < |run| && run[i].now > 0 ==>
           Combine(DirectNames(run[i].tables, client), RoleViews(run[i].tables, client)) == []
  {
    WitnessTables(client, role, name, 0);
    var t := Granting(client, role, name);
    steps := OldTablesSurvive(QUERIES, t, Revoked(t, 0), client);
  }
}
