/**
 Three caches stacked over tables: what is cached as effective for a client is combined from a cached
 direct part and a cached role part, each entry with its own time to live.

 The queries behind the caches are a parameter: nothing here depends on what they compute. Time is in
 milliseconds. Any Redis command may be lost: a lost get reads as a miss, a lost set stores nothing and a
 lost del leaves the entry in place.
 */
module StackedCaches {
  import opened PermissionTables
  import opened Wrappers

  /** Thirty minutes. */
  const CACHE_TTL: nat := 30 * 60 * 1000

  /** A role as it is cached: its id and the names its active permission rows lead to. */
  datatype RoleView = RoleView(roleId: string, permissionNames: seq<string>)

  /** The two queries over the tables and the way their answers are combined. */
  datatype Queries = Queries(
    direct: (Tables, string) -> seq<string>,
    roles: (Tables, string) -> seq<RoleView>,
    combine: (seq<string>, seq<RoleView>) -> seq<string>)

  datatype Entry<T> = Entry(value: T, storedAt: nat)

  datatype State = State(
    now: nat,
    tables: Tables,
    direct: map<string, Entry<seq<string>>>,
    roles: map<string, Entry<seq<RoleView>>>,
    effective: map<string, Entry<seq<string>>>)

  datatype Verb = Get | Set | Del

  datatype Kind = Direct | Roles | Effective

  datatype Command = Command(verb: Verb, kind: Kind)

  // ----- reads through the caches -----

  function Lookup<T>(cache: map<string, Entry<T>>, clientId: string, now: nat): Option<T> {
    if clientId in cache && now < cache[clientId].storedAt + CACHE_TTL then Some(cache[clientId].value) else None
  }

  datatype Answer<T> = Answer(state: State, value: T)

  function ReadDirect(q: Queries, s: State, clientId: string, lost: set<Command>): Answer<seq<string>> {
    var cached := if Command(Get, Direct) in lost then None else Lookup(s.direct, clientId, s.now);
    if cached.Some? then Answer(s, cached.value)
    else
      var value := q.direct(s.tables, clientId);
      Answer(if Command(Set, Direct) in lost then s else s.(direct := s.direct[clientId := Entry(value, s.now)]), value)
  }

  function ReadRoles(q: Queries, s: State, clientId: string, lost: set<Command>): Answer<seq<RoleView>> {
    var cached := if Command(Get, Roles) in lost then None else Lookup(s.roles, clientId, s.now);
    if cached.Some? then Answer(s, cached.value)
    else
      var value := q.roles(s.tables, clientId);
      Answer(if Command(Set, Roles) in lost then s else s.(roles := s.roles[clientId := Entry(value, s.now)]), value)
  }

  function ReadEffective(q: Queries, s: State, clientId: string, lost: set<Command>): Answer<seq<string>> {
    var cached := if Command(Get, Effective) in lost then None else Lookup(s.effective, clientId, s.now);
    if cached.Some? then Answer(s, cached.value)
    else
      var direct := ReadDirect(q, s, clientId, lost);
      var roles := ReadRoles(q, s, clientId, lost);
      var value := q.combine(direct.value, roles.value);
      var s' := s.(direct := direct.state.direct, roles := roles.state.roles);
      Answer(if Command(Set, Effective) in lost then s'
             else s'.(effective := s'.effective[clientId := Entry(value, s'.now)]), value)
  }

  /** The two part reads do not disturb each other. */
  lemma PartReadsAreSeparate(q: Queries, s: State, clientId: string, lost: set<Command>)
    ensures var direct, roles := ReadDirect(q, s, clientId, lost), ReadRoles(q, s, clientId, lost);
      ReadRoles(q, direct.state, clientId, lost)
          == Answer(s.(direct := direct.state.direct, roles := roles.state.roles), roles.value)
  {
  }

  function Invalidate(s: State, clientId: string, lost: set<Command>): State {
    s.(effective := if Command(Del, Effective) in lost then s.effective else s.effective - {clientId},
       direct := if Command(Del, Direct) in lost then s.direct else s.direct - {clientId},
       roles := if Command(Del, Roles) in lost then s.roles else s.roles - {clientId})
  }

  /** An invalidation takes away the client's entries, except those whose delete is lost, and nothing else. */
  lemma InvalidationIsExact(s: State, clientId: string, lost: set<Command>, c: string)
    ensures var s' := Invalidate(s, clientId, lost);
      && s'.now == s.now && s'.tables == s.tables
      && (c in s'.direct <==> c in s.direct && (c != clientId || Command(Del, Direct) in lost))
      && (c in s'.roles <==> c in s.roles && (c != clientId || Command(Del, Roles) in lost))
      && (c in s'.effective <==> c in s.effective && (c != clientId || Command(Del, Effective) in lost))
      && (c in s'.direct ==> s'.direct[c] == s.direct[c])
      && (c in s'.roles ==> s'.roles[c] == s.roles[c])
      && (c in s'.effective ==> s'.effective[c] == s.effective[c])
  {
  }

  /** Of two invalidations in a row, only what both lose stays cached. */
  lemma InvalidateTwice(s: State, clientId: string, lost: set<Command>, lost': set<Command>)
    ensures Invalidate(Invalidate(s, clientId, lost), clientId, lost') == Invalidate(s, clientId, lost * lost')
  {
    assert s.direct - {clientId} - {clientId} == s.direct - {clientId};
    assert s.roles - {clientId} - {clientId} == s.roles - {clientId};
    assert s.effective - {clientId} - {clientId} == s.effective - {clientId};
  }

  // ----- runs -----

  /**
   One step of the system. Writers are unrestricted: a role edit, a permission edit or the write half of
   a client operation is a WriteTables, with or without an Invalidate before or after it.
   */
  datatype Step =
    | Tick(milliseconds: nat)
    | WriteTables(tables: Tables)
    | Evict(kind: Kind, clientId: string)
    | InvalidateClient(clientId: string, lost: set<Command>)
    | GetDirect(clientId: string, lost: set<Command>)
    | GetRoles(clientId: string, lost: set<Command>)
    | GetEffective(clientId: string, lost: set<Command>)

  function Next(q: Queries, s: State, step: Step): State {
    match step
    case Tick(milliseconds) => s.(now := s.now + milliseconds)
    case WriteTables(tables) => s.(tables := tables)
    case Evict(Direct, c) => s.(direct := s.direct - {c})
    case Evict(Roles, c) => s.(roles := s.roles - {c})
    case Evict(Effective, c) => s.(effective := s.effective - {c})
    case InvalidateClient(c, lost) => Invalidate(s, c, lost)
    case GetDirect(c, lost) => ReadDirect(q, s, c, lost).state
    case GetRoles(c, lost) => ReadRoles(q, s, c, lost).state
    case GetEffective(c, lost) => ReadEffective(q, s, c, lost).state
  }

  function Initial(now: nat, tables: Tables): State {
    State(now, tables, map[], map[], map[])
  }

  /** Every state of a run, the initial one first. */
  function Run(q: Queries, s: State, steps: seq<Step>): (run: seq<State>)
    ensures |run| == |steps| + 1
  {
    if steps == [] then [s]
    else
      var before := Run(q, s, steps[..|steps| - 1]);
      before + [Next(q, before[|before| - 1], steps[|steps| - 1])]
  }

  function Last(run: seq<State>): State
    requires run != []
  {
    run[|run| - 1]
  }

  // ----- bounded staleness -----

  ghost predicate DirectAt(q: Queries, run: seq<State>, i: nat, clientId: string, entry: Entry<seq<string>>) {
    i < |run| && run[i].now == entry.storedAt && q.direct(run[i].tables, clientId) == entry.value
  }

  ghost predicate RolesAt(q: Queries, run: seq<State>, i: nat, clientId: string, entry: Entry<seq<RoleView>>) {
    i < |run| && run[i].now == entry.storedAt && q.roles(run[i].tables, clientId) == entry.value
  }

  ghost predicate EffectiveAt(q: Queries, run: seq<State>, i: nat, j: nat, clientId: string,
                              entry: Entry<seq<string>>) {
    && i < |run| && j < |run|
    && run[i].now <= entry.storedAt < run[i].now + CACHE_TTL
    && run[j].now <= entry.storedAt < run[j].now + CACHE_TTL
    && q.combine(q.direct(run[i].tables, clientId), q.roles(run[j].tables, clientId)) == entry.value
  }

  /** Every cache entry was computed from tables the run went through, at most one TTL before it was stored. */
  ghost predicate Explained(q: Queries, run: seq<State>) {
    && run != []
    && var s := Last(run);
    && (forall i :: 0 <= i < |run| ==> run[i].now <= s.now)
    && (forall c :: c in s.direct ==> exists i :: DirectAt(q, run, i, c, s.direct[c]))
    && (forall c :: c in s.roles ==> exists i :: RolesAt(q, run, i, c, s.roles[c]))
    && (forall c :: c in s.effective ==> exists i, j :: EffectiveAt(q, run, i, j, c, s.effective[c]))
  }

  lemma DirectIsFresh(q: Queries, run: seq<State>, clientId: string, lost: set<Command>) returns (i: nat)
    requires Explained(q, run)
    ensures i < |run| && run[i].now <= Last(run).now < run[i].now + CACHE_TTL
    ensures ReadDirect(q, Last(run), clientId, lost).value == q.direct(run[i].tables, clientId)
  {
    var s := Last(run);
    i := |run| - 1;
    if Command(Get, Direct) !in lost && Lookup(s.direct, clientId, s.now).Some? {
      i :| DirectAt(q, run, i, clientId, s.direct[clientId]);
    }
  }

  lemma RolesAreFresh(q: Queries, run: seq<State>, clientId: string, lost: set<Command>) returns (j: nat)
    requires Explained(q, run)
    ensures j < |run| && run[j].now <= Last(run).now < run[j].now + CACHE_TTL
    ensures ReadRoles(q, Last(run), clientId, lost).value == q.roles(run[j].tables, clientId)
  {
    var s := Last(run);
    j := |run| - 1;
    if Command(Get, Roles) !in lost && Lookup(s.roles, clientId, s.now).Some? {
      j :| RolesAt(q, run, j, clientId, s.roles[clientId]);
    }
  }

  lemma EffectiveIsFresh(q: Queries, run: seq<State>, clientId: string, lost: set<Command>) returns (i: nat, j: nat)
    requires Explained(q, run)
    ensures i < |run| && j < |run|
    ensures run[i].now <= Last(run).now && Last(run).now + 2 <= run[i].now + 2 * CACHE_TTL
    ensures run[j].now <= Last(run).now && Last(run).now + 2 <= run[j].now + 2 * CACHE_TTL
    ensures ReadEffective(q, Last(run), clientId, lost).value
         == q.combine(q.direct(run[i].tables, clientId), q.roles(run[j].tables, clientId))
    ensures Command(Get, Effective) in lost || Lookup(Last(run).effective, clientId, Last(run).now).None?
        ==> Last(run).now < run[i].now + CACHE_TTL && Last(run).now < run[j].now + CACHE_TTL
  {
    var s := Last(run);
    if Command(Get, Effective) !in lost && Lookup(s.effective, clientId, s.now).Some? {
      i, j :| EffectiveAt(q, run, i, j, clientId, s.effective[clientId]);
    } else {
      i := DirectIsFresh(q, run, clientId, lost);
      j := RolesAreFresh(q, run, clientId, lost);
    }
  }

  /** The entries of s' are those of the last state of the run, or were computed in it. */
  ghost predicate DirectFollows(q: Queries, s: State, s': State) {
    forall c :: c in s'.direct ==>
      || (c in s.direct && s'.direct[c] == s.direct[c])
      || s'.direct[c] == Entry(q.direct(s.tables, c), s.now)
  }

  ghost predicate RolesFollow(q: Queries, s: State, s': State) {
    forall c :: c in s'.roles ==>
      || (c in s.roles && s'.roles[c] == s.roles[c])
      || s'.roles[c] == Entry(q.roles(s.tables, c), s.now)
  }

  ghost predicate EffectiveFollows(q: Queries, run: seq<State>, s: State, s': State) {
    forall c :: c in s'.effective ==>
      || (c in s.effective && s'.effective[c] == s.effective[c])
      || exists i, j :: EffectiveAt(q, run, i, j, c, s'.effective[c])
  }

  lemma DirectStaysExplained(q: Queries, run: seq<State>, s': State)
    requires Explained(q, run) && DirectFollows(q, Last(run), s')
    ensures forall c :: c in s'.direct ==> exists i :: DirectAt(q, run + [s'], i, c, s'.direct[c])
  {
    var s, run' := Last(run), run + [s'];
    forall c | c in s'.direct ensures exists i :: DirectAt(q, run', i, c, s'.direct[c]) {
      var i: nat := |run| - 1;
      if c in s.direct && s'.direct[c] == s.direct[c] {
        i :| DirectAt(q, run, i, c, s.direct[c]);
      }
      assert DirectAt(q, run', i, c, s'.direct[c]);
    }
  }

  lemma RolesStayExplained(q: Queries, run: seq<State>, s': State)
    requires Explained(q, run) && RolesFollow(q, Last(run), s')
    ensures forall c :: c in s'.roles ==> exists i :: RolesAt(q, run + [s'], i, c, s'.roles[c])
  {
    var s, run' := Last(run), run + [s'];
    forall c | c in s'.roles ensures exists i :: RolesAt(q, run', i, c, s'.roles[c]) {
      var i: nat := |run| - 1;
      if c in s.roles && s'.roles[c] == s.roles[c] {
        i :| RolesAt(q, run, i, c, s.roles[c]);
      }
      assert RolesAt(q, run', i, c, s'.roles[c]);
    }
  }

  lemma EffectiveStaysExplained(q: Queries, run: seq<State>, s': State)
    requires Explained(q, run) && EffectiveFollows(q, run, Last(run), s')
    ensures forall c :: c in s'.effective ==> exists i, j :: EffectiveAt(q, run + [s'], i, j, c, s'.effective[c])
  {
    var s, run' := Last(run), run + [s'];
    forall c | c in s'.effective ensures exists i, j :: EffectiveAt(q, run', i, j, c, s'.effective[c]) {
      var i, j :| EffectiveAt(q, run, i, j, c, s'.effective[c]);
      assert EffectiveAt(q, run', i, j, c, s'.effective[c]);
    }
  }

  lemma FollowingStateIsExplained(q: Queries, run: seq<State>, s': State)
    requires Explained(q, run) && Last(run).now <= s'.now
    requires DirectFollows(q, Last(run), s') && RolesFollow(q, Last(run), s') && EffectiveFollows(q, run, Last(run), s')
    ensures Explained(q, run + [s'])
  {
    DirectStaysExplained(q, run, s');
    RolesStayExplained(q, run, s');
    EffectiveStaysExplained(q, run, s');
  }

  lemma ReadsFollow(q: Queries, s: State, clientId: string, lost: set<Command>)
    ensures DirectFollows(q, s, ReadDirect(q, s, clientId, lost).state)
    ensures RolesFollow(q, s, ReadRoles(q, s, clientId, lost).state)
  {
  }

  lemma StepFollows(q: Queries, s: State, step: Step)
    ensures var s' := Next(q, s, step);
      && s.now <= s'.now && DirectFollows(q, s, s') && RolesFollow(q, s, s')
      && (!step.GetEffective? ==> forall c :: c in s'.effective ==>
          c in s.effective && s'.effective[c] == s.effective[c])
  {
    match step {
      case GetDirect(c, lost) => ReadsFollow(q, s, c, lost);
      case GetRoles(c, lost) => ReadsFollow(q, s, c, lost);
      case GetEffective(c, lost) => EffectiveReadFollows(q, s, c, lost);
      case _ =>
    }
  }

  lemma EffectiveReadFollows(q: Queries, s: State, c: string, lost: set<Command>)
    ensures var s' := ReadEffective(q, s, c, lost).state;
      s'.now == s.now && DirectFollows(q, s, s') && RolesFollow(q, s, s')
  {
    ReadsFollow(q, s, c, lost);
  }

  lemma StepKeepsExplained(q: Queries, run: seq<State>, step: Step)
    requires Explained(q, run)
    ensures Explained(q, run + [Next(q, Last(run), step)])
  {
    var s, s' := Last(run), Next(q, Last(run), step);
    StepFollows(q, s, step);
    assert EffectiveFollows(q, run, s, s') by {
      if step.GetEffective? {
        var i, j := EffectiveIsFresh(q, run, step.clientId, step.lost);
        ComputedEntryIsExplained(q, run, step.clientId, step.lost, i, j);
      }
    }
    FollowingStateIsExplained(q, run, s');
  }

  lemma ComputedEntryIsExplained(q: Queries, run: seq<State>, c: string, lost: set<Command>, i: nat, j: nat)
    requires run != []
    requires i < |run| && run[i].now <= Last(run).now
    requires j < |run| && run[j].now <= Last(run).now
    requires ReadEffective(q, Last(run), c, lost).value
         == q.combine(q.direct(run[i].tables, c), q.roles(run[j].tables, c))
    requires Command(Get, Effective) in lost || Lookup(Last(run).effective, c, Last(run).now).None?
        ==> Last(run).now < run[i].now + CACHE_TTL && Last(run).now < run[j].now + CACHE_TTL
    ensures EffectiveFollows(q, run, Last(run), ReadEffective(q, Last(run), c, lost).state)
  {
    var s, s' := Last(run), ReadEffective(q, Last(run), c, lost).state;
    if s'.effective != s.effective {
      assert s'.effective == s.effective[c := Entry(ReadEffective(q, s, c, lost).value, s.now)];
      assert EffectiveAt(q, run, i, j, c, s'.effective[c]);
    }
  }

  lemma {:induction false} RunIsExplained(q: Queries, now: nat, tables: Tables, steps: seq<Step>)
    ensures Explained(q, Run(q, Initial(now, tables), steps))
  {
    if steps != [] {
      RunIsExplained(q, now, tables, steps[..|steps| - 1]);
      StepKeepsExplained(q, Run(q, Initial(now, tables), steps[..|steps| - 1]), steps[|steps| - 1]);
    }
  }

  // ----- coherence -----

  ghost predicate Coherent(q: Queries, s: State) {
    && (forall c :: c in s.direct ==> s.direct[c].value == q.direct(s.tables, c))
    && (forall c :: c in s.roles ==> s.roles[c].value == q.roles(s.tables, c))
    && (forall c :: c in s.effective ==> s.effective[c].value == q.combine(q.direct(s.tables, c), q.roles(s.tables, c)))
  }

  /** The writes of one client leave what is cached for the others coherent. */
  lemma WriteForOneClient(q: Queries, s: State, u: Tables, clientId: string, lost: set<Command>)
    requires Coherent(q, s) && forall k :: Command(Del, k) !in lost
    requires forall c :: c != clientId ==>
        q.direct(u, c) == q.direct(s.tables, c) && q.roles(u, c) == q.roles(s.tables, c)
    ensures Coherent(q, Invalidate(s, clientId, lost).(tables := u))
  {
  }

  lemma PartReadsKeepCoherence(q: Queries, s: State, clientId: string, lost: set<Command>)
    requires Coherent(q, s)
    ensures Coherent(q, ReadDirect(q, s, clientId, lost).state)
    ensures Coherent(q, ReadRoles(q, s, clientId, lost).state)
    ensures ReadDirect(q, s, clientId, lost).value == q.direct(s.tables, clientId)
    ensures ReadRoles(q, s, clientId, lost).value == q.roles(s.tables, clientId)
  {
  }

  lemma ReadKeepsCoherence(q: Queries, s: State, clientId: string, lost: set<Command>)
    requires Coherent(q, s)
    ensures Coherent(q, ReadEffective(q, s, clientId, lost).state)
  {
    PartReadsKeepCoherence(q, s, clientId, lost);
    var direct := ReadDirect(q, s, clientId, lost).state;
    PartReadsKeepCoherence(q, direct, clientId, lost);
    PartReadsAreSeparate(q, s, clientId, lost);
    CombinedEntryIsCoherent(q, ReadRoles(q, direct, clientId, lost).state, clientId);
  }

  lemma CombinedEntryIsCoherent(q: Queries, s: State, clientId: string)
    requires Coherent(q, s)
    ensures var value := q.combine(q.direct(s.tables, clientId), q.roles(s.tables, clientId));
      Coherent(q, s.(effective := s.effective[clientId := Entry(value, s.now)]))
  {
  }

  /** Coherence makes the caches invisible: a check is answered as from the tables. */
  lemma CoherentReadsAreExact(q: Queries, s: State, clientId: string, lost: set<Command>)
    requires Coherent(q, s)
    ensures ReadEffective(q, s, clientId, lost).value
         == q.combine(q.direct(s.tables, clientId), q.roles(s.tables, clientId))
  {
  }

  // ----- runs written out -----

  lemma Extend(q: Queries, s: State, steps: seq<Step>, run: seq<State>, step: Step) returns (more: seq<Step>)
    requires Run(q, s, steps) == run
    ensures more == steps + [step] && Run(q, s, more) == run + [Next(q, Last(run), step)]
  {
    more := steps + [step];
    assert more[..|more| - 1] == steps;
  }
}
