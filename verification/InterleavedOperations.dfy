/**
 Client-level operations that are not atomic: each deletes the client's cache entries before it writes, and
 reads may run in between. The operations on a list delete and write once per name.
 */
module InterleavedOperations {
  import opened ClientPermissions
  import opened PermissionCaches
  import opened PermissionTables
  import opened StackedCaches
  import opened Wrappers

  // ----- one write after its invalidation -----

  /** What is cached for one client, by presence: the answers are left out. */
  datatype Marks = Marks(now: nat, direct: bool, roles: bool, effective: Option<nat>)

  function MarksOf(s: State, clientId: string): Marks {
    Marks(s.now, clientId in s.direct, clientId in s.roles,
          if clientId in s.effective then Some(s.effective[clientId].storedAt) else None)
  }

  /** What a step does to the marks of a client: no table and no cached value is looked at. */
  function Marked(m: Marks, step: Step, clientId: string): Marks {
    match step
    case Tick(milliseconds) => m.(now := m.now + milliseconds)
    case WriteTables(_) => m
    case Evict(Direct, c) => if c == clientId then m.(direct := false) else m
    case Evict(Roles, c) => if c == clientId then m.(roles := false) else m
    case Evict(Effective, c) => if c == clientId then m.(effective := None) else m
    case InvalidateClient(c, lost) =>
      if c == clientId
      then Marks(m.now, m.direct && Command(Del, Direct) in lost, m.roles && Command(Del, Roles) in lost,
                 if Command(Del, Effective) in lost then m.effective else None)
      else m
    case GetDirect(c, lost) => if c == clientId then WithDirectRead(m, lost) else m
    case GetRoles(c, lost) => if c == clientId then WithRolesRead(m, lost) else m
    case GetEffective(c, lost) =>
      if c != clientId then m
      else if Command(Get, Effective) !in lost && m.effective.Some? && m.now < m.effective.value + CACHE_TTL then m
      else
        var m' := WithRolesRead(WithDirectRead(m, lost), lost);
        if Command(Set, Effective) in lost then m' else m'.(effective := Some(m.now))
  }

  function WithDirectRead(m: Marks, lost: set<Command>): Marks {
    m.(direct := m.direct || Command(Set, Direct) !in lost)
  }

  function WithRolesRead(m: Marks, lost: set<Command>): Marks {
    m.(roles := m.roles || Command(Set, Roles) !in lost)
  }

  function MarkedBy(m: Marks, steps: seq<Step>, clientId: string): Marks {
    if steps == [] then m else Marked(MarkedBy(m, steps[..|steps| - 1], clientId), steps[|steps| - 1], clientId)
  }

  function Ran(q: Queries, s: State, steps: seq<Step>): State {
    Last(Run(q, s, steps))
  }

  lemma StepIsMarked(q: Queries, s: State, step: Step, clientId: string)
    ensures MarksOf(Next(q, s, step), clientId) == Marked(MarksOf(s, clientId), step, clientId)
  {
    match step
    case Evict(kind, c) => EvictionIsMarked(q, s, kind, c, clientId);
    case InvalidateClient(c, lost) => InvalidationIsMarked(q, s, c, lost, clientId);
    case GetDirect(c, lost) => PartReadsAreMarked(q, s, c, lost, clientId);
    case GetRoles(c, lost) => PartReadsAreMarked(q, s, c, lost, clientId);
    case GetEffective(c, lost) => EffectiveReadIsMarked(q, s, c, lost, clientId);
    case _ =>
  }

  lemma EvictionIsMarked(q: Queries, s: State, kind: Kind, c: string, clientId: string)
    ensures MarksOf(Next(q, s, Evict(kind, c)), clientId) == Marked(MarksOf(s, clientId), Evict(kind, c), clientId)
  {
  }

  lemma InvalidationIsMarked(q: Queries, s: State, c: string, lost: set<Command>, clientId: string)
    ensures MarksOf(Next(q, s, InvalidateClient(c, lost)), clientId)
         == Marked(MarksOf(s, clientId), InvalidateClient(c, lost), clientId)
  {
  }

  lemma PartReadsAreMarked(q: Queries, s: State, c: string, lost: set<Command>, clientId: string)
    ensures var m := MarksOf(s, clientId);
      && MarksOf(ReadDirect(q, s, c, lost).state, clientId) == (if c == clientId then WithDirectRead(m, lost) else m)
      && MarksOf(ReadRoles(q, s, c, lost).state, clientId) == (if c == clientId then WithRolesRead(m, lost) else m)
  {
  }

  /** The state after the two part reads of an effective read, before it stores its own entry. */
  function PartsRead(q: Queries, s: State, c: string, lost: set<Command>): State {
    s.(direct := ReadDirect(q, s, c, lost).state.direct, roles := ReadRoles(q, s, c, lost).state.roles)
  }

  lemma PartsReadAreMarked(q: Queries, s: State, c: string, lost: set<Command>, clientId: string)
    ensures var m := MarksOf(s, clientId);
      MarksOf(PartsRead(q, s, c, lost), clientId)
      == if c == clientId then WithRolesRead(WithDirectRead(m, lost), lost) else m
  {
    PartReadsAreMarked(q, s, c, lost, clientId);
    var s1, s2 := ReadDirect(q, s, c, lost).state, ReadRoles(q, s, c, lost).state;
    assert MarksOf(s1, clientId).direct == (clientId in s1.direct)
        && MarksOf(s2, clientId).roles == (clientId in s2.roles);
  }

  lemma EffectiveReadIsMarked(q: Queries, s: State, c: string, lost: set<Command>, clientId: string)
    ensures MarksOf(ReadEffective(q, s, c, lost).state, clientId)
         == Marked(MarksOf(s, clientId), GetEffective(c, lost), clientId)
  {
    PartsReadAreMarked(q, s, c, lost, clientId);
    var s', read := PartsRead(q, s, c, lost), ReadEffective(q, s, c, lost);
    if Command(Get, Effective) !in lost && Lookup(s.effective, c, s.now).Some? {
      assert read.state == s;
    } else if Command(Set, Effective) in lost {
      assert read.state == s';
    } else {
      assert read.state == s'.(effective := s.effective[c := Entry(read.value, s.now)]);
    }
  }

  lemma StepKeepsCoherence(q: Queries, s: State, step: Step)
    requires Coherent(q, s) && !step.WriteTables?
    ensures Coherent(q, Next(q, s, step)) && Next(q, s, step).tables == s.tables
  {
    match step
    case GetDirect(c, lost) => PartReadsKeepCoherence(q, s, c, lost);
    case GetRoles(c, lost) => PartReadsKeepCoherence(q, s, c, lost);
    case GetEffective(c, lost) => ReadKeepsCoherence(q, s, c, lost);
    case _ =>
  }

  ghost predicate WritesNothing(steps: seq<Step>) {
    forall i :: 0 <= i < |steps| ==> !steps[i].WriteTables?
  }

  lemma {:induction false} RanIsCoherentAndMarked(q: Queries, s: State, steps: seq<Step>, clientId: string)
    requires Coherent(q, s) && WritesNothing(steps)
    ensures Coherent(q, Ran(q, s, steps)) && Ran(q, s, steps).tables == s.tables
    ensures MarksOf(Ran(q, s, steps), clientId) == MarkedBy(MarksOf(s, clientId), steps, clientId)
  {
    if steps != [] {
      var init, last := steps[..|steps| - 1], steps[|steps| - 1];
      RanIsCoherentAndMarked(q, s, init, clientId);
      StepKeepsCoherence(q, Ran(q, s, init), last);
      StepIsMarked(q, Ran(q, s, init), last, clientId);
    }
  }

  /** Only one client's rows differ. */
  ghost predicate DiffersFor(q: Queries, t: Tables, u: Tables, clientId: string) {
    forall c :: c != clientId ==> q.direct(u, c) == q.direct(t, c) && q.roles(u, c) == q.roles(t, c)
  }

  /** What is marked as cached is not changed by replacing the tables. */
  ghost predicate Unaffected(q: Queries, t: Tables, u: Tables, clientId: string, m: Marks) {
    && (m.direct ==> q.direct(u, clientId) == q.direct(t, clientId))
    && (m.roles ==> q.roles(u, clientId) == q.roles(t, clientId))
    && (m.effective.Some? ==>
          q.combine(q.direct(u, clientId), q.roles(u, clientId))
              == q.combine(q.direct(t, clientId), q.roles(t, clientId)))
  }

  lemma WriteIsCoherentIffUnaffected(q: Queries, s: State, u: Tables, clientId: string)
    requires Coherent(q, s) && DiffersFor(q, s.tables, u, clientId)
    ensures Coherent(q, s.(tables := u)) <==> Unaffected(q, s.tables, u, clientId, MarksOf(s, clientId))
  {
  }

  /**
   Exactly when a write that comes after its invalidation leaves the caches coherent. In between, anything
   but another write may happen: time passes, Redis evicts, commands are lost, any client is read or
   invalidated. The write is safe if and only if what these steps left cached for its client is not changed
   by it, and what they left is a matter of the steps alone.
   */
  lemma InterleavedWriteIsCoherentIff(q: Queries, s: State, u: Tables, clientId: string, lost: set<Command>,
                                      steps: seq<Step>)
    requires Coherent(q, s) && DiffersFor(q, s.tables, u, clientId) && WritesNothing(steps)
    ensures var invalidated := Invalidate(s, clientId, lost);
      Coherent(q, Ran(q, invalidated, steps).(tables := u)) <==>
        Unaffected(q, s.tables, u, clientId, MarkedBy(MarksOf(invalidated, clientId), steps, clientId))
  {
    var invalidated := Invalidate(s, clientId, lost);
    RanIsCoherentAndMarked(q, invalidated, steps, clientId);
    WriteIsCoherentIffUnaffected(q, Ran(q, invalidated, steps), u, clientId);
  }

  /** Time passes, and clients are read without losing a command. */
  ghost predicate LosslessReads(steps: seq<Step>) {
    forall i :: 0 <= i < |steps| ==>
      match steps[i]
      case Tick(_) => true
      case GetDirect(_, lost) => lost == {}
      case GetRoles(_, lost) => lost == {}
      case GetEffective(_, lost) => lost == {}
      case _ => false
  }

  ghost predicate AsksForDirect(step: Step, clientId: string) {
    (step.GetDirect? || step.GetEffective?) && step.clientId == clientId
  }

  ghost predicate AsksForRoles(step: Step, clientId: string) {
    (step.GetRoles? || step.GetEffective?) && step.clientId == clientId
  }

  ghost predicate SomeAsksForDirect(steps: seq<Step>, clientId: string) {
    exists i :: 0 <= i < |steps| && AsksForDirect(steps[i], clientId)
  }

  ghost predicate SomeAsksForRoles(steps: seq<Step>, clientId: string) {
    exists i :: 0 <= i < |steps| && AsksForRoles(steps[i], clientId)
  }

  lemma {:induction false} MarksOfLosslessReads(now: nat, steps: seq<Step>, clientId: string)
    requires LosslessReads(steps)
    ensures var m := MarkedBy(Marks(now, false, false, None), steps, clientId);
      && (m.direct <==> SomeAsksForDirect(steps, clientId))
      && (m.roles <==> SomeAsksForRoles(steps, clientId))
      && (m.effective.Some? ==> m.direct && m.roles)
  {
    if steps != [] {
      var init, last := steps[..|steps| - 1], steps[|steps| - 1];
      assert last == steps[|steps| - 1];
      MarksOfLosslessReads(now, init, clientId);
      assert SomeAsksForDirect(steps, clientId) <==>
        SomeAsksForDirect(init, clientId) || AsksForDirect(last, clientId) by {
        assert forall i :: 0 <= i < |init| ==> init[i] == steps[i];
      }
      assert SomeAsksForRoles(steps, clientId) <==>
        SomeAsksForRoles(init, clientId) || AsksForRoles(last, clientId) by {
        assert forall i :: 0 <= i < |init| ==> init[i] == steps[i];
      }
    }
  }

  /**
   Where no command is lost and nothing is evicted: a write after its invalidation is coherent exactly when
   nobody read in between what the write changes of the client.
   */
  lemma WriteAfterReadsIsCoherentIff(q: Queries, s: State, u: Tables, clientId: string, steps: seq<Step>)
    requires Coherent(q, s) && DiffersFor(q, s.tables, u, clientId) && LosslessReads(steps)
    ensures Coherent(q, Ran(q, Invalidate(s, clientId, {}), steps).(tables := u)) <==>
      && (SomeAsksForDirect(steps, clientId) ==> q.direct(u, clientId) == q.direct(s.tables, clientId))
      && (SomeAsksForRoles(steps, clientId) ==> q.roles(u, clientId) == q.roles(s.tables, clientId))
  {
    InterleavedWriteIsCoherentIff(q, s, u, clientId, {}, steps);
    MarksOfLosslessReads(s.now, steps, clientId);
  }

  // ----- operations on one row -----

  /** The operation finds one row, or misses it, and writes at most that row. */
  predicate OnOneRow(op: ClientOperation) {
    op.AssignRole? || op.RemoveRole? || op.AssignPermission? || op.RemovePermission?
  }

  /** The operation with `gap` between its delete and its write, if it gets as far as deleting. */
  function OneRowRun(s: State, op: ClientOperation, gap: seq<Step>): State
    requires OnOneRow(op)
  {
    if Invalidates(s.tables, op)
    then Ran(QUERIES, Invalidate(s, op.clientId, {}), gap).(tables := TablesAfter(s.tables, op))
    else Ran(QUERIES, s, gap)
  }

  lemma OperationDiffersForItsClient(t: Tables, op: ClientOperation)
    ensures DiffersFor(QUERIES, t, TablesAfter(t, op), op.clientId)
  {
    forall c | c != op.clientId
      ensures QUERIES.direct(TablesAfter(t, op), c) == QUERIES.direct(t, c)
      ensures QUERIES.roles(TablesAfter(t, op), c) == QUERIES.roles(t, c)
    {
      OthersSeeNoChange(t, op, c);
    }
  }

  /**
   An operation on one row, its delete and its write set apart by lossless reads, ends coherent exactly when
   the reads ask for nothing of the client that it changes.
   */
  lemma InterleavedOperationIsCoherentIff(s: State, op: ClientOperation, gap: seq<Step>)
    requires Coherent(QUERIES, s) && OnOneRow(op) && LosslessReads(gap)
    ensures var c, t, u := op.clientId, s.tables, TablesAfter(s.tables, op);
      Coherent(QUERIES, OneRowRun(s, op, gap)) <==>
        && (SomeAsksForDirect(gap, c) ==> DirectNames(u, c) == DirectNames(t, c))
        && (SomeAsksForRoles(gap, c) ==> RoleViews(u, c) == RoleViews(t, c))
    ensures OneRowRun(s, op, gap).tables == TablesAfter(s.tables, op)
  {
    OperationDiffersForItsClient(s.tables, op);
    if Invalidates(s.tables, op) {
      WriteAfterReadsIsCoherentIff(QUERIES, s, TablesAfter(s.tables, op), op.clientId, gap);
    } else {
      NoInvalidationNoWrite(s.tables, op);
      RanIsCoherentAndMarked(QUERIES, s, gap, op.clientId);
    }
  }

  // ----- a write over anything cached for its client -----

  /** The caches without the client's entries are coherent. */
  ghost predicate CoherentForOthers(q: Queries, s: State, clientId: string) {
    && (forall c :: c in s.direct && c != clientId ==> s.direct[c].value == q.direct(s.tables, c))
    && (forall c :: c in s.roles && c != clientId ==> s.roles[c].value == q.roles(s.tables, c))
    && (forall c :: c in s.effective && c != clientId ==>
          s.effective[c].value == q.combine(q.direct(s.tables, c), q.roles(s.tables, c)))
  }

  /** Nothing is cached for the client, at instant 0. */
  const NOTHING := Marks(0, false, false, None)

  function Later(m: Marks, delay: nat): Marks {
    Marks(m.now + delay, m.direct, m.roles, if m.effective.Some? then Some(m.effective.value + delay) else None)
  }

  /** What steps leave cached does not depend on when they start. */
  lemma {:induction false} MarkedLater(m: Marks, delay: nat, steps: seq<Step>, clientId: string)
    ensures MarkedBy(Later(m, delay), steps, clientId) == Later(MarkedBy(m, steps, clientId), delay)
  {
    if steps != [] {
      MarkedLater(m, delay, steps[..|steps| - 1], clientId);
      StepMarkedLater(MarkedBy(m, steps[..|steps| - 1], clientId), delay, steps[|steps| - 1], clientId);
    }
  }

  lemma StepMarkedLater(m: Marks, delay: nat, step: Step, clientId: string)
    ensures Marked(Later(m, delay), step, clientId) == Later(Marked(m, step, clientId), delay)
  {
  }

  /**
   The last write decides: whatever was cached for the client before its invalidation, right or wrong, the
   caches are coherent after the write exactly when it does not change what the steps in between left cached.
   */
  lemma LastWriteDecides(q: Queries, s: State, u: Tables, clientId: string, gap: seq<Step>)
    requires CoherentForOthers(q, s, clientId) && DiffersFor(q, s.tables, u, clientId) && WritesNothing(gap)
    ensures Coherent(q, Ran(q, Invalidate(s, clientId, {}), gap).(tables := u)) <==>
      Unaffected(q, s.tables, u, clientId, MarkedBy(NOTHING, gap, clientId))
  {
    var s' := Invalidate(s, clientId, {});
    InvalidateTwice(s, clientId, {}, {});
    InterleavedWriteIsCoherentIff(q, s', u, clientId, {}, gap);
    assert MarksOf(s', clientId) == Later(NOTHING, s.now);
    MarkedLater(NOTHING, s.now, gap, clientId);
  }

  lemma ReadKeepsOthers(q: Queries, s: State, c: string, lost: set<Command>, clientId: string)
    requires CoherentForOthers(q, s, clientId)
    ensures CoherentForOthers(q, ReadDirect(q, s, c, lost).state, clientId)
    ensures CoherentForOthers(q, ReadRoles(q, s, c, lost).state, clientId)
    ensures c != clientId ==> ReadDirect(q, s, c, lost).value == q.direct(s.tables, c)
    ensures c != clientId ==> ReadRoles(q, s, c, lost).value == q.roles(s.tables, c)
  {
  }

  lemma EffectiveReadKeepsOthers(q: Queries, s: State, c: string, lost: set<Command>, clientId: string)
    requires CoherentForOthers(q, s, clientId)
    ensures CoherentForOthers(q, ReadEffective(q, s, c, lost).state, clientId)
  {
    ReadKeepsOthers(q, s, c, lost, clientId);
    var direct := ReadDirect(q, s, c, lost).state;
    ReadKeepsOthers(q, direct, c, lost, clientId);
    PartReadsAreSeparate(q, s, c, lost);
  }

  lemma StepKeepsOthers(q: Queries, s: State, step: Step, clientId: string)
    requires CoherentForOthers(q, s, clientId) && !step.WriteTables?
    ensures CoherentForOthers(q, Next(q, s, step), clientId) && Next(q, s, step).tables == s.tables
  {
    match step
    case GetDirect(c, lost) => ReadKeepsOthers(q, s, c, lost, clientId);
    case GetRoles(c, lost) => ReadKeepsOthers(q, s, c, lost, clientId);
    case GetEffective(c, lost) => EffectiveReadKeepsOthers(q, s, c, lost, clientId);
    case _ =>
  }

  lemma {:induction false} StepsKeepOthers(q: Queries, s: State, steps: seq<Step>, clientId: string)
    requires CoherentForOthers(q, s, clientId) && WritesNothing(steps)
    ensures CoherentForOthers(q, Ran(q, s, steps), clientId) && Ran(q, s, steps).tables == s.tables
  {
    if steps != [] {
      StepsKeepOthers(q, s, steps[..|steps| - 1], clientId);
      StepKeepsOthers(q, Ran(q, s, steps[..|steps| - 1]), steps[|steps| - 1], clientId);
    }
  }

  lemma WriteKeepsOthers(q: Queries, s: State, u: Tables, clientId: string, gap: seq<Step>)
    requires CoherentForOthers(q, s, clientId) && DiffersFor(q, s.tables, u, clientId) && WritesNothing(gap)
    ensures CoherentForOthers(q, Ran(q, Invalidate(s, clientId, {}), gap).(tables := u), clientId)
  {
    StepsKeepOthers(q, Invalidate(s, clientId, {}), gap, clientId);
  }

  // ----- a round of delete and write for every name -----

  /** What happens before the delete of a round, and between its delete and its write. */
  datatype Gap = Gap(before: seq<Step>, between: seq<Step>)

  type Write = (Tables, string) -> Tables

  ghost predicate GapsWriteNothing(gaps: seq<Gap>) {
    forall i :: 0 <= i < |gaps| ==> WritesNothing(gaps[i].before) && WritesNothing(gaps[i].between)
  }

  function Written(t: Tables, write: Write, names: seq<string>): Tables {
    if names == [] then t else write(Written(t, write, names[..|names| - 1]), names[|names| - 1])
  }

  function Round(q: Queries, s: State, clientId: string, write: Write, name: string, gap: Gap): State {
    var s' := Ran(q, Invalidate(Ran(q, s, gap.before), clientId, {}), gap.between);
    s'.(tables := write(s'.tables, name))
  }

  function Rounds(q: Queries, s: State, clientId: string, write: Write, names: seq<string>, gaps: seq<Gap>): State
    requires |names| == |gaps|
  {
    if names == [] then s
    else
      var n := |names| - 1;
      Round(q, Rounds(q, s, clientId, write, names[..n], gaps[..n]), clientId, write, names[n], gaps[n])
  }

  ghost predicate WritesFor(q: Queries, write: Write, clientId: string) {
    forall t, name :: DiffersFor(q, t, write(t, name), clientId)
  }

  lemma RoundKeepsOthers(q: Queries, s: State, clientId: string, write: Write, name: string, gap: Gap)
    requires CoherentForOthers(q, s, clientId) && WritesFor(q, write, clientId)
    requires WritesNothing(gap.before) && WritesNothing(gap.between)
    ensures CoherentForOthers(q, Round(q, s, clientId, write, name, gap), clientId)
    ensures Round(q, s, clientId, write, name, gap).tables == write(s.tables, name)
    ensures Coherent(q, Round(q, s, clientId, write, name, gap)) <==>
      Unaffected(q, s.tables, write(s.tables, name), clientId, MarkedBy(NOTHING, gap.between, clientId))
  {
    var s1, u := Ran(q, s, gap.before), write(s.tables, name);
    StepsKeepOthers(q, s, gap.before, clientId);
    StepsKeepOthers(q, Invalidate(s1, clientId, {}), gap.between, clientId);
    assert DiffersFor(q, s.tables, u, clientId);
    WriteKeepsOthers(q, s1, u, clientId, gap.between);
    LastWriteDecides(q, s1, u, clientId, gap.between);
  }

  lemma {:induction false} RoundsKeepOthers(q: Queries, s: State, clientId: string, write: Write, names: seq<string>,
                                            gaps: seq<Gap>)
    requires |names| == |gaps| && CoherentForOthers(q, s, clientId)
    requires WritesFor(q, write, clientId) && GapsWriteNothing(gaps)
    ensures CoherentForOthers(q, Rounds(q, s, clientId, write, names, gaps), clientId)
    ensures Rounds(q, s, clientId, write, names, gaps).tables == Written(s.tables, write, names)
  {
    if names != [] {
      var n := |names| - 1;
      RoundsKeepOthers(q, s, clientId, write, names[..n], gaps[..n]);
      RoundKeepsOthers(q, Rounds(q, s, clientId, write, names[..n], gaps[..n]), clientId, write, names[n], gaps[n]);
    }
  }

  /** Of all the rounds, the last alone decides: reads in earlier gaps are forgiven by the delete that follows them. */
  lemma RoundsAreCoherentIff(q: Queries, s: State, clientId: string, write: Write, names: seq<string>, gaps: seq<Gap>)
    requires |names| == |gaps| && names != [] && CoherentForOthers(q, s, clientId)
    requires WritesFor(q, write, clientId) && GapsWriteNothing(gaps)
    ensures var n := |names| - 1;
      Coherent(q, Rounds(q, s, clientId, write, names, gaps)) <==>
        Unaffected(q, Written(s.tables, write, names[..n]), Written(s.tables, write, names), clientId,
                   MarkedBy(NOTHING, gaps[n].between, clientId))
  {
    var n := |names| - 1;
    RoundsKeepOthers(q, s, clientId, write, names[..n], gaps[..n]);
    RoundKeepsOthers(q, Rounds(q, s, clientId, write, names[..n], gaps[..n]), clientId, write, names[n], gaps[n]);
  }

  // ----- the operations on a list -----

  function Linking(clientId: string): Write {
    (t: Tables, name: string) => Assigned(t, clientId, name)
  }

  function Unlinking(clientId: string): Write {
    (t: Tables, name: string) => Removed(t, clientId, name)
  }

  lemma LinkingWritesFor(clientId: string)
    ensures WritesFor(QUERIES, Linking(clientId), clientId) && WritesFor(QUERIES, Unlinking(clientId), clientId)
  {
    forall t, name
      ensures DiffersFor(QUERIES, t, Linking(clientId)(t, name), clientId)
      ensures DiffersFor(QUERIES, t, Unlinking(clientId)(t, name), clientId)
    {
      OperationDiffersForItsClient(t, AssignPermission(clientId, name));
      OperationDiffersForItsClient(t, RemovePermission(clientId, name));
    }
  }

  lemma {:induction false} LinkedAll(t: Tables, clientId: string, names: seq<string>)
    ensures Written(t, Linking(clientId), names) == AssignedAll(t, clientId, names)
    ensures Written(t, Unlinking(clientId), names) == RemovedAll(t, clientId, names)
  {
    if names != [] {
      LinkedAll(t, clientId, names[..|names| - 1]);
    }
  }

  /** Nothing happens to a list with an unknown name. */
  function AssignRun(s: State, clientId: string, names: seq<string>, gaps: seq<Gap>): State
    requires |names| == |gaps|
  {
    if AllKnown(s.tables, names) then Rounds(QUERIES, s, clientId, Linking(clientId), names, gaps) else s
  }

  function RemoveRun(s: State, clientId: string, names: seq<string>, gaps: seq<Gap>): State
    requires |names| == |gaps|
  {
    Rounds(QUERIES, s, clientId, Unlinking(clientId), names, gaps)
  }

  /** A delete, a gap, the removal of every link, and then the rounds of an assignment. */
  function UpdateRun(s: State, clientId: string, names: seq<string>, first: seq<Step>, gaps: seq<Gap>): State
    requires |names| == |gaps|
  {
    var s' := Ran(QUERIES, Invalidate(s, clientId, {}), first);
    AssignRun(s'.(tables := Cleared(s'.tables, clientId)), clientId, names, gaps)
  }

  /** What a write of links changes of the client, given what a gap left cached: its roles stay as they are. */
  ghost predicate SafeLinkWrite(t: Tables, u: Tables, clientId: string, gap: seq<Step>) {
    Unaffected(QUERIES, t, u, clientId, MarkedBy(NOTHING, gap, clientId))
  }

  lemma OnlyLinksChange(t: Tables, u: Tables, clientId: string)
    requires u == t.(clientPermissions := u.clientPermissions)
    ensures RoleViews(u, clientId) == RoleViews(t, clientId)
  {
    assert ViewOf(u) == ViewOf(t);
  }

  /** With lossless reads in the gap, a write of links is safe unless a read asked for the direct part it changes. */
  lemma LinkWriteIsSafeIff(t: Tables, u: Tables, clientId: string, gap: seq<Step>)
    requires u == t.(clientPermissions := u.clientPermissions) && LosslessReads(gap)
    ensures SafeLinkWrite(t, u, clientId, gap) <==>
      (SomeAsksForDirect(gap, clientId) ==> DirectNames(u, clientId) == DirectNames(t, clientId))
  {
    OnlyLinksChange(t, u, clientId);
    MarksOfLosslessReads(0, gap, clientId);
  }

  /** The rounds of an assignment, from caches that are coherent for the other clients. */
  lemma LinkRoundsAreCoherentIff(s: State, clientId: string, names: seq<string>, gaps: seq<Gap>)
    requires |names| == |gaps| && CoherentForOthers(QUERIES, s, clientId) && GapsWriteNothing(gaps)
    ensures Rounds(QUERIES, s, clientId, Linking(clientId), names, gaps).tables
         == AssignedAll(s.tables, clientId, names)
    ensures names != [] ==>
      var n := |names| - 1;
      Coherent(QUERIES, Rounds(QUERIES, s, clientId, Linking(clientId), names, gaps)) <==>
        SafeLinkWrite(AssignedAll(s.tables, clientId, names[..n]), AssignedAll(s.tables, clientId, names), clientId,
                      gaps[n].between)
  {
    LinkingWritesFor(clientId);
    LinkedAll(s.tables, clientId, names);
    if names != [] {
      LinkedAll(s.tables, clientId, names[..|names| - 1]);
      RoundsAreCoherentIff(QUERIES, s, clientId, Linking(clientId), names, gaps);
    }
    RoundsKeepOthers(QUERIES, s, clientId, Linking(clientId), names, gaps);
  }

  lemma UnlinkRoundsAreCoherentIff(s: State, clientId: string, names: seq<string>, gaps: seq<Gap>)
    requires |names| == |gaps| && CoherentForOthers(QUERIES, s, clientId) && GapsWriteNothing(gaps)
    ensures Rounds(QUERIES, s, clientId, Unlinking(clientId), names, gaps).tables
         == RemovedAll(s.tables, clientId, names)
    ensures names != [] ==>
      var n := |names| - 1;
      Coherent(QUERIES, Rounds(QUERIES, s, clientId, Unlinking(clientId), names, gaps)) <==>
        SafeLinkWrite(RemovedAll(s.tables, clientId, names[..n]), RemovedAll(s.tables, clientId, names), clientId,
                      gaps[n].between)
  {
    LinkingWritesFor(clientId);
    LinkedAll(s.tables, clientId, names);
    if names != [] {
      LinkedAll(s.tables, clientId, names[..|names| - 1]);
      RoundsAreCoherentIff(QUERIES, s, clientId, Unlinking(clientId), names, gaps);
    }
    RoundsKeepOthers(QUERIES, s, clientId, Unlinking(clientId), names, gaps);
  }

  /** assignPermissionsToClient, with anything but writes in all its gaps: when it ends coherent. */
  lemma AssignListIsCoherentIff(s: State, clientId: string, names: seq<string>, gaps: seq<Gap>)
    requires |names| == |gaps| && Coherent(QUERIES, s) && GapsWriteNothing(gaps)
    ensures AssignRun(s, clientId, names, gaps).tables == TablesAfter(s.tables, AssignPermissions(clientId, names))
    ensures Coherent(QUERIES, AssignRun(s, clientId, names, gaps)) <==>
      names == [] || !AllKnown(s.tables, names) ||
      var n := |names| - 1;
      SafeLinkWrite(AssignedAll(s.tables, clientId, names[..n]), AssignedAll(s.tables, clientId, names), clientId,
                    gaps[n].between)
  {
    LinkRoundsAreCoherentIff(s, clientId, names, gaps);
  }

  /** removePermissionsFromClient. */
  lemma RemoveListIsCoherentIff(s: State, clientId: string, names: seq<string>, gaps: seq<Gap>)
    requires |names| == |gaps| && Coherent(QUERIES, s) && GapsWriteNothing(gaps)
    ensures RemoveRun(s, clientId, names, gaps).tables == TablesAfter(s.tables, RemovePermissions(clientId, names))
    ensures Coherent(QUERIES, RemoveRun(s, clientId, names, gaps)) <==>
      names == [] ||
      var n := |names| - 1;
      SafeLinkWrite(RemovedAll(s.tables, clientId, names[..n]), RemovedAll(s.tables, clientId, names), clientId,
                    gaps[n].between)
  {
    UnlinkRoundsAreCoherentIff(s, clientId, names, gaps);
  }

  /** updateClientPermissions: the clearing is the last write when the list is empty or has an unknown name. */
  lemma UpdateIsCoherentIff(s: State, clientId: string, names: seq<string>, first: seq<Step>, gaps: seq<Gap>)
    requires |names| == |gaps| && Coherent(QUERIES, s) && WritesNothing(first) && GapsWriteNothing(gaps)
    ensures UpdateRun(s, clientId, names, first, gaps).tables
         == TablesAfter(s.tables, UpdatePermissions(clientId, names))
    ensures Coherent(QUERIES, UpdateRun(s, clientId, names, first, gaps)) <==>
      var cleared, n := Cleared(s.tables, clientId), |names| - 1;
      if names == [] || !AllKnown(s.tables, names) then SafeLinkWrite(s.tables, cleared, clientId, first)
      else
        SafeLinkWrite(AssignedAll(cleared, clientId, names[..n]), AssignedAll(cleared, clientId, names), clientId,
                      gaps[n].between)
  {
    ClearingDecides(s, clientId, first);
    var s1 := Ran(QUERIES, Invalidate(s, clientId, {}), first).(tables := Cleared(s.tables, clientId));
    LinkRoundsAreCoherentIff(s1, clientId, names, gaps);
  }

  lemma ClearingDecides(s: State, clientId: string, first: seq<Step>)
    requires Coherent(QUERIES, s) && WritesNothing(first)
    ensures var s' := Ran(QUERIES, Invalidate(s, clientId, {}), first);
      && s'.tables == s.tables
      && var s1 := s'.(tables := Cleared(s.tables, clientId));
      && CoherentForOthers(QUERIES, s1, clientId)
      && (Coherent(QUERIES, s1) <==> SafeLinkWrite(s.tables, Cleared(s.tables, clientId), clientId, first))
  {
    StepsKeepOthers(QUERIES, Invalidate(s, clientId, {}), first, clientId);
    ClearingDiffersForItsClient(s.tables, clientId);
    WriteKeepsOthers(QUERIES, s, Cleared(s.tables, clientId), clientId, first);
    LastWriteDecides(QUERIES, s, Cleared(s.tables, clientId), clientId, first);
  }

  lemma ClearingDiffersForItsClient(t: Tables, clientId: string)
    ensures DiffersFor(QUERIES, t, Cleared(t, clientId), clientId)
  {
    OperationDiffersForItsClient(t, UpdatePermissions(clientId, []));
  }

  // ----- the same in terms of the request -----

  ghost predicate OnlyReadsBetween(gaps: seq<Gap>) {
    forall i :: 0 <= i < |gaps| ==> LosslessReads(gaps[i].before) && LosslessReads(gaps[i].between)
  }

  /** Linking a known permission changes what the client holds unless it holds it already. */
  lemma LinkingChangesNothingIff(t: Tables, clientId: string, name: string)
    requires UniquePermissions(t.permissions) && Known(t, name)
    ensures DirectNames(Assigned(t, clientId, name), clientId) == DirectNames(t, clientId) <==>
      name == "" || name in DirectNames(t, clientId)
  {
    var p := FindByName(t.permissions, name).value;
    var row := ClientPermission(clientId, p.id);
    NameFound(t.permissions, name);
    if name in DirectNames(t, clientId) {
      HeldIffLinked(t, clientId, name);
      var held :|
          held in t.clientPermissions && held.clientId == clientId && NameOf(t.permissions, held.permissionId) == name;
      NamedByOnePermission(t.permissions, held.permissionId, name);
      assert held == row;
    } else if name == "" {
      if row !in t.clientPermissions {
        NamelessRowAdded(t, row);
      }
    } else {
      AssignedAddsOneName(t, clientId, name);
      assert name in Elements(DirectNames(Assigned(t, clientId, name), clientId));
    }
  }

  lemma NamelessRowAdded(t: Tables, row: ClientPermission)
    requires NameOf(t.permissions, row.permissionId) == ""
    ensures DirectNames(t.(clientPermissions := t.clientPermissions + [row]), row.clientId)
         == DirectNames(t, row.clientId)
  {
    var rows := Where(t.clientPermissions, OfClient(row.clientId));
    WhereOfConcat(t.clientPermissions, [row], OfClient(row.clientId));
    var joined := Map(rows, JoinedName(t.permissions));
    assert Where([row], OfClient(row.clientId)) == [row] && Where([""], NonEmpty) == [];
    assert Map(rows + [row], JoinedName(t.permissions)) == joined + [""];
    WhereOfConcat(joined, [""], NonEmpty);
  }

  /** Clearing changes what the client holds if it holds anything. */
  lemma ClearingChangesNothingIff(t: Tables, clientId: string)
    ensures DirectNames(Cleared(t, clientId), clientId) == []
  {
    WhereNone(Cleared(t, clientId).clientPermissions, OfClient(clientId));
  }

  lemma HoldsAfterLinking(t: Tables, clientId: string, names: seq<string>, name: string)
    requires UniquePermissions(t.permissions) && AllKnown(t, names) && name != ""
    ensures name in DirectNames(AssignedAll(t, clientId, names), clientId) <==>
      name in DirectNames(t, clientId) || name in names
  {
    AssignedAllAddsTheNames(t, clientId, names);
    var after := DirectNames(AssignedAll(t, clientId, names), clientId);
    assert name in after <==> name in Elements(after);
  }

  /** The last link of a list changes nothing when its name is empty, held before, or already linked by the list. */
  lemma LastLinkIsSafeIff(t: Tables, clientId: string, names: seq<string>, gap: seq<Step>)
    requires UniquePermissions(t.permissions) && AllKnown(t, names) && names != [] && LosslessReads(gap)
    ensures var init, last := names[..|names| - 1], names[|names| - 1];
      SafeLinkWrite(AssignedAll(t, clientId, init), AssignedAll(t, clientId, names), clientId, gap) <==>
        !SomeAsksForDirect(gap, clientId) || last == "" || last in DirectNames(t, clientId) || last in init
  {
    var init, last := names[..|names| - 1], names[|names| - 1];
    var before := AssignedAll(t, clientId, init);
    AssignedAllTouchesOneClient(t, clientId, init);
    LinkWriteIsSafeIff(before, AssignedAll(t, clientId, names), clientId, gap);
    LinkingChangesNothingIff(before, clientId, last);
    if last != "" {
      HoldsAfterLinking(t, clientId, init, last);
    }
  }

  /**
   assignPermissionsToClient among lossless reads ends coherent exactly when no read between the last delete and
   the last save asks for the direct permissions, or that save has nothing to add.
   */
  lemma AssignListAmongReads(s: State, clientId: string, names: seq<string>, gaps: seq<Gap>)
    requires |names| == |gaps| && Coherent(QUERIES, s) && OnlyReadsBetween(gaps)
        && UniquePermissions(s.tables.permissions)
    ensures Coherent(QUERIES, AssignRun(s, clientId, names, gaps)) <==>
      names == [] || !AllKnown(s.tables, names) ||
      var init, last := names[..|names| - 1], names[|names| - 1];
      !SomeAsksForDirect(gaps[|names| - 1].between, clientId)
        || last == "" || last in DirectNames(s.tables, clientId) || last in init
  {
    AssignListIsCoherentIff(s, clientId, names, gaps);
    if names != [] && AllKnown(s.tables, names) {
      LastLinkIsSafeIff(s.tables, clientId, names, gaps[|names| - 1].between);
    }
  }

  /** The same for updateClientPermissions, which has cleared what the client held. */
  lemma UpdateAmongReads(s: State, clientId: string, names: seq<string>, first: seq<Step>, gaps: seq<Gap>)
    requires |names| == |gaps| && Coherent(QUERIES, s) && UniquePermissions(s.tables.permissions)
    requires LosslessReads(first) && OnlyReadsBetween(gaps)
    ensures Coherent(QUERIES, UpdateRun(s, clientId, names, first, gaps)) <==>
      if names == [] || !AllKnown(s.tables, names)
      then !SomeAsksForDirect(first, clientId) || DirectNames(s.tables, clientId) == []
      else
        var init, last := names[..|names| - 1], names[|names| - 1];
        !SomeAsksForDirect(gaps[|names| - 1].between, clientId) || last == "" || last in init
  {
    UpdateIsCoherentIff(s, clientId, names, first, gaps);
    ClearingChangesNothingIff(s.tables, clientId);
    var cleared := Cleared(s.tables, clientId);
    if names == [] || !AllKnown(s.tables, names) {
      LinkWriteIsSafeIff(s.tables, cleared, clientId, first);
    } else {
      LastLinkIsSafeIff(cleared, clientId, names, gaps[|names| - 1].between);
    }
  }

  /** Unlinking changes what the client holds exactly when it held the name. */
  lemma UnlinkingChangesNothingIff(t: Tables, clientId: string, name: string)
    requires UniquePermissions(t.permissions)
    ensures DirectNames(Removed(t, clientId, name), clientId) == DirectNames(t, clientId) <==>
      name !in DirectNames(t, clientId)
  {
    RemovedDropsOneName(t, clientId, name);
    if name in DirectNames(t, clientId) {
      assert name in Elements(DirectNames(t, clientId));
      assert name !in Elements(DirectNames(Removed(t, clientId, name), clientId));
    } else if Known(t, name) {
      var row := ClientPermission(clientId, FindByName(t.permissions, name).value.id);
      NameFound(t.permissions, name);
      HeldIffLinked(t, clientId, name);
      assert row !in t.clientPermissions || NameOf(t.permissions, row.permissionId) == "";
      if row in t.clientPermissions {
        NamelessRowDropped(t.permissions, t.clientPermissions, row);
      } else {
        WhereAll(t.clientPermissions, NotLink(row));
      }
    }
  }

  lemma {:induction false} NamelessRowDropped(permissions: seq<Permission>, rows: seq<ClientPermission>,
                                              row: ClientPermission)
    requires NameOf(permissions, row.permissionId) == ""
    ensures Named(permissions, Where(rows, NotLink(row)), row.clientId) == Named(permissions, rows, row.clientId)
  {
    if rows != [] {
      NamelessRowDropped(permissions, rows[1..], row);
      NamedStep(permissions, rows, row.clientId);
      if rows[0] != row {
        NamedStep(permissions, Where(rows, NotLink(row)), row.clientId);
      }
    }
  }

  /** The non-empty names the rows of a client lead to. */
  function Named(permissions: seq<Permission>, rows: seq<ClientPermission>, clientId: string): seq<string> {
    Where(Map(Where(rows, OfClient(clientId)), JoinedName(permissions)), NonEmpty)
  }

  lemma NamedStep(permissions: seq<Permission>, rows: seq<ClientPermission>, clientId: string)
    requires rows != []
    ensures var name := NameOf(permissions, rows[0].permissionId);
      Named(permissions, rows, clientId)
      == (if rows[0].clientId == clientId && name != "" then [name] else []) + Named(permissions, rows[1..], clientId)
  {
    var rest := Where(rows[1..], OfClient(clientId));
    if rows[0].clientId == clientId {
      var joined := Map([rows[0]] + rest, JoinedName(permissions));
      assert joined == [NameOf(permissions, rows[0].permissionId)] + Map(rest, JoinedName(permissions));
      assert joined[1..] == Map(rest, JoinedName(permissions));
    }
  }

  /**
   The same for removePermissionsFromClient: its last removal has nothing to drop that is not held, or
   dropped before.
   */
  lemma RemoveListAmongReads(s: State, clientId: string, names: seq<string>, gaps: seq<Gap>)
    requires |names| == |gaps| && Coherent(QUERIES, s) && OnlyReadsBetween(gaps)
        && UniquePermissions(s.tables.permissions)
    ensures Coherent(QUERIES, RemoveRun(s, clientId, names, gaps)) <==>
      names == [] ||
      var init, last := names[..|names| - 1], names[|names| - 1];
      !SomeAsksForDirect(gaps[|names| - 1].between, clientId) || last !in DirectNames(s.tables, clientId)
          || last in init
  {
    RemoveListIsCoherentIff(s, clientId, names, gaps);
    if names != [] {
      var init, last := names[..|names| - 1], names[|names| - 1];
      var before := RemovedAll(s.tables, clientId, init);
      RemovedAllTouchesOneClient(s.tables, clientId, init);
      RemovedTouchesOneClient(before, clientId, last);
      LinkWriteIsSafeIff(before, RemovedAll(s.tables, clientId, names), clientId, gaps[|names| - 1].between);
      UnlinkingChangesNothingIff(before, clientId, last);
      RemovedAllDropsTheNames(s.tables, clientId, init);
      assert last in DirectNames(before, clientId) <==> last in Elements(DirectNames(before, clientId));
    }
  }

  /** Of two names, a read before the first save is forgiven, and a read before the second is not. */
  lemma TwoNames(s: State, clientId: string, p: string, n: string)
    requires Coherent(QUERIES, s) && UniquePermissions(s.tables.permissions) && AllKnown(s.tables, [p, n])
    requires n != "" && n != p && n !in DirectNames(s.tables, clientId)
    ensures var idle, read := Gap([], []), Gap([], [GetDirect(clientId, {})]);
      && Coherent(QUERIES, AssignRun(s, clientId, [p, n], [read, idle]))
      && !Coherent(QUERIES, AssignRun(s, clientId, [p, n], [idle, read]))
  {
    var idle, read := Gap([], []), Gap([], [GetDirect(clientId, {})]);
    assert AsksForDirect(read.between[0], clientId);
    assert [p, n][..1] == [p];
    AssignListAmongReads(s, clientId, [p, n], [read, idle]);
    AssignListAmongReads(s, clientId, [p, n], [idle, read]);
  }

  // ----- a witness -----

  /**
   The operations invalidate before they write. With a read in between the two halves, even a reliable
   del leaves a stale entry behind: coherence needs the operations to be atomic.
   */
  lemma InterleavedInvalidationIsNotEnough(q: Queries, t: Tables, u: Tables, client: string)
    requires q.direct(u, client) != q.direct(t, client) || q.roles(u, client) != q.roles(t, client)
    ensures var s := Initial(0, t);
      var s' := Next(q, Next(q, Next(q, s, InvalidateClient(client, {})), GetEffective(client, {})), WriteTables(u));
      && Coherent(q, s) && !Coherent(q, s')
      && ReadEffective(q, s', client, {}).value == q.combine(q.direct(t, client), q.roles(t, client))
  {
    var s := Initial(0, t);
    var s' := Next(q, Next(q, Next(q, s, InvalidateClient(client, {})), GetEffective(client, {})), WriteTables(u));
    assert client in s'.direct && s'.direct[client].value == q.direct(t, client);
    assert client in s'.roles && s'.roles[client].value == q.roles(t, client);
  }
}
