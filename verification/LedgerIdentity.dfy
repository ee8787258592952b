/**
 The transaction service: one ledger row per authentication code, also when any number of calls interleave
 between looking a row up and saving it.
 */
module LedgerIdentity {
  import opened Transactions
  import opened Wrappers

  datatype SaveError = DuplicateCode

  /** A new row is refused when its authentication code is already there. */
  function Inserted(rows: seq<Transaction>, id: nat, data: CreateData): Result<seq<Transaction>, SaveError> {
    if FindByCode(rows, data.identity.authenticationCode).Some? then Err(DuplicateCode)
    else Ok(rows + [Transaction(id, StoredIdentity(data), data.details)])
  }

  // ----- calls that interleave -----

  datatype Call =
    | Create(data: CreateData)
    | UpdateStatus(authenticationCode: string, status: TransactionStatus)
    | Update(update: UpdateData)

  function CodeOf(call: Call): string {
    match call
    case Create(data) => data.identity.authenticationCode
    case UpdateStatus(code, _) => code
    case Update(update) => update.authenticationCode
  }

  /** Where a call stands: about to look its row up, about to save, or back with an answer. */
  datatype Stage = Looking | Inserting | Saving(row: Transaction) | Returned(answer: Option<Transaction>) | Failed

  datatype Process = Process(call: Call, stage: Stage)

  datatype System = System(rows: seq<Transaction>, nextId: nat, processes: seq<Process>)

  /** The row as the call changes it in memory. */
  function Changed(call: Call, row: Transaction): Transaction {
    match call
    case Create(_) => row
    case UpdateStatus(_, status) => row.(details := row.details.(status := status))
    case Update(update) => row.(details := Applied(row.details, update.details))
  }

  datatype Step = Start(call: Call) | Advance(process: nat)

  function Next(s: System, step: Step): System {
    match step
    case Start(call) => s.(processes := s.processes + [Process(call, Looking)])
    case Advance(k) => if k < |s.processes| then Advanced(s, k) else s
  }

  function Advanced(s: System, k: nat): System
    requires k < |s.processes|
  {
    var p := s.processes[k];
    match p.stage
    case Looking =>
      var found := FindByCode(s.rows, CodeOf(p.call));
      var stage :=
        if p.call.Create? then (if found.Some? then Returned(found) else Inserting)
        else (if found.Some? then Saving(Changed(p.call, found.value)) else Returned(None));
      s.(processes := s.processes[k := p.(stage := stage)])
    case Inserting =>
      if !p.call.Create? then s
      else (
        match Inserted(s.rows, s.nextId, p.call.data)
        case Err(_) => s.(processes := s.processes[k := p.(stage := Failed)])
        case Ok(rows) => System(rows, s.nextId + 1, s.processes[k := p.(stage := Returned(Some(rows[|rows| - 1])))])
      )
    case Saving(row) =>
      System(Overwritten(s.rows, row), s.nextId, s.processes[k := p.(stage := Returned(Some(row)))])
    case Returned(_) => s
    case Failed => s
  }

  function After(s: System, steps: seq<Step>): System {
    if steps == [] then s else Next(After(s, steps[..|steps| - 1]), steps[|steps| - 1])
  }

  const EMPTY := System([], 0, [])

  // ----- what every run keeps -----

  ghost predicate TableOk(s: System) {
    UniqueRows(s.rows) && forall i :: 0 <= i < |s.rows| ==> s.rows[i].id < s.nextId
  }

  /** What a process has in hand is a row of the table under its own code, up to details. */
  ghost predicate ProcessOk(s: System, p: Process) {
    match p.stage
    case Looking => true
    case Inserting => p.call.Create?
    case Saving(row) => !p.call.Create? && Holds(s.rows, row.id, row.identity)
        && row.identity.authenticationCode == CodeOf(p.call)
    case Returned(Some(row)) => Holds(s.rows, row.id, row.identity) && row.identity.authenticationCode == CodeOf(p.call)
    case Returned(None) => !p.call.Create?
    case Failed => p.call.Create? && exists i ::
        0 <= i < |s.rows| && s.rows[i].identity.authenticationCode == CodeOf(p.call)
  }

  /** Every row was asked for by some create call. */
  ghost predicate Requested(s: System, identity: Identity) {
    exists k ::
        0 <= k < |s.processes| && s.processes[k].call.Create? && StoredIdentity(s.processes[k].call.data) == identity
  }

  ghost predicate Consistent(s: System) {
    && TableOk(s)
    && (forall k :: 0 <= k < |s.processes| ==> ProcessOk(s, s.processes[k]))
    && (forall i :: 0 <= i < |s.rows| ==> Requested(s, s.rows[i].identity))
  }

  /** Every row of s, by id and identity, is in s' too. */
  ghost predicate KeepsRows(s: System, s': System) {
    forall i :: 0 <= i < |s.rows| ==> Holds(s'.rows, s.rows[i].id, s.rows[i].identity)
  }

  lemma HeldRowsStay(s: System, s': System, id: nat, identity: Identity)
    requires KeepsRows(s, s') && Holds(s.rows, id, identity)
    ensures Holds(s'.rows, id, identity)
  {
  }

  lemma ProcessStaysOk(s: System, s': System, p: Process)
    requires KeepsRows(s, s') && ProcessOk(s, p)
    ensures ProcessOk(s', p)
  {
    match p.stage
    case Saving(row) => HeldRowsStay(s, s', row.id, row.identity);
    case Returned(Some(row)) => HeldRowsStay(s, s', row.id, row.identity);
    case Failed =>
      var i :| 0 <= i < |s.rows| && s.rows[i].identity.authenticationCode == CodeOf(p.call);
      HeldRowsStay(s, s', s.rows[i].id, s.rows[i].identity);
    case _ =>
  }

  lemma FoundRowIsHeld(rows: seq<Transaction>, code: string)
    requires FindByCode(rows, code).Some?
    ensures var row := FindByCode(rows, code).value;
      Holds(rows, row.id, row.identity) && row.identity.authenticationCode == code
  {
    var i :| 0 <= i < |rows| && rows[i] == FindByCode(rows, code).value;
  }

  /** One step on the table and on the process that takes it. */
  lemma StepOnTable(s: System, k: nat)
    requires Consistent(s) && k < |s.processes|
    ensures var s' := Advanced(s, k);
      && TableOk(s') && KeepsRows(s, s')
      && |s'.processes| == |s.processes|
      && s'.processes[k].call == s.processes[k].call
      && (forall j :: 0 <= j < |s.processes| && j != k ==> s'.processes[j] == s.processes[j])
  {
    var s', p := Advanced(s, k), s.processes[k];
    match p.stage {
      case Inserting =>
        if FindByCode(s.rows, CodeOf(p.call)).None? {
          assert forall i :: 0 <= i < |s.rows| ==> s.rows[i] in s.rows;
          assert forall i :: 0 <= i < |s.rows| ==> s'.rows[i] == s.rows[i];
        }
      case Saving(row) =>
        assert ProcessOk(s, p);
        forall i | 0 <= i < |s.rows| ensures Holds(s'.rows, s.rows[i].id, s.rows[i].identity) {
          assert Holds(s.rows, s.rows[i].id, s.rows[i].identity);
          OverwritingKeepsIdentities(s.rows, row, s.rows[i].id, s.rows[i].identity);
        }
        OverwritingKeepsIdentities(s.rows, row, row.id, row.identity);
      case _ =>
    }
  }

  lemma StepOnProcess(s: System, k: nat)
    requires Consistent(s) && k < |s.processes|
    ensures ProcessOk(Advanced(s, k), Advanced(s, k).processes[k])
  {
    var s', p := Advanced(s, k), s.processes[k];
    StepOnTable(s, k);
    assert ProcessOk(s, p);
    match p.stage
    case Looking =>
      if FindByCode(s.rows, CodeOf(p.call)).Some? {
        FoundRowIsHeld(s.rows, CodeOf(p.call));
      }
    case Inserting =>
      if FindByCode(s.rows, CodeOf(p.call)).Some? {
        FoundRowIsHeld(s.rows, CodeOf(p.call));
      } else {
        assert s'.rows[|s.rows|] == s'.processes[k].stage.answer.value;
      }
    case Saving(row) => OverwritingKeepsIdentities(s.rows, row, row.id, row.identity);
    case _ => ProcessStaysOk(s, s', p);
  }

  lemma RequestedStays(s: System, s': System, identity: Identity)
    requires Requested(s, identity) && |s.processes| <= |s'.processes|
    requires forall j :: 0 <= j < |s.processes| ==> s'.processes[j].call == s.processes[j].call
    ensures Requested(s', identity)
  {
    var k :|
        0 <= k < |s.processes| && s.processes[k].call.Create? && StoredIdentity(s.processes[k].call.data) == identity;
    assert s'.processes[k].call == s.processes[k].call;
  }

  lemma StepOnRequests(s: System, k: nat, i: nat)
    requires Consistent(s) && k < |s.processes| && i < |Advanced(s, k).rows|
    ensures Requested(Advanced(s, k), Advanced(s, k).rows[i].identity)
  {
    var s', p := Advanced(s, k), s.processes[k];
    StepOnTable(s, k);
    if i < |s.rows| {
      assert Requested(s, s.rows[i].identity);
      RequestedStays(s, s', s.rows[i].identity);
      if p.stage.Saving? {
        var row := p.stage.row;
        assert ProcessOk(s, p) && Holds(s.rows, row.id, row.identity);
        var h :| 0 <= h < |s.rows| && s.rows[h].id == row.id && s.rows[h].identity == row.identity;
        assert s'.rows[i].identity == s.rows[i].identity by {
          assert i < h || h < i || i == h;
        }
      }
    } else {
      assert s'.processes[k].call == p.call && StoredIdentity(p.call.data) == s'.rows[i].identity;
    }
  }

  lemma StepKeepsConsistent(s: System, step: Step)
    requires Consistent(s)
    ensures Consistent(Next(s, step)) && KeepsRows(s, Next(s, step))
  {
    var s' := Next(s, step);
    if step.Advance? && step.process < |s.processes| {
      var k := step.process;
      StepOnTable(s, k);
      StepOnProcess(s, k);
      forall j | 0 <= j < |s'.processes| ensures ProcessOk(s', s'.processes[j]) {
        if j != k {
          ProcessStaysOk(s, s', s.processes[j]);
        }
      }
      forall i | 0 <= i < |s'.rows| ensures Requested(s', s'.rows[i].identity) {
        StepOnRequests(s, k, i);
      }
    } else {
      assert s'.rows == s.rows;
      forall i | 0 <= i < |s.rows|
        ensures Requested(s', s.rows[i].identity) && Holds(s'.rows, s.rows[i].id, s.rows[i].identity)
      {
        RequestedStays(s, s', s.rows[i].identity);
      }
      forall j | 0 <= j < |s.processes| ensures ProcessOk(s', s.processes[j]) {
        ProcessStaysOk(s, s', s.processes[j]);
      }
    }
  }

  lemma {:induction false} RunsAreConsistent(steps: seq<Step>)
    ensures Consistent(After(EMPTY, steps))
  {
    if steps != [] {
      RunsAreConsistent(steps[..|steps| - 1]);
      StepKeepsConsistent(After(EMPTY, steps[..|steps| - 1]), steps[|steps| - 1]);
    }
  }

  /** Whatever runs later, a stored row keeps its id, code, type, amount, currency, client, account and links. */
  lemma {:induction false} IdentityIsForever(steps: seq<Step>, n: nat, id: nat, identity: Identity)
    requires n <= |steps| && Holds(After(EMPTY, steps[..n]).rows, id, identity)
    ensures Holds(After(EMPTY, steps).rows, id, identity)
    decreases |steps|
  {
    if n == |steps| {
      assert steps[..n] == steps;
    } else {
      var init := steps[..|steps| - 1];
      assert init[..n] == steps[..n];
      IdentityIsForever(init, n, id, identity);
      RunsAreConsistent(init);
      StepKeepsConsistent(After(EMPTY, init), steps[|steps| - 1]);
    }
  }

  /**
   However calls interleave, the table holds at most one row per code; a create call that returns was
   given the row of its code, and one that fails lost the race to a row of its code. Two creators of one
   code that both return were given the same row.
   */
  lemma EveryCreatorGetsTheOneRow(steps: seq<Step>, a: nat, b: nat)
    requires var s := After(EMPTY, steps);
      && a < |s.processes| && b < |s.processes|
      && s.processes[a].call.Create? && s.processes[b].call.Create?
      && CodeOf(s.processes[a].call) == CodeOf(s.processes[b].call)
    ensures var s := After(EMPTY, steps);
      && UniqueRows(s.rows)
      && (s.processes[a].stage.Failed? ==> FindByCode(s.rows, CodeOf(s.processes[a].call)).Some?)
      && (s.processes[a].stage.Returned? ==>
            && s.processes[a].stage.answer.Some?
            && var row := s.processes[a].stage.answer.value;
            && FindByCode(s.rows, CodeOf(s.processes[a].call)).Some?
            && FindByCode(s.rows, CodeOf(s.processes[a].call)).value.id == row.id
            && FindByCode(s.rows, CodeOf(s.processes[a].call)).value.identity == row.identity)
      && (s.processes[a].stage.Returned? && s.processes[b].stage.Returned? ==>
            s.processes[a].stage.answer.Some? && s.processes[b].stage.answer.Some? &&
            s.processes[a].stage.answer.value.id == s.processes[b].stage.answer.value.id)
  {
    RunsAreConsistent(steps);
    var s := After(EMPTY, steps);
    CreatorsRow(s, a);
    CreatorsRow(s, b);
  }

  lemma CreatorsRow(s: System, a: nat)
    requires Consistent(s) && a < |s.processes| && s.processes[a].call.Create?
    ensures s.processes[a].stage.Failed? ==> FindByCode(s.rows, CodeOf(s.processes[a].call)).Some?
    ensures s.processes[a].stage.Returned? ==>
      && s.processes[a].stage.answer.Some?
      && FindByCode(s.rows, CodeOf(s.processes[a].call)).Some?
      && FindByCode(s.rows, CodeOf(s.processes[a].call)).value.id == s.processes[a].stage.answer.value.id
      && FindByCode(s.rows, CodeOf(s.processes[a].call)).value.identity == s.processes[a].stage.answer.value.identity
  {
    var p := s.processes[a];
    assert ProcessOk(s, p);
    var found := FindByCode(s.rows, CodeOf(p.call));
    if p.stage.Failed? {
      var i :| 0 <= i < |s.rows| && s.rows[i].identity.authenticationCode == CodeOf(p.call);
      assert s.rows[i] in s.rows;
    }
    if p.stage.Returned? {
      var row := p.stage.answer.value;
      var i :| 0 <= i < |s.rows| && s.rows[i].id == row.id && s.rows[i].identity == row.identity;
      assert s.rows[i] in s.rows && found.Some?;
      var j :| 0 <= j < |s.rows| && s.rows[j] == found.value;
      assert i < j || j < i || i == j;
    }
  }

  // ----- the service -----

  /** The rows after a call that is not interrupted. */
  function RowsAfterCall(rows: seq<Transaction>, nextId: nat, call: Call): seq<Transaction> {
    var found := FindByCode(rows, CodeOf(call));
    match call
    case Create(data) => if found.Some? then rows else rows + [Transaction(nextId, StoredIdentity(data), data.details)]
    case _ => if found.Some? then Overwritten(rows, Changed(call, found.value)) else rows
  }

  /** What the row of the code is after a call, detail by detail, when there was one: only updates change it. */
  lemma CallOnDetails(rows: seq<Transaction>, nextId: nat, call: Call)
    requires UniqueRows(rows) && FindByCode(rows, CodeOf(call)).Some?
    ensures var before, after := FindByCode(rows, CodeOf(call)).value, FindByCode(RowsAfterCall(rows, nextId, call),
          CodeOf(call));
      && after.Some? && after.value.id == before.id && after.value.identity == before.identity
      && (call.Create? ==> after.value.details == before.details)
      && (call.UpdateStatus? ==> after.value.details == before.details.(status := call.status))
      && (call.Update? ==> after.value.details == Applied(before.details, call.update.details))
  {
    FoundRowIsHeld(rows, CodeOf(call));
    if !call.Create? {
      FindInOverwritten(rows, Changed(call, FindByCode(rows, CodeOf(call)).value), CodeOf(call));
    }
  }

  /** An id is used up by each row a call adds. */
  function NextIdAfterCall(rows: seq<Transaction>, nextId: nat, call: Call): nat {
    if |RowsAfterCall(rows, nextId, call)| > |rows| then nextId + 1 else nextId
  }

  /** A call whose steps are taken one right after the other does what the uninterrupted call does. */
  lemma UninterruptedCall(s: System, call: Call)
    ensures var k := |s.processes|;
      var done := Next(Next(Next(s, Start(call)), Advance(k)), Advance(k));
      && done.rows == RowsAfterCall(s.rows, s.nextId, call)
      && done.processes[k].stage.Returned?
      && (FindByCode(s.rows, CodeOf(call)).None? && !call.Create? <==> done.processes[k].stage.answer.None?)
  {
  }

  /** Every row keeps its identity, and at most one row is added: the one a create call asks for. */
  lemma CallKeepsIdentities(rows: seq<Transaction>, nextId: nat, call: Call)
    requires UniqueRows(rows) && forall k :: 0 <= k < |rows| ==> rows[k].id < nextId
    ensures var after, creates := RowsAfterCall(rows, nextId, call), call.Create?
        && FindByCode(rows, CodeOf(call)).None?;
      && UniqueRows(after)
      && |after| == |rows| + (if creates then 1 else 0)
      && (forall k :: 0 <= k < |rows| ==> after[k].id == rows[k].id && after[k].identity == rows[k].identity)
      && (creates ==> after[|rows|] == Transaction(nextId, StoredIdentity(call.data), call.data.details))
  {
    var found := FindByCode(rows, CodeOf(call));
    if call.Create? {
      assert forall k :: 0 <= k < |rows| ==> rows[k] in rows;
    } else if found.Some? {
      FoundRowIsHeld(rows, CodeOf(call));
      var t := Changed(call, found.value);
      OverwritingKeepsIdentities(rows, t, t.id, t.identity);
    }
  }

  class TransactionService {
    var rows: seq<Transaction>
    var nextId: nat

    ghost predicate Valid()
      reads this
    {
      UniqueRows(rows) && forall i :: 0 <= i < |rows| ==> rows[i].id < nextId
    }

    constructor ()
      ensures Valid() && rows == [] && nextId == 0
    {
      rows, nextId := [], 0;
    }

    method FindByAuthenticationCode(authenticationCode: string) returns (found: Option<Transaction>)
      ensures found == FindByCode(rows, authenticationCode)
    {
      found := FindByCode(rows, authenticationCode);
    }

    /** Overwrites the row with the id of a row that was loaded. */
    method SaveLoaded(transaction: Transaction)
      requires Valid() && Holds(rows, transaction.id, transaction.identity)
      modifies this`rows
      ensures Valid() && rows == Overwritten(old(rows), transaction)
    {
      OverwritingKeepsIdentities(rows, transaction, transaction.id, transaction.identity);
      rows := Overwritten(rows, transaction);
    }

    method CreateFromWebhook(data: CreateData) returns (saved: Transaction)
      requires Valid()
      modifies this
      ensures Valid() && rows == RowsAfterCall(old(rows), old(nextId), Create(data))
      ensures nextId == NextIdAfterCall(old(rows), old(nextId), Create(data))
      ensures FindByCode(rows, data.identity.authenticationCode) == Some(saved)
      ensures saved in old(rows) || (saved.identity == StoredIdentity(data) && saved.details == data.details)
    {
      var existing := FindByAuthenticationCode(data.identity.authenticationCode);
      if existing.Some? {
        return existing.value;
      }
      saved := Transaction(nextId, StoredIdentity(data), data.details);
      ghost var before := rows;
      assert forall i :: 0 <= i < |rows| ==> rows[i] in rows;
      rows := rows + [saved];
      nextId := nextId + 1;
      FindInExtended(before, saved, data.identity.authenticationCode);
    }

    method UpdateStatus(authenticationCode: string, status: TransactionStatus) returns (updated: Option<Transaction>)
      requires Valid()
      modifies this`rows
      ensures Valid() && rows == RowsAfterCall(old(rows), nextId, Call.UpdateStatus(authenticationCode, status))
      ensures updated.Some? <==> FindByCode(old(rows), authenticationCode).Some?
      ensures updated.Some? ==> updated.value in rows && updated.value.details.status == status
    {
      var transaction := FindByAuthenticationCode(authenticationCode);
      if transaction.None? {
        return None;
      }
      FoundRowIsHeld(rows, authenticationCode);
      var changed := transaction.value.(details := transaction.value.details.(status := status));
      SaveLoaded(changed);
      SavedRowIsThere(old(rows), changed);
      return Some(changed);
    }

    method UpdateFromWebhook(data: UpdateData) returns (updated: Option<Transaction>)
      requires Valid()
      modifies this`rows
      ensures Valid() && rows == RowsAfterCall(old(rows), nextId, Update(data))
      ensures updated.Some? <==> FindByCode(old(rows), data.authenticationCode).Some?
      ensures updated.Some? ==> updated.value in rows && updated.value.details.status == data.details.status
    {
      var transaction := FindByAuthenticationCode(data.authenticationCode);
      if transaction.None? {
        return None;
      }
      FoundRowIsHeld(rows, data.authenticationCode);
      var changed := transaction.value.(details := Applied(transaction.value.details, data.details));
      SaveLoaded(changed);
      SavedRowIsThere(old(rows), changed);
      return Some(changed);
    }
  }

  lemma SavedRowIsThere(rows: seq<Transaction>, t: Transaction)
    requires Holds(rows, t.id, t.identity)
    ensures t in Overwritten(rows, t)
  {
    var i :| 0 <= i < |rows| && rows[i].id == t.id;
    assert Overwritten(rows, t)[i] == t;
  }
}
