/** Bill payments over runs: status, amounts and dates are what the last report that names them says. */
module BillReports {
  import opened BillPayments
  import opened LedgerMirror
  import opened PaymentStatuses
  import opened Transactions
  import opened Wrappers

  /** The bill was confirmed with the syncing provider and a code, so later reports are asked for. */
  ghost predicate BillHeard(steps: seq<Step>, id: string) {
    exists k :: 0 <= k < |steps| && OpensReports(steps[k], id)
  }

  predicate OpensReports(step: Step, id: string) {
    step.ConfirmBill? && step.id == id && Confirms(step.billAnswer) && step.isHiperbanco
        && step.billAnswer.authenticationCode != ""
  }

  /** The answer stores a payment: it accepts, and its settle date can be read or is missing. */
  predicate Confirms(answer: BillAnswer) {
    answer.BillAccepted? && !answer.settleDate.BadDate?
  }

  lemma BillHeardExtended(steps: seq<Step>, id: string)
    requires steps != []
    ensures BillHeard(steps, id) <==> BillHeard(steps[..|steps| - 1], id) || OpensReports(steps[|steps| - 1], id)
  {
    assert forall k :: 0 <= k < |steps| - 1 ==> steps[..|steps| - 1][k] == steps[k];
  }

  // ----- status -----

  /** The status a step gives the bill: created by its confirmation, then what a readable report names. */
  ghost function StatusSaid(step: Step, id: string, heard: bool): Option<BillStatus> {
    if step.id != id then None
    else
      match step
      case ConfirmBill(_, _, _, answer) => if Confirms(answer) then Some(BillCreated) else None
      case SyncBill(_, Some(d)) =>
        if !heard || !Readable(d) || d.status == "" then None
        else if d.status == "Completed" then Some(BillCompleted)
        else if d.status == "Confirmed" then Some(BillConfirmed)
        else if d.status == "Cancelled" then Some(BillCancelled)
        else Some(BillCreated)
      case _ => None
  }

  ghost function LastStatus(steps: seq<Step>, id: string): Option<BillStatus> {
    if steps == [] then None
    else
      var init, last := steps[..|steps| - 1], steps[|steps| - 1];
      var said := StatusSaid(last, id, BillHeard(init, id));
      if said.Some? then said else LastStatus(init, id)
  }

  ghost predicate StatusTracked(w: World, id: string, last: Option<BillStatus>, heard: bool) {
    if id !in w.payments then !heard
    else
      w.payments[id].Bill? ==>
        && last == Some(w.payments[id].billStatus)
        && (heard <==> w.payments[id].isHiperbanco && w.payments[id].authenticationCode != "")
  }

  lemma StatusStep(w: World, step: Step, last: Option<BillStatus>, heard: bool)
    requires StatusTracked(w, step.id, last, heard) && Fresh(w, step)
    ensures var said := StatusSaid(step, step.id, heard);
      StatusTracked(Next(w, step), step.id, if said.Some? then said else last, heard || OpensReports(step, step.id))
  {
  }

  /**
   A stored bill payment's status is what the last readable report that names a status says, and otherwise created,
   whatever else happens in the run.
   */
  lemma {:induction false} BillFollowsTheLastReport(steps: seq<Step>, id: string)
    requires FreshRun(steps)
    ensures StatusTracked(After(steps), id, LastStatus(steps, id), BillHeard(steps, id))
  {
    if steps != [] {
      var init, last := steps[..|steps| - 1], steps[|steps| - 1];
      BillFollowsTheLastReport(init, id);
      BillHeardExtended(steps, id);
      if last.id == id {
        StatusStep(After(init), last, LastStatus(init, id), BillHeard(init, id));
      } else {
        StepOnOthers(After(init), last, id);
      }
    }
  }

  /** With the mirror: a bill last reported as completed has a ledger row that is done. */
  lemma CompletedBillsAreDone(steps: seq<Step>, id: string)
    requires FreshRun(steps) && id in After(steps).payments && After(steps).payments[id].Bill?
    requires After(steps).payments[id].authenticationCode != "" && LastStatus(steps, id) == Some(BillCompleted)
    ensures var row := FindByCode(After(steps).ledger, After(steps).payments[id].authenticationCode);
      row.Some? && row.value.details.status == DONE
  {
    BillFollowsTheLastReport(steps, id);
    BillLedgerTable();
    RunsAreOk(steps);
    assert Mirrored(After(steps).ledger, id, After(steps).payments[id]);
  }

  const COMPLETED := Detail("Completed", None, None, None, "", "", "", "", NoDate, NoDate, NoDate, NoDate)

  /** A run of one bill, confirmed and then reported as completed: its row is done. */
  lemma CompletedRun(id: string, request: Request, code: string)
    requires code != ""
    ensures var run := [ConfirmBill(id, request, true, BillAccepted(code, "", NoDate)), SyncBill(id, Some(COMPLETED))];
      && FreshRun(run) && id in After(run).payments && After(run).payments[id].Bill?
      && After(run).payments[id].billStatus == BillCompleted
      && FindByCode(After(run).ledger, code).Some? && FindByCode(After(run).ledger, code).value.details.status == DONE
  {
    var run := [ConfirmBill(id, request, true, BillAccepted(code, "", NoDate)), SyncBill(id, Some(COMPLETED))];
    var confirmed := [run[0]];
    assert run[..1] == confirmed && confirmed[..0] == [];
    assert After([]) == EMPTY_WORLD && FreshRun([]) && FindByCode([], code).None?;
    assert After(confirmed) == Next(EMPTY_WORLD, run[0]) && FreshRun(confirmed);
    assert After(run) == Next(After(confirmed), run[1]) && FreshRun(run);
    BillHeardExtended(run, id);
    BillHeardExtended(confirmed, id);
    assert OpensReports(run[0], id);
    assert LastStatus(run, id) == Some(BillCompleted);
    StoredIsBill(id, request, code);
    CompletedBillsAreDone(run, id);
    BillFollowsTheLastReport(run, id);
  }

  lemma StoredIsBill(id: string, request: Request, code: string)
    requires code != ""
    ensures var w := Next(EMPTY_WORLD, ConfirmBill(id, request, true, BillAccepted(code, "", NoDate)));
      var w' := Next(w, SyncBill(id, Some(COMPLETED)));
      id in w'.payments && w'.payments[id].Bill? && w'.payments[id].authenticationCode == code
  {
  }

  // ----- amounts and dates -----

  datatype Item =
    | Amount
    | OriginalAmount
    | Interest
    | Fine
    | Discount
    | PaymentDate
    | ConfirmedAt
    | SettleDate
    | DueDate

  function AsInt(date: Option<nat>): Option<int> {
    if date.Some? then Some(date.value) else None
  }

  function ItemOf(details: BillDetails, item: Item): Option<int> {
    match item
    case Amount => Some(details.money.amount)
    case OriginalAmount => Some(details.money.originalAmount)
    case Interest => details.money.interest
    case Fine => details.money.fine
    case Discount => details.money.discount
    case PaymentDate => AsInt(details.dates.paymentDate)
    case ConfirmedAt => AsInt(details.dates.confirmedAt)
    case SettleDate => AsInt(details.dates.settleDate)
    case DueDate => AsInt(details.dates.dueDate)
  }

  ghost function DateSaid(date: DateField): Option<Option<int>> {
    if date.Date? then Some(Some(date.instant)) else None
  }

  /** What a report says of an item, if it names it; charges name all three amounts, present or not. */
  ghost function ItemSaid(d: Detail, item: Item): Option<Option<int>> {
    match item
    case Amount => if d.amount.Some? then Some(Some(d.amount.value)) else None
    case OriginalAmount => if d.originalAmount.Some? then Some(Some(d.originalAmount.value)) else None
    case Interest => if d.charges.Some? then Some(d.charges.value.interest) else None
    case Fine => if d.charges.Some? then Some(d.charges.value.fine) else None
    case Discount => if d.charges.Some? then Some(d.charges.value.discount) else None
    case PaymentDate => DateSaid(d.paymentDate)
    case ConfirmedAt => DateSaid(d.confirmedAt)
    case SettleDate => DateSaid(d.settleDate)
    case DueDate => DateSaid(d.dueDate)
  }

  /** A confirmation sets both amounts to the one asked for, and the settle date to the provider's. */
  ghost function ItemConfirmed(request: Request, answer: BillAnswer, item: Item): Option<int>
    requires answer.BillAccepted?
  {
    match item
    case Amount => Some(request.amount)
    case OriginalAmount => Some(request.amount)
    case SettleDate => if answer.settleDate.Date? then Some(answer.settleDate.instant) else None
    case _ => None
  }

  ghost function Said(step: Step, id: string, heard: bool, item: Item): Option<Option<int>> {
    if step.id != id then None
    else
      match step
      case ConfirmBill(_, request, _, answer) => if Confirms(answer) then Some(ItemConfirmed(request, answer, item))
          else None
      case SyncBill(_, Some(d)) => if heard && Readable(d) then ItemSaid(d, item) else None
      case _ => None
  }

  ghost function LastSaid(steps: seq<Step>, id: string, item: Item): Option<Option<int>> {
    if steps == [] then None
    else
      var init, last := steps[..|steps| - 1], steps[|steps| - 1];
      var said := Said(last, id, BillHeard(init, id), item);
      if said.Some? then said else LastSaid(init, id, item)
  }

  ghost predicate ItemTracked(w: World, id: string, last: Option<Option<int>>, heard: bool, item: Item) {
    if id !in w.payments then !heard
    else
      w.payments[id].Bill? ==>
        && last == Some(ItemOf(w.payments[id].details, item))
        && (heard <==> w.payments[id].isHiperbanco && w.payments[id].authenticationCode != "")
  }

  /** A report gives an item the value it names for it and leaves the others; what goes unnoticed is no item. */
  lemma ReportOnItem(p: BillDetails, d: Detail, item: Item)
    requires Readable(d)
    ensures ItemOf(Reported(p, d), item) == if ItemSaid(d, item).Some? then ItemSaid(d, item).value else ItemOf(p, item)
    ensures !Noticed(p, Reported(p, d)) ==> ItemOf(Reported(p, d), item) == ItemOf(p, item)
  {
    ReportedAmountsAndTexts(p, d);
    ReportedDatesOneByOne(p, d);
  }

  lemma ItemStep(w: World, step: Step, last: Option<Option<int>>, heard: bool, item: Item)
    requires ItemTracked(w, step.id, last, heard, item) && Fresh(w, step)
    ensures var said := Said(step, step.id, heard, item);
      ItemTracked(Next(w, step), step.id, if said.Some? then said else last, heard || OpensReports(step, step.id), item)
  {
    if step.SyncBill? && step.detail.Some? && Readable(step.detail.value) && step.id in w.payments
        && w.payments[step.id].Bill? {
      ReportOnItem(w.payments[step.id].details, step.detail.value, item);
    }
  }

  /** Each amount and each date of a stored bill payment is what the last readable report that names it says. */
  lemma {:induction false} AmountsAndDatesFollowTheLastReport(steps: seq<Step>, id: string, item: Item)
    requires FreshRun(steps)
    ensures ItemTracked(After(steps), id, LastSaid(steps, id, item), BillHeard(steps, id), item)
  {
    if steps != [] {
      var init, last := steps[..|steps| - 1], steps[|steps| - 1];
      AmountsAndDatesFollowTheLastReport(init, id, item);
      BillHeardExtended(steps, id);
      if last.id == id {
        ItemStep(After(init), last, LastSaid(init, id, item), BillHeard(init, id), item);
      } else {
        StepOnOthers(After(init), last, id);
      }
    }
  }
}
