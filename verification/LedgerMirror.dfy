/**
 PIX transfers, TED transfers and bill payments, created and synchronised step by step with the answers of
 the provider as inputs, and the ledger rows that mirror their statuses.

 Rows of the three kinds live in one map, keyed by their ids. No ledger or repository write fails here.
 */
module LedgerMirror {
  import opened BillPayments
  import opened LedgerIdentity
  import opened PaymentStatuses
  import opened Transactions
  import opened Wrappers

  /** What a client asks for in a transfer or a bill payment. */
  datatype Request = Request(owner: Owner, amount: int, description: Option<string>, idempotencyKey: Option<string>)

  /** What a ledger row is told beside its identity and status. */
  datatype Note = Note(correlationId: Option<string>, idempotencyKey: Option<string>, description: Option<string>,
                       providerTimestamp: Option<nat>)

  /** Missing codes and accounts are empty strings. */
  datatype Payment =
    | Pix(authenticationCode: string, owner: Owner, amount: int, pixStatus: PixStatus, senderAccount: string)
    | Ted(authenticationCode: string, owner: Owner, amount: int, tedStatus: TedStatus)
    | Bill(authenticationCode: string, owner: Owner, billStatus: BillStatus, isHiperbanco: bool, details: BillDetails)

  datatype World = World(payments: map<string, Payment>, ledger: seq<Transaction>, nextId: nat)

  function LedgerStatus(p: Payment): TransactionStatus {
    match p
    case Pix(_, _, _, status, _) => PixLedgerStatus(status)
    case Ted(_, _, _, status) => TedLedgerStatus(status)
    case Bill(_, _, status, _, _) => BillLedgerStatus(status)
  }

  /** The ledger row a payment asks for. */
  function RowFor(id: string, p: Payment, note: Note): CreateData {
    var kind := if p.Pix? then PIX_CASH_OUT else if p.Ted? then TED_OUT else BILL_PAYMENT;
    var link := if p.Pix? then PixTransferLink else if p.Ted? then TedTransferLink else BillPaymentLink;
    var amount := if p.Bill? then p.details.money.amount else p.amount;
    CreateData(
      Identity(p.authenticationCode, kind, amount, "", p.owner.clientId, Some(p.owner.accountId), map[link := id]),
      Details(LedgerStatus(p), note.correlationId, note.idempotencyKey, None, note.description, note.providerTimestamp))
  }

  function Called(w: World, call: Call): World {
    w.(ledger := RowsAfterCall(w.ledger, w.nextId, call), nextId := NextIdAfterCall(w.ledger, w.nextId, call))
  }

  // ----- steps -----

  /** The provider's answer to a transfer request; a broken one fails after its code and status were taken over. */
  datatype PixAnswer =
    | PixRefused
    | PixBroken(authenticationCode: string)
    | PixAccepted(authenticationCode: string, status: string, correlationId: Option<string>, requestedAt: Option<nat>)

  /** The provider's answer to a confirmation; a missing digitable line is the empty string. */
  datatype BillAnswer = BillRefused | BillAccepted(authenticationCode: string, digitable: string, settleDate: DateField)

  datatype Step =
    | CreatePix(id: string, request: Request, senderAccount: string, pixAnswer: PixAnswer)
    | SyncPix(id: string, report: Option<string>)
    | CreateTed(id: string, request: Request, code: Option<string>)
    | SyncTed(id: string, report: Option<string>)
    | ConfirmBill(id: string, request: Request, isHiperbanco: bool, billAnswer: BillAnswer)
    | SyncBill(id: string, detail: Option<Detail>)

  function Stored(w: World, id: string, p: Payment): World {
    w.(payments := w.payments[id := p])
  }

  function PixCreatedWith(request: Request, senderAccount: string, answer: PixAnswer): Payment {
    match answer
    case PixRefused => Pix("", request.owner, request.amount, PixReproved, senderAccount)
    case PixBroken(code) => Pix(code, request.owner, request.amount, PixReproved, senderAccount)
    case PixAccepted(code, status, _, _) => Pix(code, request.owner, request.amount, PixAnswerStatus(status),
                                                senderAccount)
  }

  /** A ledger row for an accepted transfer that has a code and finds none under it. */
  function AfterCreatePix(w: World, id: string, request: Request, p: Payment, answer: PixAnswer): World {
    var w' := Stored(w, id, p);
    if answer.PixAccepted? && p.authenticationCode != "" && FindByCode(w.ledger, p.authenticationCode).None?
    then Called(w', Create(RowFor(id, p, PixNote(request, answer.correlationId, answer.requestedAt)))) else w'
  }

  function PixNote(request: Request, correlationId: Option<string>, requestedAt: Option<nat>): Note {
    Note(correlationId, request.idempotencyKey, None, requestedAt)
  }

  function AfterSyncPix(w: World, id: string, report: Option<string>): World {
    if id !in w.payments || !w.payments[id].Pix? || w.payments[id].authenticationCode == ""
        || w.payments[id].senderAccount == "" || report.None? then w
    else
      match PixReport(report.value)
      case None => w
      case Some(status) =>
        var p := w.payments[id];
        if status == p.pixStatus then w
        else Called(Stored(w, id, p.(pixStatus := status)), UpdateStatus(p.authenticationCode, PixLedgerStatus(status)))
  }

  function AfterCreateTed(w: World, id: string, request: Request, code: Option<string>): World {
    match code
    case None => Stored(w, id, Ted("", request.owner, request.amount, TedFailed))
    case Some(c) =>
      var p := Ted(c, request.owner, request.amount, TedCreated);
      Called(Stored(w, id, p), Create(RowFor(id, p, TedNote(request))))
  }

  function TedNote(request: Request): Note {
    Note(None, request.idempotencyKey, request.description, None)
  }

  function AfterSyncTed(w: World, id: string, report: Option<string>): World {
    if id !in w.payments || !w.payments[id].Ted? || w.payments[id].authenticationCode == "" || report.None? then w
    else
      match TedReport(report.value)
      case None => w
      case Some(status) =>
        var p := w.payments[id];
        if status == p.tedStatus then w
        else Called(Stored(w, id, p.(tedStatus := status)), UpdateStatus(p.authenticationCode, TedLedgerStatus(status)))
  }

  /** A refused confirmation stores nothing, and neither does one whose settle date cannot be read. */
  function AfterConfirmBill(w: World, id: string, request: Request, isHiperbanco: bool, answer: BillAnswer): World {
    if answer.BillRefused? || answer.settleDate.BadDate? then w
    else
      var p := ConfirmedBill(request, isHiperbanco, answer);
      Called(Stored(w, id, p), Create(RowFor(id, p, ConfirmationNote(request, answer))))
  }

  function ConfirmedBill(request: Request, isHiperbanco: bool, answer: BillAnswer): Payment
    requires answer.BillAccepted?
  {
    Bill(answer.authenticationCode, request.owner, BillCreated, isHiperbanco, BillDetails(
      Money(request.amount, request.amount, None, None, None),
      Parties("", None, answer.digitable),
      Dates(None, None, Taken(answer.settleDate, None), None)))
  }

  function ConfirmationNote(request: Request, answer: BillAnswer): Note
    requires answer.BillAccepted?
  {
    Note(None, None, request.description, Taken(answer.settleDate, None))
  }

  /** Creates the payment's ledger row, or moves its status. */
  function LedgerSynced(w: World, id: string, p: Payment): World
    requires p.Bill?
  {
    if FindByCode(w.ledger, p.authenticationCode).None? then Called(w, Create(RowFor(id, p, SyncNote(p.details))))
    else Called(w, UpdateStatus(p.authenticationCode, LedgerStatus(p)))
  }

  function SyncNote(details: BillDetails): Note {
    Note(None, None, None, details.dates.paymentDate)
  }

  function ReportedBill(p: Payment, d: Detail): Payment
    requires p.Bill?
  {
    p.(billStatus := if d.status != "" then BillReport(d.status) else p.billStatus, details := Reported(p.details, d))
  }

  function AfterSyncBill(w: World, id: string, detail: Option<Detail>): World {
    if id !in w.payments || !w.payments[id].Bill? || !w.payments[id].isHiperbanco
        || w.payments[id].authenticationCode == "" || detail.None? then w
    else
      var p, d := w.payments[id], detail.value;
      var q := ReportedBill(p, d);
      if !Readable(d) || !(q.billStatus != p.billStatus || Noticed(p.details, q.details)) then w
      else if d.status != "" || q.billStatus != BillCreated then LedgerSynced(Stored(w, id, q), id, q)
      else Stored(w, id, q)
  }

  function Next(w: World, step: Step): World {
    match step
    case CreatePix(id, request, account, answer) =>
      AfterCreatePix(w, id, request, PixCreatedWith(request, account, answer), answer)
    case SyncPix(id, report) => AfterSyncPix(w, id, report)
    case CreateTed(id, request, code) => AfterCreateTed(w, id, request, code)
    case SyncTed(id, report) => AfterSyncTed(w, id, report)
    case ConfirmBill(id, request, isHiperbanco, answer) => AfterConfirmBill(w, id, request, isHiperbanco, answer)
    case SyncBill(id, detail) => AfterSyncBill(w, id, detail)
  }

  const EMPTY_WORLD := World(map[], [], 0)

  function After(steps: seq<Step>): World {
    if steps == [] then EMPTY_WORLD else Next(After(steps[..|steps| - 1]), steps[|steps| - 1])
  }

  /** The code the provider hands out in a step, if any. */
  function NewCode(step: Step): string {
    match step
    case CreatePix(_, _, _, PixBroken(code)) => code
    case CreatePix(_, _, _, PixAccepted(code, _, _, _)) => code
    case CreateTed(_, _, Some(code)) => code
    case ConfirmBill(_, _, _, BillAccepted(code, _, _)) => code
    case _ => ""
  }

  predicate Creates(step: Step) {
    step.CreatePix? || step.CreateTed? || step.ConfirmBill?
  }

  /** Row ids are new, and so is every code the provider hands out. */
  ghost predicate Fresh(w: World, step: Step) {
    Creates(step) ==>
      && step.id !in w.payments
      && (NewCode(step) != "" ==>
            && FindByCode(w.ledger, NewCode(step)).None?
            && forall id :: id in w.payments ==> w.payments[id].authenticationCode != NewCode(step))
  }

  ghost predicate FreshRun(steps: seq<Step>) {
    steps != [] ==> FreshRun(steps[..|steps| - 1]) && Fresh(After(steps[..|steps| - 1]), steps[|steps| - 1])
  }

  // ----- the mirror -----

  /** The row was created for this payment. The amount of a bill payment may move on without its row. */
  ghost predicate Records(row: Identity, id: string, p: Payment) {
    && row.clientId == p.owner.clientId && row.accountId == Some(p.owner.accountId)
    && row.currency == "BRL"
    && match p
       case Pix(_, _, amount, _, _) => row.kind == PIX_CASH_OUT && row.links == map[PixTransferLink := id]
           && row.amount == amount
       case Ted(_, _, amount, _) => row.kind == TED_OUT && row.links == map[TedTransferLink := id]
           && row.amount == amount
       case Bill(_, _, _, _, _) => row.kind == BILL_PAYMENT && row.links == map[BillPaymentLink := id]
  }

  /**
   The payment's code leads to a ledger row of its own, with its status. A PIX transfer may lack one: see
   RunsAreMirrored for which do.
   */
  ghost predicate Mirrored(ledger: seq<Transaction>, id: string, p: Payment) {
    p.authenticationCode == "" ||
    match FindByCode(ledger, p.authenticationCode)
    case None => p.Pix?
    case Some(row) => row.details.status == LedgerStatus(p) && Records(row.identity, id, p)
  }

  /** The payment with another status or other reported details: what its ledger row records stays the same. */
  ghost predicate SamePayment(p: Payment, q: Payment) {
    && p.authenticationCode == q.authenticationCode
    && p.owner == q.owner
    && match p
       case Pix(_, _, amount, _, _) => q.Pix? && q.amount == amount
       case Ted(_, _, amount, _) => q.Ted? && q.amount == amount
       case Bill(_, _, _, _, _) => q.Bill?
  }

  ghost predicate OwnCodes(w: World) {
    forall i, j :: i in w.payments && j in w.payments && i != j && w.payments[i].authenticationCode != "" ==>
      w.payments[i].authenticationCode != w.payments[j].authenticationCode
  }

  ghost predicate Ok(w: World) {
    && UniqueRows(w.ledger)
    && (forall k :: 0 <= k < |w.ledger| ==> w.ledger[k].id < w.nextId)
    && OwnCodes(w)
    && (forall id :: id in w.payments ==> Mirrored(w.ledger, id, w.payments[id]))
  }

  /** What a ledger call leaves to be found under any code. */
  lemma CallOnLedger(w: World, call: Call, code: string)
    requires UniqueRows(w.ledger) && forall k :: 0 <= k < |w.ledger| ==> w.ledger[k].id < w.nextId
    ensures var w' := Called(w, call);
      && UniqueRows(w'.ledger) && (forall k :: 0 <= k < |w'.ledger| ==> w'.ledger[k].id < w'.nextId)
      && var found := FindByCode(w.ledger, code);
      FindByCode(w'.ledger, code) ==
        if code != CodeOf(call) then found
        else if call.Create? then (if found.Some? then found
                                   else Some(Transaction(w.nextId, StoredIdentity(call.data), call.data.details)))
        else if found.Some? then Some(Changed(call, found.value)) else None
  {
    CallKeepsIdentities(w.ledger, w.nextId, call);
    var found := FindByCode(w.ledger, CodeOf(call));
    if call.Create? {
      FindInExtended(w.ledger, Transaction(w.nextId, StoredIdentity(call.data), call.data.details), code);
    } else if found.Some? {
      FoundRowIsHeld(w.ledger, CodeOf(call));
      FindInOverwritten(w.ledger, Changed(call, found.value), code);
    }
  }

  /** Storing one payment and calling the ledger for its code leaves every other payment mirrored. */
  lemma PaymentAndLedger(w: World, id: string, p: Payment, call: Call)
    requires Ok(w) && CodeOf(call) == p.authenticationCode
    requires forall j :: j in w.payments && j != id && p.authenticationCode != "" ==>
      w.payments[j].authenticationCode != p.authenticationCode
    requires var w' := Called(Stored(w, id, p), call); Mirrored(w'.ledger, id, p)
    ensures Ok(Called(Stored(w, id, p), call))
  {
    var w' := Called(Stored(w, id, p), call);
    forall j | j in w'.payments ensures Mirrored(w'.ledger, j, w'.payments[j]) {
      if j != id {
        CallOnLedger(Stored(w, id, p), call, w.payments[j].authenticationCode);
      }
    }
    CallOnLedger(Stored(w, id, p), call, p.authenticationCode);
  }

  lemma PaymentAlone(w: World, id: string, p: Payment)
    requires Ok(w) && Mirrored(w.ledger, id, p)
    requires forall j :: j in w.payments && j != id && p.authenticationCode != "" ==>
      w.payments[j].authenticationCode != p.authenticationCode
    ensures Ok(Stored(w, id, p))
  {
  }

  lemma CreatedRowMirrors(w: World, id: string, p: Payment, note: Note)
    requires Ok(w) && (p.authenticationCode == "" || FindByCode(w.ledger, p.authenticationCode).None?)
    ensures Mirrored(Called(Stored(w, id, p), Create(RowFor(id, p, note))).ledger, id, p)
  {
    CallOnLedger(Stored(w, id, p), Create(RowFor(id, p, note)), p.authenticationCode);
  }

  lemma MovedRowMirrors(w: World, id: string, p: Payment)
    requires Ok(w) && id in w.payments && SamePayment(w.payments[id], p)
    ensures Mirrored(Called(Stored(w, id, p), UpdateStatus(p.authenticationCode, LedgerStatus(p))).ledger, id, p)
  {
    CallOnLedger(Stored(w, id, p), UpdateStatus(p.authenticationCode, LedgerStatus(p)), p.authenticationCode);
  }

  lemma CreationKeepsMirror(w: World, step: Step)
    requires Ok(w) && Creates(step) && Fresh(w, step)
    ensures Ok(Next(w, step))
    ensures step.id in Next(w, step).payments && Next(w, step).payments[step.id].authenticationCode != "" ==>
      (LacksRow(Next(w, step), step.id) <==> BreaksFor(step, step.id))
  {
    if step.id in Next(w, step).payments && Next(w, step).payments[step.id].authenticationCode != "" {
      CreationLacksRowIff(w, step);
    }
    match step
    case CreatePix(id, request, account, answer) =>
      var p := PixCreatedWith(request, account, answer);
      if answer.PixAccepted? && p.authenticationCode != "" {
        var note := PixNote(request, answer.correlationId, answer.requestedAt);
        CreatedRowMirrors(w, id, p, note);
        PaymentAndLedger(w, id, p, Create(RowFor(id, p, note)));
      } else {
        PaymentAlone(w, id, p);
      }
    case CreateTed(id, request, code) =>
      if code.Some? {
        var p := Ted(code.value, request.owner, request.amount, TedCreated);
        CreatedRowMirrors(w, id, p, TedNote(request));
        PaymentAndLedger(w, id, p, Create(RowFor(id, p, TedNote(request))));
      } else {
        PaymentAlone(w, id, Ted("", request.owner, request.amount, TedFailed));
      }
    case ConfirmBill(id, request, isHiperbanco, answer) =>
      if answer.BillAccepted? {
        var p := ConfirmedBill(request, isHiperbanco, answer);
        CreatedRowMirrors(w, id, p, ConfirmationNote(request, answer));
        PaymentAndLedger(w, id, p, Create(RowFor(id, p, ConfirmationNote(request, answer))));
      }
  }

  lemma SyncKeepsMirror(w: World, step: Step)
    requires Ok(w) && !Creates(step)
    ensures Ok(Next(w, step))
  {
    if step.id in w.payments {
      var id, p := step.id, w.payments[step.id];
      assert Mirrored(w.ledger, id, p);
      match step
      case SyncPix(_, report) =>
        if p.Pix? && p.authenticationCode != "" && report.Some? && PixReport(report.value).Some? {
          var q := p.(pixStatus := PixReport(report.value).value);
          MovedRowMirrors(w, id, q);
          PaymentAndLedger(w, id, q, UpdateStatus(p.authenticationCode, LedgerStatus(q)));
        }
      case SyncTed(_, report) =>
        if p.Ted? && p.authenticationCode != "" && report.Some? && TedReport(report.value).Some? {
          var q := p.(tedStatus := TedReport(report.value).value);
          MovedRowMirrors(w, id, q);
          PaymentAndLedger(w, id, q, UpdateStatus(p.authenticationCode, LedgerStatus(q)));
        }
      case SyncBill(_, detail) =>
        if p.Bill? && p.authenticationCode != "" && detail.Some? {
          var q := ReportedBill(p, detail.value);
          MovedRowMirrors(w, id, q);
          PaymentAndLedger(w, id, q, UpdateStatus(p.authenticationCode, LedgerStatus(q)));
          if q.billStatus == p.billStatus {
            PaymentAlone(w, id, q);
          }
        }
    }
  }

  lemma {:induction false} RunsAreOk(steps: seq<Step>)
    requires FreshRun(steps)
    ensures Ok(After(steps))
  {
    if steps != [] {
      var init, last := steps[..|steps| - 1], steps[|steps| - 1];
      RunsAreOk(init);
      if Creates(last) {
        CreationKeepsMirror(After(init), last);
      } else {
        SyncKeepsMirror(After(init), last);
      }
    }
  }

  /** A row that a bill sync makes is done or pending as the payment is, and is told the payment date. */
  lemma SyncedRowIsTold(w: World, id: string, p: Payment)
    requires UniqueRows(w.ledger) && (forall k :: 0 <= k < |w.ledger| ==> w.ledger[k].id < w.nextId)
    requires p.Bill? && FindByCode(w.ledger, p.authenticationCode).None?
    ensures var row := FindByCode(LedgerSynced(w, id, p).ledger, p.authenticationCode);
      && row.Some? && Records(row.value.identity, id, p) && row.value.identity.amount == p.details.money.amount
      && row.value.details == Details(LedgerStatus(p), None, None, None, None, p.details.dates.paymentDate)
  {
    CallOnLedger(w, Create(RowFor(id, p, SyncNote(p.details))), p.authenticationCode);
  }

  // ----- who lacks a row -----

  /** The transfer was created by an answer that broke after its code was taken over. */
  ghost predicate AnswerBroke(steps: seq<Step>, id: string) {
    exists k :: 0 <= k < |steps| && BreaksFor(steps[k], id)
  }

  ghost predicate BreaksFor(step: Step, id: string) {
    step.CreatePix? && step.id == id && step.pixAnswer.PixBroken?
  }

  ghost predicate LacksRow(w: World, id: string)
    requires id in w.payments
  {
    FindByCode(w.ledger, w.payments[id].authenticationCode).None?
  }

  /** The payment under id keeps its code, and its ledger row or the lack of one. */
  ghost predicate KeepsItsRow(w: World, w': World, id: string)
    requires id in w.payments
  {
    && id in w'.payments && w'.payments[id].authenticationCode == w.payments[id].authenticationCode
    && (LacksRow(w', id) <==> LacksRow(w, id))
  }

  lemma NewPaymentKeepsRows(w: World, newId: string, p: Payment, note: Note, id: string)
    requires Ok(w) && newId !in w.payments && id in w.payments
    requires p.authenticationCode != w.payments[id].authenticationCode
    ensures KeepsItsRow(w, Stored(w, newId, p), id)
    ensures KeepsItsRow(w, Called(Stored(w, newId, p), Create(RowFor(newId, p, note))), id)
  {
    CallOnLedger(Stored(w, newId, p), Create(RowFor(newId, p, note)), w.payments[id].authenticationCode);
  }

  lemma StatusUpdateKeepsRows(w: World, syncedId: string, p: Payment, id: string)
    requires Ok(w) && syncedId in w.payments && id in w.payments && SamePayment(w.payments[syncedId], p)
    ensures KeepsItsRow(w, Stored(w, syncedId, p), id)
    ensures KeepsItsRow(w, Called(Stored(w, syncedId, p), UpdateStatus(p.authenticationCode, LedgerStatus(p))), id)
  {
    CallOnLedger(Stored(w, syncedId, p), UpdateStatus(p.authenticationCode, LedgerStatus(p)),
                 w.payments[id].authenticationCode);
  }

  lemma CreationKeepsRows(w: World, step: Step, id: string)
    requires Ok(w) && Fresh(w, step) && Creates(step) && id in w.payments && w.payments[id].authenticationCode != ""
    ensures KeepsItsRow(w, Next(w, step), id)
  {
    match step
    case CreatePix(newId, request, account, answer) =>
      var note := if answer.PixAccepted? then PixNote(request, answer.correlationId, answer.requestedAt)
          else PixNote(request, None, None);
      NewPaymentKeepsRows(w, newId, PixCreatedWith(request, account, answer), note, id);
    case CreateTed(newId, request, c) =>
      var p := if c.Some? then Ted(c.value, request.owner, request.amount, TedCreated)
          else Ted("", request.owner, request.amount, TedFailed);
      NewPaymentKeepsRows(w, newId, p, TedNote(request), id);
    case ConfirmBill(newId, request, isHiperbanco, answer) =>
      if answer.BillAccepted? {
        NewPaymentKeepsRows(w, newId, ConfirmedBill(request, isHiperbanco, answer), ConfirmationNote(request, answer),
                            id);
      }
  }

  lemma SyncKeepsRows(w: World, step: Step, id: string)
    requires Ok(w) && !Creates(step) && id in w.payments
    ensures KeepsItsRow(w, Next(w, step), id)
  {
    if step.id in w.payments {
      match step
      case SyncPix(_, _) => SyncPixKeepsRows(w, step, id);
      case SyncTed(_, _) => SyncTedKeepsRows(w, step, id);
      case SyncBill(_, _) => SyncBillKeepsRows(w, step, id);
    }
  }

  lemma SyncPixKeepsRows(w: World, step: Step, id: string)
    requires Ok(w) && step.SyncPix? && step.id in w.payments && id in w.payments
    ensures KeepsItsRow(w, AfterSyncPix(w, step.id, step.report), id)
  {
    var p := w.payments[step.id];
    if p.Pix? && step.report.Some? && PixReport(step.report.value).Some? {
      StatusUpdateKeepsRows(w, step.id, p.(pixStatus := PixReport(step.report.value).value), id);
    }
  }

  lemma SyncTedKeepsRows(w: World, step: Step, id: string)
    requires Ok(w) && step.SyncTed? && step.id in w.payments && id in w.payments
    ensures KeepsItsRow(w, AfterSyncTed(w, step.id, step.report), id)
  {
    var p := w.payments[step.id];
    if p.Ted? && step.report.Some? && TedReport(step.report.value).Some? {
      StatusUpdateKeepsRows(w, step.id, p.(tedStatus := TedReport(step.report.value).value), id);
    }
  }

  lemma SyncBillKeepsRows(w: World, step: Step, id: string)
    requires Ok(w) && step.SyncBill? && step.id in w.payments && id in w.payments
    ensures KeepsItsRow(w, AfterSyncBill(w, step.id, step.detail), id)
  {
    var p := w.payments[step.id];
    assert Mirrored(w.ledger, step.id, p);
    if p.Bill? && step.detail.Some? {
      StatusUpdateKeepsRows(w, step.id, ReportedBill(p, step.detail.value), id);
    }
  }

  /** A payment stored by a step lacks a row exactly when it is a PIX transfer whose answer broke. */
  lemma CreationLacksRowIff(w: World, step: Step)
    requires Ok(w) && Fresh(w, step) && Creates(step) && step.id in Next(w, step).payments
    requires Next(w, step).payments[step.id].authenticationCode != ""
    ensures LacksRow(Next(w, step), step.id) <==> BreaksFor(step, step.id)
  {
    match step
    case CreatePix(id, request, account, answer) =>
      var p := PixCreatedWith(request, account, answer);
      if answer.PixAccepted? {
        var data := RowFor(id, p, PixNote(request, answer.correlationId, answer.requestedAt));
        CallOnLedger(Stored(w, id, p), Create(data), p.authenticationCode);
      }
    case CreateTed(id, request, c) =>
      var p := Ted(c.value, request.owner, request.amount, TedCreated);
      CallOnLedger(Stored(w, id, p), Create(RowFor(id, p, TedNote(request))), p.authenticationCode);
    case ConfirmBill(id, request, isHiperbanco, answer) =>
      var p := ConfirmedBill(request, isHiperbanco, answer);
      CallOnLedger(Stored(w, id, p), Create(RowFor(id, p, ConfirmationNote(request, answer))), p.authenticationCode);
  }

  lemma OnlyCreationsStore(w: World, step: Step, id: string)
    requires id !in w.payments && id in Next(w, step).payments
    ensures Creates(step) && step.id == id
  {
  }

  lemma BrokenTransfersAreStored(w: World, step: Step, id: string)
    requires BreaksFor(step, id)
    ensures id in Next(w, step).payments
  {
  }

  /**
   Which payments lack a row: in every run with fresh ids and codes, a stored payment with a code has no
   ledger row exactly when it is a PIX transfer whose answer broke after its code was taken over.
   */
  lemma {:induction false} RowIsMissingIffAnswerBroke(steps: seq<Step>, id: string)
    requires FreshRun(steps)
    ensures var w := After(steps);
      && (id !in w.payments ==> !AnswerBroke(steps, id))
      && (id in w.payments && w.payments[id].authenticationCode != "" ==> (LacksRow(w, id) <==> AnswerBroke(steps, id)))
  {
    if steps != [] {
      var init, last := steps[..|steps| - 1], steps[|steps| - 1];
      var w, w' := After(init), After(steps);
      RowIsMissingIffAnswerBroke(init, id);
      RunsAreOk(init);
      assert AnswerBroke(steps, id) <==> AnswerBroke(init, id) || BreaksFor(last, id) by {
        assert forall k :: 0 <= k < |init| ==> init[k] == steps[k];
        assert steps[|init|] == last;
      }
      if id in w.payments {
        assert !BreaksFor(last, id);
        if w.payments[id].authenticationCode != "" {
          if Creates(last) {
            CreationKeepsRows(w, last, id);
          } else {
            SyncKeepsRows(w, last, id);
          }
        } else {
          CodelessStays(w, last, id);
        }
      } else if id in w'.payments {
        OnlyCreationsStore(w, last, id);
        CreationKeepsMirror(w, last);
      } else if BreaksFor(last, id) {
        BrokenTransfersAreStored(w, last, id);
      }
    }
  }

  /**
   The mirror: in every run with fresh ids and codes, whatever the provider answers and reports, the code of
   a stored payment leads to its own ledger row with its mapped status, unless it is a PIX transfer whose
   answer broke; and then there is none.
   */
  lemma RunsAreMirrored(steps: seq<Step>, id: string)
    requires FreshRun(steps) && id in After(steps).payments && After(steps).payments[id].authenticationCode != ""
    ensures var p := After(steps).payments[id];
      match FindByCode(After(steps).ledger, p.authenticationCode)
      case None => AnswerBroke(steps, id)
      case Some(row) => !AnswerBroke(steps, id) && row.details.status == LedgerStatus(p) && Records(row.identity, id, p)
  {
    RunsAreOk(steps);
    RowIsMissingIffAnswerBroke(steps, id);
    assert Mirrored(After(steps).ledger, id, After(steps).payments[id]);
  }

  lemma CodelessStays(w: World, step: Step, id: string)
    requires Fresh(w, step) && id in w.payments && w.payments[id].authenticationCode == ""
    ensures id in Next(w, step).payments && Next(w, step).payments[id].authenticationCode == ""
  {
    if step.id != id {
      StepOnOthers(w, step, id);
    }
  }

  /** A report with a date that cannot be read abandons the whole sync, whatever else it says. */
  lemma UnreadableDateStopsTheSync(w: World, id: string, d: Detail)
    requires !Readable(d)
    ensures Next(w, SyncBill(id, Some(d))) == w
  {
  }

  /** A run of one transfer whose answer broke: it is stored with its code, and no row is under the code. */
  lemma BrokenAnswerRun(id: string, request: Request, account: string, code: string)
    requires code != ""
    ensures var run := [CreatePix(id, request, account, PixBroken(code))];
      && FreshRun(run) && id in After(run).payments && After(run).payments[id].authenticationCode == code
      && FindByCode(After(run).ledger, code).None?
  {
    var run := [CreatePix(id, request, account, PixBroken(code))];
    assert run[..0] == [] && After([]) == EMPTY_WORLD && FreshRun([]);
    assert FindByCode([], code).None?;
    assert After(run) == Next(EMPTY_WORLD, run[0]);
  }

  // ----- payments are what was asked for -----

  /**
   The step created the payment: the owner, amount and account are those it asked for, and the code is the
   provider's.
   */
  ghost predicate CreatedBy(step: Step, id: string, p: Payment) {
    && step.id == id && Creates(step) && p.owner == step.request.owner && p.authenticationCode == NewCode(step)
    && match p
       case Pix(_, _, amount, _, account) => step.CreatePix? && amount == step.request.amount
           && account == step.senderAccount
       case Ted(_, _, amount, _) => step.CreateTed? && amount == step.request.amount
       case Bill(_, _, _, isHiperbanco, _) => step.ConfirmBill? && (isHiperbanco <==> step.isHiperbanco)
  }

  lemma CreationIsCreatedBy(w: World, step: Step)
    requires Fresh(w, step) && Creates(step) && step.id in Next(w, step).payments
    ensures CreatedBy(step, step.id, Next(w, step).payments[step.id])
  {
  }

  lemma SyncKeepsItsCreation(w: World, step: Step, creation: Step)
    requires !Creates(step) && step.id in w.payments && CreatedBy(creation, step.id, w.payments[step.id])
    ensures step.id in Next(w, step).payments && CreatedBy(creation, step.id, Next(w, step).payments[step.id])
  {
  }

  lemma StepOnCreated(w: World, step: Step, id: string)
    requires Fresh(w, step) && id in Next(w, step).payments
    ensures var p := Next(w, step).payments[id];
      if id in w.payments
      then (forall creation :: CreatedBy(creation, id, w.payments[id]) ==> CreatedBy(creation, id, p))
      else CreatedBy(step, id, p)
  {
    if step.id != id {
      StepOnOthers(w, step, id);
    } else if Creates(step) {
      CreationIsCreatedBy(w, step);
    } else {
      if id !in w.payments {
        OnlyCreationsStore(w, step, id);
      }
      forall creation | CreatedBy(creation, id, w.payments[id])
        ensures CreatedBy(creation, id, Next(w, step).payments[id])
      {
        SyncKeepsItsCreation(w, step, creation);
      }
    }
  }

  /** In every run, each stored payment belongs to whom, and is of the amount, some step asked for. */
  lemma {:induction false} PaymentsAreAsRequested(steps: seq<Step>, id: string)
    requires FreshRun(steps) && id in After(steps).payments
    ensures exists k :: 0 <= k < |steps| && CreatedBy(steps[k], id, After(steps).payments[id])
  {
    var init, last := steps[..|steps| - 1], steps[|steps| - 1];
    StepOnCreated(After(init), last, id);
    if id in After(init).payments {
      PaymentsAreAsRequested(init, id);
      var k :| 0 <= k < |init| && CreatedBy(init[k], id, After(init).payments[id]);
      assert steps[k] == init[k];
    } else {
      assert CreatedBy(steps[|steps| - 1], id, After(steps).payments[id]);
    }
  }

  /** What a creation tells its ledger row beside identity and status. */
  lemma NewRowsAreToldTheRequest(w: World, step: Step)
    requires Ok(w) && Fresh(w, step) && Creates(step) && NewCode(step) != ""
    ensures var row := FindByCode(Next(w, step).ledger, NewCode(step));
      row.Some? ==>
        var told := row.value.details;
        && told.entityId == None
        && (step.CreatePix? ==>
              && step.pixAnswer.PixAccepted?
              && told.correlationId == step.pixAnswer.correlationId
                  && told.idempotencyKey == step.request.idempotencyKey
              && told.description == None && told.providerTimestamp == step.pixAnswer.requestedAt)
        && (step.CreateTed? ==>
              && told.correlationId == None && told.idempotencyKey == step.request.idempotencyKey
              && told.description == step.request.description && told.providerTimestamp == None)
        && (step.ConfirmBill? ==>
              && told.correlationId == None && told.idempotencyKey == None
                  && told.description == step.request.description
              && (told.providerTimestamp.Some? <==> step.billAnswer.settleDate.Date?)
              && (told.providerTimestamp.Some? ==> told.providerTimestamp.value == step.billAnswer.settleDate.instant))
  {
    var code := NewCode(step);
    match step
    case CreatePix(id, request, account, answer) =>
      if answer.PixAccepted? {
        var p := PixCreatedWith(request, account, answer);
        var data := RowFor(id, p, PixNote(request, answer.correlationId, answer.requestedAt));
        CallOnLedger(Stored(w, id, p), Create(data), code);
      }
    case CreateTed(id, request, c) =>
      var p := Ted(c.value, request.owner, request.amount, TedCreated);
      CallOnLedger(Stored(w, id, p), Create(RowFor(id, p, TedNote(request))), code);
    case ConfirmBill(id, request, isHiperbanco, answer) =>
      if !answer.settleDate.BadDate? {
        var p := ConfirmedBill(request, isHiperbanco, answer);
        CallOnLedger(Stored(w, id, p), Create(RowFor(id, p, ConfirmationNote(request, answer))), code);
      }
  }

  // ----- the last report decides -----

  /** The status a step reports for a PIX transfer, if the transfer takes reports and the report is recognised. */
  function PixSays(step: Step, id: string, heard: bool): Option<PixStatus> {
    if step.id != id then None
    else
      match step
      case CreatePix(_, _, _, PixAccepted(_, status, _, _)) => Some(PixAnswerStatus(status))
      case CreatePix(_, _, _, _) => Some(PixReproved)
      case SyncPix(_, Some(report)) => if heard then PixReport(report) else None
      case _ => None
  }

  /** The PIX transfer was created with a code and a sender account, so later reports are asked for. */
  predicate PixHeard(steps: seq<Step>, id: string) {
    exists k ::
        0 <= k < |steps| && steps[k].CreatePix? && steps[k].id == id && NewCode(steps[k]) != ""
            && steps[k].senderAccount != ""
  }

  function LastPixReport(steps: seq<Step>, id: string): Option<PixStatus> {
    if steps == [] then None
    else
      var init, last := steps[..|steps| - 1], steps[|steps| - 1];
      var said := PixSays(last, id, PixHeard(init, id));
      if said.Some? then said else LastPixReport(init, id)
  }

  function TedSays(step: Step, id: string, heard: bool): Option<TedStatus> {
    if step.id != id then None
    else
      match step
      case CreateTed(_, _, code) => Some(if code.Some? then TedCreated else TedFailed)
      case SyncTed(_, Some(report)) => if heard then TedReport(report) else None
      case _ => None
  }

  predicate TedHeard(steps: seq<Step>, id: string) {
    exists k :: 0 <= k < |steps| && steps[k].CreateTed? && steps[k].id == id && NewCode(steps[k]) != ""
  }

  function LastTedReport(steps: seq<Step>, id: string): Option<TedStatus> {
    if steps == [] then None
    else
      var init, last := steps[..|steps| - 1], steps[|steps| - 1];
      var said := TedSays(last, id, TedHeard(init, id));
      if said.Some? then said else LastTedReport(init, id)
  }

  lemma StepOnOthers(w: World, step: Step, id: string)
    requires step.id != id
    ensures id in Next(w, step).payments <==> id in w.payments
    ensures id in w.payments ==> Next(w, step).payments[id] == w.payments[id]
  {
  }

  lemma PixHeardExtended(steps: seq<Step>, id: string)
    requires steps != []
    ensures var last := steps[|steps| - 1];
      PixHeard(steps, id) <==>
        PixHeard(steps[..|steps| - 1], id) || (last.CreatePix? && last.id == id && NewCode(last) != ""
                                               && last.senderAccount != "")
  {
    assert forall k :: 0 <= k < |steps| - 1 ==> steps[..|steps| - 1][k] == steps[k];
  }

  lemma TedHeardExtended(steps: seq<Step>, id: string)
    requires steps != []
    ensures var last := steps[|steps| - 1];
      TedHeard(steps, id) <==>
        TedHeard(steps[..|steps| - 1], id) || (last.CreateTed? && last.id == id && NewCode(last) != "")
  {
    assert forall k :: 0 <= k < |steps| - 1 ==> steps[..|steps| - 1][k] == steps[k];
  }

  /**
   The stored PIX transfer has the status last said of it, and takes reports exactly when it was created
   with a code and an account.
   */
  ghost predicate PixTracked(w: World, id: string, last: Option<PixStatus>, heard: bool) {
    if id !in w.payments then !heard
    else
      w.payments[id].Pix? ==>
        && last == Some(w.payments[id].pixStatus)
        && (heard <==> w.payments[id].authenticationCode != "" && w.payments[id].senderAccount != "")
  }

  lemma PixStepIsTracked(w: World, step: Step, last: Option<PixStatus>, heard: bool)
    requires PixTracked(w, step.id, last, heard) && Fresh(w, step)
    ensures var said := PixSays(step, step.id, heard);
      PixTracked(Next(w, step), step.id, if said.Some? then said else last,
                 heard || (step.CreatePix? && NewCode(step) != "" && step.senderAccount != ""))
  {
  }

  /** The status of a stored PIX transfer is the last recognised thing the provider said about it, and nothing else. */
  lemma {:induction false} PixFollowsTheLastReport(steps: seq<Step>, id: string)
    requires FreshRun(steps)
    ensures PixTracked(After(steps), id, LastPixReport(steps, id), PixHeard(steps, id))
  {
    if steps != [] {
      var init, last := steps[..|steps| - 1], steps[|steps| - 1];
      PixFollowsTheLastReport(init, id);
      PixHeardExtended(steps, id);
      if last.id == id {
        PixStepIsTracked(After(init), last, LastPixReport(init, id), PixHeard(init, id));
      } else {
        StepOnOthers(After(init), last, id);
      }
    }
  }

  /** The same for TED transfers, which take reports as soon as they have a code. */
  ghost predicate TedTracked(w: World, id: string, last: Option<TedStatus>, heard: bool) {
    if id !in w.payments then !heard
    else
      w.payments[id].Ted? ==>
        && last == Some(w.payments[id].tedStatus)
        && (heard <==> w.payments[id].authenticationCode != "")
  }

  lemma TedStepIsTracked(w: World, step: Step, last: Option<TedStatus>, heard: bool)
    requires TedTracked(w, step.id, last, heard) && Fresh(w, step)
    ensures var said := TedSays(step, step.id, heard);
      TedTracked(Next(w, step), step.id, if said.Some? then said else last,
                 heard || (step.CreateTed? && NewCode(step) != ""))
  {
  }

  lemma {:induction false} TedFollowsTheLastReport(steps: seq<Step>, id: string)
    requires FreshRun(steps)
    ensures TedTracked(After(steps), id, LastTedReport(steps, id), TedHeard(steps, id))
  {
    if steps != [] {
      var init, last := steps[..|steps| - 1], steps[|steps| - 1];
      TedFollowsTheLastReport(init, id);
      TedHeardExtended(steps, id);
      if last.id == id {
        TedStepIsTracked(After(init), last, LastTedReport(init, id), TedHeard(init, id));
      } else {
        StepOnOthers(After(init), last, id);
      }
    }
  }
}
