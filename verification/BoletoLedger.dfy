/**
 Boletos: emission, synchronisation with the provider, cancellation and webhook updates, and the one ledger
 row that records a boleto's payment. Other parts of the system use the same ledger in between.
 */
module BoletoLedger {
  import opened LedgerIdentity
  import opened Transactions
  import opened Wrappers

  datatype BoletoStatus = Failure | Processing | Pending | Approved | Paid | Expired | Cancelled | Overdue | Registered

  /** A status named by the provider; anything else counts as processing. */
  function ParseBoletoStatus(status: string): BoletoStatus {
    match status
    case "Failure" => Failure
    case "Pending" => Pending
    case "Approved" => Approved
    case "Paid" => Paid
    case "Expired" => Expired
    case "Cancelled" => Cancelled
    case "Overdue" => Overdue
    case "Registered" => Registered
    case _ => Processing
  }

  const HIPERBANCO := "hiperbanco"

  /** A stored boleto; missing texts are empty strings. */
  datatype Boleto = Boleto(
    id: string,
    status: BoletoStatus,
    authenticationCode: string,
    barcode: string,
    digitable: string,
    ourNumber: string,
    providerSlug: string,
    clientId: string,
    accountId: string,
    amount: int,
    payments: Payments)

  /** The payments of a boleto as the provider lists them; their contents are opaque. */
  datatype Payments = NoPayments | PaymentList(payments: seq<string>)

  /** What the provider says of a boleto; a missing status is the empty string. */
  datatype BoletoData = BoletoData(
    status: string,
    barcode: Option<string>,
    digitable: Option<string>,
    ourNumber: Option<string>,
    payments: Option<Payments>)

  /** The provider's answer to a request for a boleto; missing texts are empty strings. */
  datatype Emission = Refused | Emitted(status: string, authenticationCode: string, barcode: string, digitable: string)

  datatype Session = Session(clientId: string, accountId: string, providerSlug: string)

  datatype Webhook = Webhook(authenticationCode: string, barcode: string, digitable: string, status: string)

  /** What is edited by hand; missing texts are empty strings. */
  datatype Edit = Edit(status: Option<BoletoStatus>, authenticationCode: string, barcode: string, digitable: string)

  datatype World = World(boletos: seq<Boleto>, ledger: seq<Transaction>, nextId: nat)

  /** The position of the first boleto that satisfies p, or their number. */
  function FindBoleto(boletos: seq<Boleto>, p: Boleto -> bool): (i: nat)
    ensures i <= |boletos|
    ensures i < |boletos| ==> p(boletos[i])
    ensures forall j :: 0 <= j < i ==> !p(boletos[j])
  {
    if boletos == [] then 0 else if p(boletos[0]) then 0 else 1 + FindBoleto(boletos[1..], p)
  }

  function WithId(id: string): Boleto -> bool { (b: Boleto) => b.id == id }

  function WithCode(code: string): Boleto -> bool { (b: Boleto) => b.authenticationCode == code }

  function WithBarcode(barcode: string): Boleto -> bool { (b: Boleto) => b.barcode == barcode }

  function WithDigitable(digitable: string): Boleto -> bool { (b: Boleto) => b.digitable == digitable }

  // ----- steps -----

  datatype Step =
    | Emit(id: string, provider: string, session: Session, amount: int, emission: Emission)
    | Sync(id: string, data: Option<BoletoData>)
    | Cancel(id: string, session: Session, accepted: bool)
    | Receive(webhook: Webhook)
    | Amend(id: string, owner: Owner, edit: Edit)
    | Elsewhere(call: Call)

  function CashInRow(b: Boleto): CreateData {
    CreateData(
      Identity(b.authenticationCode, BOLETO_CASH_IN, b.amount, "", b.clientId, Some(b.accountId),
               map[BoletoLink := b.id]),
      Details(DONE, None, None, None, None, None))
  }

  function EmittedBoleto(id: string, provider: string, session: Session, amount: int, emission: Emission): Boleto
    requires emission.Emitted?
  {
    Boleto(id, ParseBoletoStatus(emission.status), emission.authenticationCode, emission.barcode, emission.digitable,
           "", provider, session.clientId, session.accountId, amount, NoPayments)
  }

  function AfterEmit(w: World, id: string, provider: string, session: Session, amount: int, emission: Emission): World {
    if emission.Refused? then w else w.(boletos := w.boletos + [EmittedBoleto(id, provider, session, amount, emission)])
  }

  function Called(w: World, call: Call): World {
    w.(ledger := RowsAfterCall(w.ledger, w.nextId, call), nextId := NextIdAfterCall(w.ledger, w.nextId, call))
  }

  function Synced(b: Boleto, data: BoletoData): Boleto {
    b.(status := if data.status != "" then ParseBoletoStatus(data.status) else b.status,
       barcode := if data.barcode.Some? then data.barcode.value else b.barcode,
       digitable := if data.digitable.Some? then data.digitable.value else b.digitable,
       ourNumber := if data.ourNumber.Some? then data.ourNumber.value else b.ourNumber,
       payments := if data.payments.Some? then data.payments.value else b.payments)
  }

  /** The sync asks the provider only about its own boletos that carry a code. */
  predicate Syncable(boletos: seq<Boleto>, id: string) {
    var i := FindBoleto(boletos, WithId(id));
    i < |boletos| && boletos[i].providerSlug == HIPERBANCO && boletos[i].authenticationCode != ""
  }

  function AfterSync(w: World, id: string, data: Option<BoletoData>): World {
    if data.None? || !Syncable(w.boletos, id) then w
    else
      var i := FindBoleto(w.boletos, WithId(id));
      var b := Synced(w.boletos[i], data.value);
      var w' := w.(boletos := w.boletos[i := b]);
      if data.value.status != "" && b.status == Paid && FindByCode(w.ledger, b.authenticationCode).None?
      then Called(w', Create(CashInRow(b))) else w'
  }

  predicate Cancellable(b: Boleto, s: Session) {
    && s.accountId != "" && b.clientId == s.clientId && b.accountId == s.accountId && b.providerSlug == s.providerSlug
    && b.status != Paid && b.status != Cancelled
  }

  function AfterCancel(w: World, id: string, session: Session, accepted: bool): World {
    var i := FindBoleto(w.boletos, WithId(id));
    if i == |w.boletos| || !Cancellable(w.boletos[i], session) || !accepted then w
    else w.(boletos := w.boletos[i := w.boletos[i].(status := Cancelled)])
  }

  /** The boleto a webhook is about: by code if it has one, else by barcode, else by digitable line. */
  function Addressee(boletos: seq<Boleto>, m: Webhook): nat {
    if m.authenticationCode != "" then FindBoleto(boletos, WithCode(m.authenticationCode))
    else if m.barcode != "" then FindBoleto(boletos, WithBarcode(m.barcode))
    else if m.digitable != "" then FindBoleto(boletos, WithDigitable(m.digitable))
    else |boletos|
  }

  function Told(b: Boleto, m: Webhook): Boleto {
    b.(status := if m.status != "" then ParseBoletoStatus(m.status) else b.status,
       authenticationCode := if m.authenticationCode != "" then m.authenticationCode else b.authenticationCode,
       barcode := if m.barcode != "" then m.barcode else b.barcode,
       digitable := if m.digitable != "" then m.digitable else b.digitable)
  }

  function AfterWebhook(w: World, m: Webhook): World {
    var i := Addressee(w.boletos, m);
    if i >= |w.boletos| then w else w.(boletos := w.boletos[i := Told(w.boletos[i], m)])
  }

  function Edited(b: Boleto, edit: Edit): Boleto {
    b.(status := if edit.status.Some? then edit.status.value else b.status,
       authenticationCode := if edit.authenticationCode != "" then edit.authenticationCode else b.authenticationCode,
       barcode := if edit.barcode != "" then edit.barcode else b.barcode,
       digitable := if edit.digitable != "" then edit.digitable else b.digitable)
  }

  predicate Owns(owner: Owner, b: Boleto) {
    b.clientId == owner.clientId && b.accountId == owner.accountId
  }

  function AfterAmend(w: World, id: string, owner: Owner, edit: Edit): World {
    var i := FindBoleto(w.boletos, WithId(id));
    if i == |w.boletos| || !Owns(owner, w.boletos[i]) then w
    else w.(boletos := w.boletos[i := Edited(w.boletos[i], edit)])
  }

  function Next(w: World, step: Step): World {
    match step
    case Emit(id, provider, session, amount, emission) => AfterEmit(w, id, provider, session, amount, emission)
    case Sync(id, data) => AfterSync(w, id, data)
    case Cancel(id, session, accepted) => AfterCancel(w, id, session, accepted)
    case Receive(m) => AfterWebhook(w, m)
    case Amend(id, owner, edit) => AfterAmend(w, id, owner, edit)
    case Elsewhere(call) => Called(w, call)
  }

  const EMPTY_WORLD := World([], [], 0)

  function After(steps: seq<Step>): World {
    if steps == [] then EMPTY_WORLD else Next(After(steps[..|steps| - 1]), steps[|steps| - 1])
  }

  /**
   Boleto ids are new, and so are codes, emitted or edited: no other boleto carries them, and no ledger row but
   the boleto's own. Nothing else creates ledger rows under a boleto's code or of a boleto's kind.
   */
  ghost predicate Fresh(w: World, step: Step) {
    match step
    case Emit(id, _, _, _, Emitted(_, code, _, _)) =>
      && (forall i :: 0 <= i < |w.boletos| ==> w.boletos[i].id != id)
      && (code != "" ==>
            FindByCode(w.ledger, code).None? && forall i :: 0 <= i < |w.boletos| ==>
              w.boletos[i].authenticationCode != code)
    case Amend(id, owner, edit) =>
      forall i :: 0 <= i < |w.boletos| && Recodes(step, w.boletos[i]) ==> FreshFor(w, id, edit.authenticationCode)
    case Elsewhere(Create(data)) =>
      && data.identity.kind != BOLETO_CASH_IN
      && forall i :: 0 <= i < |w.boletos| && w.boletos[i].authenticationCode != "" ==>
           w.boletos[i].authenticationCode != data.identity.authenticationCode
    case _ => true
  }

  /** The code is carried by no other boleto, and by no ledger row but this boleto's own. */
  ghost predicate FreshFor(w: World, id: string, code: string) {
    && (forall i :: 0 <= i < |w.boletos| && w.boletos[i].id != id ==> w.boletos[i].authenticationCode != code)
    && (forall k :: 0 <= k < |w.ledger| && w.ledger[k].identity.authenticationCode == code ==> CashIn(w.ledger[k], id))
  }

  ghost predicate FreshRun(steps: seq<Step>) {
    steps != [] ==> FreshRun(steps[..|steps| - 1]) && Fresh(After(steps[..|steps| - 1]), steps[|steps| - 1])
  }

  // ----- what every run keeps -----

  /** The row records the payment of the boleto with this id. */
  ghost predicate CashIn(t: Transaction, id: string) {
    t.identity.kind == BOLETO_CASH_IN && BoletoLink in t.identity.links && t.identity.links[BoletoLink] == id
  }

  ghost predicate HasCashIn(ledger: seq<Transaction>, id: string) {
    exists k :: 0 <= k < |ledger| && CashIn(ledger[k], id)
  }

  ghost predicate DistinctIds(boletos: seq<Boleto>) {
    forall i, j :: 0 <= i < j < |boletos| ==> boletos[i].id != boletos[j].id
  }

  ghost predicate DistinctBoletos(boletos: seq<Boleto>) {
    && DistinctIds(boletos)
    && forall i, j :: 0 <= i < j < |boletos| && boletos[i].authenticationCode != "" ==>
         boletos[i].authenticationCode != boletos[j].authenticationCode
  }

  /** The row records a payment of this boleto: its amount and its owner. */
  ghost predicate RowOf(t: Transaction, b: Boleto) {
    && CashIn(t, b.id) && t.identity.amount == b.amount
    && t.identity.clientId == b.clientId && t.identity.accountId == Some(b.accountId)
  }

  /** A cash-in row is that of some boleto. */
  ghost predicate Recorded(boletos: seq<Boleto>, t: Transaction) {
    t.identity.kind == BOLETO_CASH_IN ==> exists i :: 0 <= i < |boletos| && RowOf(t, boletos[i])
  }

  ghost predicate SharesCode(b: Boleto, t: Transaction) {
    b.authenticationCode != "" && t.identity.authenticationCode == b.authenticationCode
  }

  ghost predicate Ok(w: World) {
    && UniqueRows(w.ledger)
    && (forall k :: 0 <= k < |w.ledger| ==> w.ledger[k].id < w.nextId)
    && DistinctBoletos(w.boletos)
    && (forall k :: 0 <= k < |w.ledger| ==> Recorded(w.boletos, w.ledger[k]))
    && (forall i, k :: 0 <= i < |w.boletos| && 0 <= k < |w.ledger| && SharesCode(w.boletos[i], w.ledger[k]) ==>
          RowOf(w.ledger[k], w.boletos[i]))
  }

  /** Another version of the same boleto. */
  ghost predicate SameOrigin(b: Boleto, c: Boleto) {
    && b.id == c.id && b.amount == c.amount
    && b.clientId == c.clientId && b.accountId == c.accountId && b.providerSlug == c.providerSlug
  }

  /** The boletos keep their ids, amounts and owners; new ones may follow. */
  ghost predicate KeepsOrigins(before: seq<Boleto>, after: seq<Boleto>) {
    |before| <= |after| && forall i :: 0 <= i < |before| ==> SameOrigin(before[i], after[i])
  }

  /** They also keep their codes. */
  ghost predicate KeepsCodes(before: seq<Boleto>, after: seq<Boleto>) {
    && KeepsOrigins(before, after)
    && forall i :: 0 <= i < |before| ==> after[i].authenticationCode == before[i].authenticationCode
  }

  /** The step is an edit that gives this boleto a code. */
  predicate Recodes(step: Step, b: Boleto) {
    step.Amend? && step.id == b.id && Owns(step.owner, b) && step.edit.authenticationCode != ""
  }

  lemma SyncKeepsCodes(w: World, id: string, data: Option<BoletoData>)
    ensures KeepsCodes(w.boletos, AfterSync(w, id, data).boletos)
  {
  }

  /** A webhook that carries a code goes to the boleto with that code. */
  lemma WebhookKeepsCodes(w: World, m: Webhook)
    ensures KeepsCodes(w.boletos, AfterWebhook(w, m).boletos)
  {
  }

  lemma IdsLeadBack(boletos: seq<Boleto>, i: nat)
    requires DistinctIds(boletos) && i < |boletos|
    ensures FindBoleto(boletos, WithId(boletos[i].id)) == i
  {
    var at := FindBoleto(boletos, WithId(boletos[i].id));
    assert WithId(boletos[i].id)(boletos[i]);
    assert at < i || i < at || at == i;
  }

  /** A boleto takes another code only by an edit of it. */
  lemma StepOnBoleto(w: World, step: Step, i: nat)
    requires DistinctIds(w.boletos) && i < |w.boletos|
    ensures KeepsOrigins(w.boletos, Next(w, step).boletos)
    ensures Next(w, step).boletos[i].authenticationCode
         == if Recodes(step, w.boletos[i]) then step.edit.authenticationCode else w.boletos[i].authenticationCode
  {
    match step
    case Sync(id, data) => SyncKeepsCodes(w, id, data);
    case Receive(m) => WebhookKeepsCodes(w, m);
    case Cancel(id, session, accepted) => CancelKeepsCodes(w, id, session, accepted);
    case Amend(_, _, _) => AmendOnBoleto(w, step, i);
    case _ =>
  }

  lemma CancelKeepsCodes(w: World, id: string, session: Session, accepted: bool)
    ensures KeepsCodes(w.boletos, AfterCancel(w, id, session, accepted).boletos)
  {
  }

  lemma AmendOnBoleto(w: World, step: Step, i: nat)
    requires step.Amend? && DistinctIds(w.boletos) && i < |w.boletos|
    ensures var boletos := AfterAmend(w, step.id, step.owner, step.edit).boletos;
      && KeepsOrigins(w.boletos, boletos)
      && boletos[i].authenticationCode
         == if Recodes(step, w.boletos[i]) then step.edit.authenticationCode else w.boletos[i].authenticationCode
  {
    IdsLeadBack(w.boletos, i);
  }

  /** The code of a boleto after the steps from n on: the last one an edit gave it, or the one it had. */
  function LastCode(b: Boleto, steps: seq<Step>, n: nat): string
    requires n <= |steps|
    decreases |steps|
  {
    if n == |steps| then b.authenticationCode
    else
      var init, last := steps[..|steps| - 1], steps[|steps| - 1];
      if Recodes(last, b) then last.edit.authenticationCode else LastCode(b, init, n)
  }

  /**
   A boleto's authentication code is the one it was emitted with or last edited to, whatever is synced, cancelled
   or received; its id, amount and owner never change.
   */
  lemma {:induction false} CodesChangeOnlyByEdits(steps: seq<Step>, n: nat, i: nat)
    requires FreshRun(steps) && n <= |steps| && i < |After(steps[..n]).boletos|
    ensures var b := After(steps[..n]).boletos[i];
      && i < |After(steps).boletos| && SameOrigin(b, After(steps).boletos[i])
      && After(steps).boletos[i].authenticationCode == LastCode(b, steps, n)
    decreases |steps|
  {
    if n == |steps| {
      assert steps[..n] == steps;
    } else {
      var init := steps[..|steps| - 1];
      assert init[..n] == steps[..n];
      CodesChangeOnlyByEdits(init, n, i);
      RunsAreOk(init);
      StepOnBoleto(After(init), steps[|steps| - 1], i);
    }
  }

  lemma RecordedStays(before: seq<Boleto>, after: seq<Boleto>, t: Transaction)
    requires KeepsOrigins(before, after) && Recorded(before, t)
    ensures Recorded(after, t)
  {
    if t.identity.kind == BOLETO_CASH_IN {
      var i :| 0 <= i < |before| && RowOf(t, before[i]);
      assert RowOf(t, after[i]);
    }
  }

  /** A step that leaves the ledger alone and emits nothing. */
  lemma OnlyBoletosChange(w: World, boletos: seq<Boleto>)
    requires Ok(w) && KeepsCodes(w.boletos, boletos) && |boletos| == |w.boletos|
    ensures Ok(w.(boletos := boletos))
  {
    forall k | 0 <= k < |w.ledger| ensures Recorded(boletos, w.ledger[k]) {
      RecordedStays(w.boletos, boletos, w.ledger[k]);
    }
  }

  /** An edited code leads to no ledger row but the boleto's own. */
  lemma AmendKeepsOk(w: World, id: string, owner: Owner, edit: Edit)
    requires Ok(w) && Fresh(w, Amend(id, owner, edit))
    ensures Ok(AfterAmend(w, id, owner, edit))
  {
    var i := FindBoleto(w.boletos, WithId(id));
    if i < |w.boletos| && Owns(owner, w.boletos[i]) {
      var boletos := w.boletos[i := Edited(w.boletos[i], edit)];
      forall k | 0 <= k < |w.ledger| ensures Recorded(boletos, w.ledger[k]) {
        RecordedStays(w.boletos, boletos, w.ledger[k]);
      }
      forall k | 0 <= k < |w.ledger| && SharesCode(boletos[i], w.ledger[k]) ensures RowOf(w.ledger[k], boletos[i]) {
        if edit.authenticationCode != "" {
          OwnRow(w, i, k);
        }
      }
    }
  }

  lemma OwnRow(w: World, i: nat, k: nat)
    requires Ok(w) && i < |w.boletos| && k < |w.ledger| && CashIn(w.ledger[k], w.boletos[i].id)
    ensures RowOf(w.ledger[k], w.boletos[i])
  {
    assert Recorded(w.boletos, w.ledger[k]);
    var j :| 0 <= j < |w.boletos| && RowOf(w.ledger[k], w.boletos[j]);
    assert i < j || j < i || i == j;
  }

  lemma EmissionKeepsOk(w: World, step: Step)
    requires Ok(w) && Fresh(w, step) && step.Emit? && step.emission.Emitted?
    ensures Ok(Next(w, step))
  {
    var code := step.emission.authenticationCode;
    var boletos := Next(w, step).boletos;
    forall k | 0 <= k < |w.ledger| ensures Recorded(boletos, w.ledger[k]) {
      RecordedStays(w.boletos, boletos, w.ledger[k]);
    }
    forall k | 0 <= k < |w.ledger| && code != "" ensures w.ledger[k].identity.authenticationCode != code {
      assert w.ledger[k] in w.ledger;
    }
  }

  /** A ledger call keeps every row's identity and adds at most the row it creates. */
  lemma CallOnLedger(w: World, call: Call)
    requires Ok(w)
    ensures var w' := Called(w, call);
      && UniqueRows(w'.ledger) && (forall k :: 0 <= k < |w'.ledger| ==> w'.ledger[k].id < w'.nextId)
      && |w.ledger| <= |w'.ledger| <= |w.ledger| + 1
      && (forall k :: 0 <= k < |w.ledger| ==> w'.ledger[k].identity == w.ledger[k].identity)
      && (|w'.ledger| > |w.ledger| <==> call.Create? && FindByCode(w.ledger, CodeOf(call)).None?)
      && (|w'.ledger| > |w.ledger| ==> w'.ledger[|w.ledger|].identity == StoredIdentity(call.data))
  {
    CallKeepsIdentities(w.ledger, w.nextId, call);
  }

  /** A ledger call is harmless when a row it creates is a boleto's cash-in or has nothing to do with boletos. */
  lemma CallKeepsOk(w: World, call: Call)
    requires Ok(w)
    requires call.Create? && FindByCode(w.ledger, CodeOf(call)).None? ==>
      var t := Transaction(w.nextId, StoredIdentity(call.data), call.data.details);
      && Recorded(w.boletos, t)
      && forall i ::
          0 <= i < |w.boletos| && w.boletos[i].authenticationCode != ""
              && CodeOf(call) == w.boletos[i].authenticationCode ==>
           RowOf(t, w.boletos[i])
    ensures Ok(Called(w, call))
  {
    var w' := Called(w, call);
    CallOnLedger(w, call);
    forall k | 0 <= k < |w'.ledger| ensures Recorded(w'.boletos, w'.ledger[k]) {
      if k < |w.ledger| {
        assert Recorded(w.boletos, w.ledger[k]);
        SameIdentitySameRecord(w.boletos, w.ledger[k], w'.ledger[k]);
      } else {
        SameIdentitySameRecord(w.boletos, Transaction(w.nextId, StoredIdentity(call.data), call.data.details),
                               w'.ledger[k]);
      }
    }
  }

  lemma SameIdentitySameRecord(boletos: seq<Boleto>, t: Transaction, u: Transaction)
    requires t.identity == u.identity && Recorded(boletos, t)
    ensures Recorded(boletos, u)
  {
    if t.identity.kind == BOLETO_CASH_IN {
      var i :| 0 <= i < |boletos| && RowOf(t, boletos[i]);
      assert RowOf(u, boletos[i]);
    }
  }

  lemma CashInRowIsRecorded(w: World, i: nat)
    requires Ok(w) && i < |w.boletos| && w.boletos[i].authenticationCode != ""
    ensures Ok(Called(w, Create(CashInRow(w.boletos[i]))))
  {
    var b := w.boletos[i];
    var t := Transaction(w.nextId, StoredIdentity(CashInRow(b)), CashInRow(b).details);
    assert RowOf(t, b);
    forall j | 0 <= j < |w.boletos| && SharesCode(w.boletos[j], t) ensures RowOf(t, w.boletos[j]) {
      assert j < i || i < j || j == i;
    }
    CallKeepsOk(w, Create(CashInRow(b)));
  }

  lemma SyncKeepsOk(w: World, id: string, data: Option<BoletoData>)
    requires Ok(w)
    ensures Ok(AfterSync(w, id, data))
  {
    if data.Some? && Syncable(w.boletos, id) {
      var i := FindBoleto(w.boletos, WithId(id));
      var w' := w.(boletos := w.boletos[i := Synced(w.boletos[i], data.value)]);
      OnlyBoletosChange(w, w'.boletos);
      CashInRowIsRecorded(w', i);
    }
  }

  lemma StepKeepsOk(w: World, step: Step)
    requires Ok(w) && Fresh(w, step)
    ensures Ok(Next(w, step))
  {
    match step
    case Emit(_, _, _, _, emission) =>
      if emission.Emitted? {
        EmissionKeepsOk(w, step);
      }
    case Sync(id, data) => SyncKeepsOk(w, id, data);
    case Cancel(_, _, _) => OnlyBoletosChange(w, Next(w, step).boletos);
    case Receive(m) =>
      WebhookKeepsCodes(w, m);
      OnlyBoletosChange(w, Next(w, step).boletos);
    case Amend(id, owner, edit) => AmendKeepsOk(w, id, owner, edit);
    case Elsewhere(call) => CallKeepsOk(w, call);
  }

  lemma {:induction false} RunsAreOk(steps: seq<Step>)
    requires FreshRun(steps)
    ensures Ok(After(steps))
  {
    if steps != [] {
      RunsAreOk(steps[..|steps| - 1]);
      StepKeepsOk(After(steps[..|steps| - 1]), steps[|steps| - 1]);
    }
  }

  // ----- recorded once, and only when paid -----

  /** The step is a sync of the boleto, which the provider was asked about, that reported it paid. */
  ghost predicate ReportsPaid(w: World, step: Step, id: string) {
    step.Sync? && step.id == id && step.data.Some? && step.data.value.status == "Paid" && Syncable(w.boletos, id)
  }

  /** The boleto carried this code when it was reported paid. */
  ghost predicate ReportsPaidUnder(w: World, step: Step, id: string, code: string) {
    ReportsPaid(w, step, id) && w.boletos[FindBoleto(w.boletos, WithId(id))].authenticationCode == code
  }

  ghost predicate PaidUnder(steps: seq<Step>, id: string, code: string) {
    steps != [] &&
    (PaidUnder(steps[..|steps| - 1], id, code)
     || ReportsPaidUnder(After(steps[..|steps| - 1]), steps[|steps| - 1], id, code))
  }

  /** The row records the payment of the boleto with this id, under this code. */
  ghost predicate CashInUnder(t: Transaction, id: string, code: string) {
    CashIn(t, id) && t.identity.authenticationCode == code
  }

  ghost predicate HasCashInUnder(ledger: seq<Transaction>, id: string, code: string) {
    exists k :: 0 <= k < |ledger| && CashInUnder(ledger[k], id, code)
  }

  /** A sync that reports the boleto paid leaves its cash-in row in the ledger, and adds no other. */
  lemma PaidSyncOnCashIns(w: World, i: nat, data: BoletoData, id: string, code: string)
    requires Ok(w) && i < |w.boletos| && w.boletos[i].authenticationCode != ""
    ensures var b := Synced(w.boletos[i], data);
      var stored := w.(boletos := w.boletos[i := b]);
      var w' := if FindByCode(w.ledger, b.authenticationCode).None? then Called(stored, Create(CashInRow(b)))
          else stored;
      HasCashInUnder(w'.ledger, id, code) <==>
          HasCashInUnder(w.ledger, id, code) || (id == b.id && code == b.authenticationCode)
  {
    var b := Synced(w.boletos[i], data);
    var stored := w.(boletos := w.boletos[i := b]);
    var found := FindByCode(w.ledger, b.authenticationCode);
    if found.Some? {
      var k :| 0 <= k < |w.ledger| && w.ledger[k] == found.value;
      assert SharesCode(w.boletos[i], w.ledger[k]);
      assert RowOf(w.ledger[k], w.boletos[i]);
      assert CashInUnder(w.ledger[k], b.id, b.authenticationCode);
    } else {
      OnlyBoletosChange(w, stored.boletos);
      var w' := Called(stored, Create(CashInRow(b)));
      CallOnLedger(stored, Create(CashInRow(b)));
      CashInsExtended(w.ledger, w'.ledger, id, code);
      assert CashInUnder(w'.ledger[|w.ledger|], id, code) <==> id == b.id && code == b.authenticationCode;
    }
  }

  lemma SyncOnCashIns(w: World, step: Step, id: string, code: string)
    requires Ok(w) && step.Sync?
    ensures HasCashInUnder(Next(w, step).ledger, id, code) <==>
      HasCashInUnder(w.ledger, id, code) || ReportsPaidUnder(w, step, id, code)
  {
    if step.data.Some? && Syncable(w.boletos, step.id) {
      PaidSyncOnCashIns(w, FindBoleto(w.boletos, WithId(step.id)), step.data.value, id, code);
    }
  }

  lemma CashInsExtended(before: seq<Transaction>, after: seq<Transaction>, id: string, code: string)
    requires |before| <= |after| <= |before| + 1
    requires forall k :: 0 <= k < |before| ==> after[k].identity == before[k].identity
    ensures HasCashInUnder(after, id, code) <==>
      HasCashInUnder(before, id, code) || (|after| > |before| && CashInUnder(after[|before|], id, code))
  {
    if HasCashInUnder(before, id, code) {
      var k :| 0 <= k < |before| && CashInUnder(before[k], id, code);
      assert CashInUnder(after[k], id, code);
    }
    if HasCashInUnder(after, id, code) {
      var k :| 0 <= k < |after| && CashInUnder(after[k], id, code);
      assert k < |before| ==> CashInUnder(before[k], id, code);
    }
  }

  /**
   A boleto's payment is in the ledger under a code exactly when some sync has reported the boleto paid while
   it carried that code.
   */
  lemma {:induction false} RecordedUnderIffPaidUnder(steps: seq<Step>, id: string, code: string)
    requires FreshRun(steps)
    ensures HasCashInUnder(After(steps).ledger, id, code) <==> PaidUnder(steps, id, code)
  {
    if steps != [] {
      var init, last := steps[..|steps| - 1], steps[|steps| - 1];
      RecordedUnderIffPaidUnder(init, id, code);
      RunsAreOk(init);
      match last
      case Sync(_, _) => SyncOnCashIns(After(init), last, id, code);
      case Elsewhere(call) =>
        CallOnLedger(After(init), call);
        CashInsExtended(After(init).ledger, After(steps).ledger, id, code);
      case _ =>
    }
  }

  /** A boleto's payment is in the ledger exactly when some sync of it has reported it paid. */
  lemma RecordedIffReportedPaid(steps: seq<Step>, id: string)
    requires FreshRun(steps)
    ensures HasCashIn(After(steps).ledger, id) <==> exists code :: PaidUnder(steps, id, code)
  {
    var ledger := After(steps).ledger;
    if HasCashIn(ledger, id) {
      var k :| 0 <= k < |ledger| && CashIn(ledger[k], id);
      assert CashInUnder(ledger[k], id, ledger[k].identity.authenticationCode);
      RecordedUnderIffPaidUnder(steps, id, ledger[k].identity.authenticationCode);
    }
    if code :| PaidUnder(steps, id, code) {
      RecordedUnderIffPaidUnder(steps, id, code);
      var k :| 0 <= k < |ledger| && CashInUnder(ledger[k], id, code);
      assert CashIn(ledger[k], id);
    }
  }

  ghost predicate AtMostOneCashIn(ledger: seq<Transaction>, id: string) {
    forall k, m :: 0 <= k < |ledger| && 0 <= m < |ledger| && CashIn(ledger[k], id) && CashIn(ledger[m], id) ==> k == m
  }

  ghost predicate PaidUnderOneCode(steps: seq<Step>, id: string) {
    forall c, d :: PaidUnder(steps, id, c) && PaidUnder(steps, id, d) ==> c == d
  }

  /**
   When a boleto is recorded once: it has at most one cash-in row, however often it is reported paid, exactly when
   no two syncs reported it paid under different codes.
   */
  lemma RecordedOnceIffPaidUnderOneCode(steps: seq<Step>, id: string)
    requires FreshRun(steps)
    ensures AtMostOneCashIn(After(steps).ledger, id) <==> PaidUnderOneCode(steps, id)
  {
    var ledger := After(steps).ledger;
    if AtMostOneCashIn(ledger, id) {
      forall c, d | PaidUnder(steps, id, c) && PaidUnder(steps, id, d) ensures c == d {
        RecordedUnderIffPaidUnder(steps, id, c);
        RecordedUnderIffPaidUnder(steps, id, d);
        var k :| 0 <= k < |ledger| && CashInUnder(ledger[k], id, c);
        var m :| 0 <= m < |ledger| && CashInUnder(ledger[m], id, d);
        assert CashIn(ledger[k], id) && CashIn(ledger[m], id);
      }
    }
    if PaidUnderOneCode(steps, id) {
      forall k, m | 0 <= k < |ledger| && 0 <= m < |ledger| && CashIn(ledger[k], id) && CashIn(ledger[m], id)
        ensures k == m
      {
        var c, d := ledger[k].identity.authenticationCode, ledger[m].identity.authenticationCode;
        assert CashInUnder(ledger[k], id, c) && CashInUnder(ledger[m], id, d);
        RecordedUnderIffPaidUnder(steps, id, c);
        RecordedUnderIffPaidUnder(steps, id, d);
        RunsAreOk(steps);
        assert k < m || m < k || k == m;
      }
    }
  }

  /** No edit in the run gives this boleto a code. */
  ghost predicate NeverRecoded(steps: seq<Step>, id: string) {
    forall n :: 0 <= n < |steps| && steps[n].Amend? && steps[n].id == id ==> steps[n].edit.authenticationCode == ""
  }

  lemma {:induction false} PaidUnderItsCode(steps: seq<Step>, id: string, code: string)
    requires FreshRun(steps) && NeverRecoded(steps, id) && PaidUnder(steps, id, code)
    ensures exists i ::
        0 <= i < |After(steps).boletos| && After(steps).boletos[i].id == id
            && After(steps).boletos[i].authenticationCode == code
  {
    var init, last := steps[..|steps| - 1], steps[|steps| - 1];
    var w := After(init);
    RunsAreOk(init);
    var i: nat;
    if ReportsPaidUnder(w, last, id, code) {
      i := FindBoleto(w.boletos, WithId(id));
    } else {
      assert forall n :: 0 <= n < |init| ==> init[n] == steps[n];
      PaidUnderItsCode(init, id, code);
      i :| 0 <= i < |w.boletos| && w.boletos[i].id == id && w.boletos[i].authenticationCode == code;
    }
    assert last == steps[|init|];
    StepOnBoleto(w, last, i);
    assert After(steps).boletos[i].id == id;
  }

  /** In particular a boleto whose code is not edited is recorded at most once. */
  lemma RecordedAtMostOnce(steps: seq<Step>, id: string)
    requires FreshRun(steps) && NeverRecoded(steps, id)
    ensures AtMostOneCashIn(After(steps).ledger, id)
  {
    forall c, d | PaidUnder(steps, id, c) && PaidUnder(steps, id, d) ensures c == d {
      PaidUnderItsCode(steps, id, c);
      PaidUnderItsCode(steps, id, d);
      RunsAreOk(steps);
      var boletos := After(steps).boletos;
      var i :| 0 <= i < |boletos| && boletos[i].id == id && boletos[i].authenticationCode == c;
      var j :| 0 <= j < |boletos| && boletos[j].id == id && boletos[j].authenticationCode == d;
      assert i < j || j < i || i == j;
    }
    RecordedOnceIffPaidUnderOneCode(steps, id);
  }

  /**
   A cancellation that passes every check and that the provider accepts leaves the boleto cancelled, and
   nothing else changed.
   */
  lemma CancelledIsCancelled(w: World, i: nat, session: Session)
    requires DistinctIds(w.boletos) && i < |w.boletos|
    requires session.accountId != "" && w.boletos[i].clientId == session.clientId
        && w.boletos[i].accountId == session.accountId
    requires w.boletos[i].providerSlug == session.providerSlug
    requires w.boletos[i].status != Paid && w.boletos[i].status != Cancelled
    ensures var w' := Next(w, Cancel(w.boletos[i].id, session, true));
      && |w'.boletos| == |w.boletos| && w'.ledger == w.ledger
      && w'.boletos[i].status == Cancelled && w'.boletos[i] == w.boletos[i].(status := Cancelled)
      && forall j :: 0 <= j < |w.boletos| && j != i ==> w'.boletos[j] == w.boletos[j]
  {
    IdsLeadBack(w.boletos, i);
  }

  /** Which of the provider's words mean which status; the rest mean processing. */
  lemma BoletoStatusTable(status: string)
    ensures ParseBoletoStatus(status) == Failure <==> status == "Failure"
    ensures ParseBoletoStatus(status) == Pending <==> status == "Pending"
    ensures ParseBoletoStatus(status) == Approved <==> status == "Approved"
    ensures ParseBoletoStatus(status) == Paid <==> status == "Paid"
    ensures ParseBoletoStatus(status) == Expired <==> status == "Expired"
    ensures ParseBoletoStatus(status) == Cancelled <==> status == "Cancelled"
    ensures ParseBoletoStatus(status) == Overdue <==> status == "Overdue"
    ensures ParseBoletoStatus(status) == Registered <==> status == "Registered"
  {
  }

  /** Of the three texts a webhook can carry, the first that is not empty decides which boleto it is about. */
  ghost predicate Answers(b: Boleto, m: Webhook) {
    if m.authenticationCode != "" then b.authenticationCode == m.authenticationCode
    else if m.barcode != "" then b.barcode == m.barcode
    else m.digitable != "" && b.digitable == m.digitable
  }

  /**
   A webhook goes to the first boleto that answers to it, if there is one, and gives it the texts and the
   status it carries.
   */
  lemma WebhookTellsItsAddressee(w: World, m: Webhook)
    ensures var i, w' := Addressee(w.boletos, m), Next(w, Receive(m));
      && (forall j :: 0 <= j < |w.boletos| && j < i ==> !Answers(w.boletos[j], m))
      && w'.ledger == w.ledger && |w'.boletos| == |w.boletos|
      && (forall j :: 0 <= j < |w.boletos| && j != i ==> w'.boletos[j] == w.boletos[j])
      && (i < |w.boletos| ==>
            var b, b' := w.boletos[i], w'.boletos[i];
            && Answers(b, m) && SameOrigin(b, b') && b'.ourNumber == b.ourNumber && b'.payments == b.payments
            && b'.authenticationCode == b.authenticationCode
            && (if m.status != "" then b'.status == ParseBoletoStatus(m.status) else b'.status == b.status)
            && (if m.barcode != "" then b'.barcode == m.barcode else b'.barcode == b.barcode)
            && (if m.digitable != "" then b'.digitable == m.digitable else b'.digitable == b.digitable))
  {
  }

  /** A sync gives the boleto it asked about what the provider answered, field by field, and no other anything. */
  lemma SyncTellsItsBoleto(w: World, i: nat, data: BoletoData)
    requires DistinctIds(w.boletos) && i < |w.boletos|
    requires w.boletos[i].providerSlug == HIPERBANCO && w.boletos[i].authenticationCode != ""
    ensures var w' := Next(w, Sync(w.boletos[i].id, Some(data)));
      && |w'.boletos| == |w.boletos|
      && (forall j :: 0 <= j < |w.boletos| && j != i ==> w'.boletos[j] == w.boletos[j])
      && var b, b' := w.boletos[i], w'.boletos[i];
      && SameOrigin(b, b') && b'.authenticationCode == b.authenticationCode
      && (if data.status != "" then b'.status == ParseBoletoStatus(data.status) else b'.status == b.status)
      && (if data.barcode.Some? then b'.barcode == data.barcode.value else b'.barcode == b.barcode)
      && (if data.digitable.Some? then b'.digitable == data.digitable.value else b'.digitable == b.digitable)
      && (if data.ourNumber.Some? then b'.ourNumber == data.ourNumber.value else b'.ourNumber == b.ourNumber)
      && (if data.payments.Some? then b'.payments == data.payments.value else b'.payments == b.payments)
  {
    IdsLeadBack(w.boletos, i);
  }

  /** An edit by the owner gives the boleto what it brings, field by field; anyone else's changes nothing. */
  lemma AmendTellsItsBoleto(w: World, i: nat, owner: Owner, edit: Edit)
    requires DistinctIds(w.boletos) && i < |w.boletos|
    ensures var w' := Next(w, Amend(w.boletos[i].id, owner, edit));
      && w'.ledger == w.ledger && |w'.boletos| == |w.boletos|
      && (forall j :: 0 <= j < |w.boletos| && j != i ==> w'.boletos[j] == w.boletos[j])
      && (owner != Owner(w.boletos[i].clientId, w.boletos[i].accountId) ==> w' == w)
      && (owner == Owner(w.boletos[i].clientId, w.boletos[i].accountId) ==>
            var b, b' := w.boletos[i], w'.boletos[i];
            && SameOrigin(b, b') && b'.ourNumber == b.ourNumber && b'.payments == b.payments
            && (if edit.status.Some? then b'.status == edit.status.value else b'.status == b.status)
            && (if edit.authenticationCode != "" then b'.authenticationCode == edit.authenticationCode
                else b'.authenticationCode == b.authenticationCode)
            && (if edit.barcode != "" then b'.barcode == edit.barcode else b'.barcode == b.barcode)
            && (if edit.digitable != "" then b'.digitable == edit.digitable else b'.digitable == b.digitable))
  {
    IdsLeadBack(w.boletos, i);
  }

  /** Boletos of other providers, those without a code, and unanswered requests are not synced. */
  lemma UnsyncedStays(w: World, i: nat, data: Option<BoletoData>)
    requires DistinctIds(w.boletos) && i < |w.boletos|
    requires w.boletos[i].providerSlug != "hiperbanco" || w.boletos[i].authenticationCode == "" || data.None?
    ensures Next(w, Sync(w.boletos[i].id, data)) == w
  {
    IdsLeadBack(w.boletos, i);
  }

  /** The boleto stored by an emission is what was asked for and answered. */
  lemma EmissionIsStored(w: World, step: Step)
    requires step.Emit? && step.emission.Emitted?
    ensures var boletos := Next(w, step).boletos;
      && |boletos| == |w.boletos| + 1 && boletos[..|w.boletos|] == w.boletos
      && var b := boletos[|w.boletos|];
      && b.id == step.id && b.amount == step.amount && b.providerSlug == step.provider
      && b.clientId == step.session.clientId && b.accountId == step.session.accountId
      && b.status == ParseBoletoStatus(step.emission.status) && b.authenticationCode == step.emission.authenticationCode
      && b.barcode == step.emission.barcode && b.digitable == step.emission.digitable
  {
  }

  /** The cash-in row a paid sync makes is done, and tells nothing but whose payment it is. */
  lemma CashInIsDone(w: World, i: nat, data: BoletoData)
    requires Ok(w) && i < |w.boletos|
    requires w.boletos[i].providerSlug == HIPERBANCO && w.boletos[i].authenticationCode != "" && data.status == "Paid"
    requires FindByCode(w.ledger, w.boletos[i].authenticationCode).None?
    ensures var row := FindByCode(Next(w, Sync(w.boletos[i].id, Some(data))).ledger, w.boletos[i].authenticationCode);
      && row.Some? && CashIn(row.value, w.boletos[i].id) && row.value.identity.amount == w.boletos[i].amount
      && row.value.details == Details(DONE, None, None, None, None, None)
  {
    IdsLeadBack(w.boletos, i);
    var b := Synced(w.boletos[i], data);
    var stored := CashInRow(b);
    FindInExtended(w.ledger, Transaction(w.nextId, StoredIdentity(stored), stored.details), b.authenticationCode);
  }

  /** Cancelling changes at most the named boleto's status, and never one stored as paid or cancelled. */
  lemma CancelSparesSettledBoletos(w: World, id: string, session: Session, accepted: bool)
    ensures var w' := AfterCancel(w, id, session, accepted);
      && w'.ledger == w.ledger && |w'.boletos| == |w.boletos|
      && forall i :: 0 <= i < |w.boletos| && w'.boletos[i] != w.boletos[i] ==>
           && w.boletos[i].id == id && w.boletos[i].status != Paid && w.boletos[i].status != Cancelled
           && w.boletos[i].clientId == session.clientId && w.boletos[i].accountId == session.accountId
           && w'.boletos[i] == w.boletos[i].(status := Cancelled)
  {
  }

  /** A recorded boleto whose code is edited to a new one is recorded a second time by the next paid sync. */
  lemma EditedCodeRecordsTwice(w: World, i: nat, code: string, k: nat)
    requires Ok(w) && i < |w.boletos| && w.boletos[i].providerSlug == HIPERBANCO
    requires k < |w.ledger| && CashIn(w.ledger[k], w.boletos[i].id)
    requires code != "" && FindByCode(w.ledger, code).None?
    ensures var b := w.boletos[i];
      var edited := Next(w, Amend(b.id, Owner(b.clientId, b.accountId), Edit(None, code, "", "")));
      var w' := Next(edited, Sync(b.id, Some(PAID)));
      |w'.ledger| == |w.ledger| + 1 && CashIn(w'.ledger[k], b.id) && CashIn(w'.ledger[|w.ledger|], b.id)
  {
    var b := w.boletos[i].(authenticationCode := code);
    var boletos := w.boletos[i := b];
    CodeEdited(w, i, code);
    IdsLeadBack(boletos, i);
    CallOnLedger(w, Create(CashInRow(Synced(b, PAID))));
  }

  const PAID := BoletoData("Paid", None, None, None, None)

  /** Emitted, synced as paid, edited to another code, and synced as paid again. */
  function EditedRun(id: string, owner: Owner, amount: int, code: string, code': string): seq<Step> {
    [Emit(id, HIPERBANCO, Session(owner.clientId, owner.accountId, HIPERBANCO), amount, Emitted("", code, "", "")),
     Sync(id, Some(PAID)),
     Amend(id, owner, Edit(None, code', "", "")),
     Sync(id, Some(PAID))]
  }

  /** A run with fresh codes that records one boleto twice. */
  lemma EditedRunRecordsTwice(id: string, owner: Owner, amount: int, code: string, code': string)
    requires code != "" && code' != "" && code != code'
    ensures var run := EditedRun(id, owner, amount, code, code');
      && FreshRun(run)
      && |After(run).ledger| == 2 && CashIn(After(run).ledger[0], id) && CashIn(After(run).ledger[1], id)
  {
    var run := EditedRun(id, owner, amount, code, code');
    assert run[..3][..2] == run[..2] && run[..2][..1] == run[..1] && run[..1][..0] == [];
    assert run[..4] == run;
    EmittedAndPaid(id, owner, amount, code, code');
    var w := After(run[..2]);
    assert FreshRun(run[..2]);
    RunsAreOk(run[..2]);
    assert Fresh(w, run[2]);
    assert After(run[..3]) == Next(w, run[2]) && After(run) == Next(After(run[..3]), run[3]);
    assert FreshRun(run[..3]);
    EditedCodeRecordsTwice(w, 0, code', 0);
  }

  lemma EmittedAndPaid(id: string, owner: Owner, amount: int, code: string, code': string)
    requires code != "" && code' != "" && code != code'
    ensures var run := EditedRun(id, owner, amount, code, code');
      var w := After(run[..2]);
      && FreshRun(run[..2])
      && |w.boletos| == 1 && w.boletos[0].id == id && w.boletos[0].providerSlug == HIPERBANCO
      && Owns(owner, w.boletos[0])
      && |w.ledger| == 1 && CashIn(w.ledger[0], id) && w.ledger[0].identity.authenticationCode == code
      && FindByCode(w.ledger, code').None?
  {
    var run := EditedRun(id, owner, amount, code, code');
    assert run[..2][..1] == run[..1] && run[..1][..0] == [];
    var emitted := After(run[..1]);
    assert After([]) == EMPTY_WORLD && emitted == Next(EMPTY_WORLD, run[0]);
    assert FreshRun([]) && FreshRun(run[..1]);
    var b := emitted.boletos[0];
    assert WithId(id)(b) && FindBoleto(emitted.boletos, WithId(id)) == 0;
    assert FindByCode([], code).None?;
    var w := After(run[..2]);
    assert w == Next(emitted, run[1]);
    assert w.ledger == [Transaction(0, StoredIdentity(CashInRow(Synced(b, PAID))), CashInRow(Synced(b, PAID)).details)];
  }

  lemma CodeEdited(w: World, i: nat, code: string)
    requires Ok(w) && i < |w.boletos| && code != ""
    ensures var b := w.boletos[i];
      && AfterAmend(w, b.id, Owner(b.clientId, b.accountId), Edit(None, code, "", ""))
         == w.(boletos := w.boletos[i := b.(authenticationCode := code)])
      && DistinctIds(w.boletos[i := b.(authenticationCode := code)])
  {
    IdsLeadBack(w.boletos, i);
    assert Edited(w.boletos[i], Edit(None, code, "", "")) == w.boletos[i].(authenticationCode := code);
  }
}
