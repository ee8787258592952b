/** Ledger rows (transactions) and the table they are kept in. */
module Transactions {
  import opened Rows
  import opened Wrappers

  datatype TransactionStatus =
    | CREATED | PENDING | IN_PROCESS | DONE | UNDONE | CANCELED | FAILED | REFUND_PENDING | REFUNDED | REPROVED

  datatype TransactionType = PIX_CASH_IN | PIX_CASH_OUT | PIX_REFUND | BOLETO_CASH_IN | BILL_PAYMENT | TED_IN | TED_OUT

  /** The operations a ledger row can point to. */
  datatype Link = PixCashInLink | PixTransferLink | PixRefundLink | PixQrCodeLink | BoletoLink | BillPaymentLink
    | TedTransferLink | TedCashInLink | TedRefundLink

  /** What never changes once a row is stored. Amounts are in cents. */
  datatype Identity = Identity(
    authenticationCode: string,
    kind: TransactionType,
    amount: int,
    currency: string,
    clientId: string,
    accountId: Option<string>,
    links: map<Link, string>)

  /** What updates may change. */
  datatype Details = Details(
    status: TransactionStatus,
    correlationId: Option<string>,
    idempotencyKey: Option<string>,
    entityId: Option<string>,
    description: Option<string>,
    providerTimestamp: Option<nat>)

  datatype Transaction = Transaction(id: nat, identity: Identity, details: Details)

  datatype Owner = Owner(clientId: string, accountId: string)

  /** The argument of createFromWebhook; an absent currency arrives as the empty string. */
  datatype CreateData = CreateData(identity: Identity, details: Details)

  /** The argument of updateFromWebhook. */
  datatype UpdateData = UpdateData(authenticationCode: string, details: Details)

  /** The identity a create call stores: reais unless it names a currency. */
  function StoredIdentity(data: CreateData): Identity {
    if data.identity.currency != "" then data.identity else data.identity.(currency := "BRL")
  }

  /** applyDefined: absent values leave the row's as they are; the status is always taken. */
  function Applied(current: Details, update: Details): Details {
    Details(
      update.status,
      if update.correlationId.Some? then update.correlationId else current.correlationId,
      if update.idempotencyKey.Some? then update.idempotencyKey else current.idempotencyKey,
      if update.entityId.Some? then update.entityId else current.entityId,
      if update.description.Some? then update.description else current.description,
      if update.providerTimestamp.Some? then update.providerTimestamp else current.providerTimestamp)
  }

  /** An update takes its status and whatever else it brings, and leaves the rest of the details as they are. */
  lemma AppliedFieldByField(current: Details, update: Details)
    ensures var after := Applied(current, update);
      && after.status == update.status
      && (update.correlationId.Some? ==> after.correlationId == update.correlationId)
      && (update.correlationId.None? ==> after.correlationId == current.correlationId)
      && (update.idempotencyKey.Some? ==> after.idempotencyKey == update.idempotencyKey)
      && (update.idempotencyKey.None? ==> after.idempotencyKey == current.idempotencyKey)
      && (update.entityId.Some? ==> after.entityId == update.entityId)
      && (update.entityId.None? ==> after.entityId == current.entityId)
      && (update.description.Some? ==> after.description == update.description)
      && (update.description.None? ==> after.description == current.description)
      && (update.providerTimestamp.Some? ==> after.providerTimestamp == update.providerTimestamp)
      && (update.providerTimestamp.None? ==> after.providerTimestamp == current.providerTimestamp)
  {
  }

  /** A row is stored with the identity it is asked for; without a currency it is in reais. */
  lemma StoredCurrency(data: CreateData)
    ensures var stored := StoredIdentity(data);
      && stored == data.identity.(currency := stored.currency)
      && (data.identity.currency != "" ==> stored.currency == data.identity.currency)
      && (data.identity.currency == "" ==> stored.currency == "BRL")
  {
  }

  // ----- the table -----

  function FindByCode(rows: seq<Transaction>, code: string): (r: Option<Transaction>)
    ensures r.Some? ==> r.value in rows && r.value.identity.authenticationCode == code
    ensures r.None? ==> forall t :: t in rows ==> t.identity.authenticationCode != code
  {
    if rows == [] then None
    else if rows[0].identity.authenticationCode == code then Some(rows[0])
    else FindByCode(rows[1..], code)
  }

  function TransactionId(t: Transaction): nat { t.id }

  /** A loaded row is saved under its id. */
  function Overwritten(rows: seq<Transaction>, t: Transaction): (r: seq<Transaction>)
    ensures |r| == |rows| && forall i :: 0 <= i < |r| ==> r[i] == if rows[i].id == t.id then t else rows[i]
  {
    Saved(rows, t, TransactionId)
  }

  /** The unique constraints: one row per id and one row per authentication code. */
  ghost predicate UniqueRows(rows: seq<Transaction>) {
    forall i, j :: 0 <= i < j < |rows| ==>
      rows[i].id != rows[j].id && rows[i].identity.authenticationCode != rows[j].identity.authenticationCode
  }

  /** A row with this id and identity is in the table. */
  ghost predicate Holds(rows: seq<Transaction>, id: nat, identity: Identity) {
    exists i :: 0 <= i < |rows| && rows[i].id == id && rows[i].identity == identity
  }

  lemma OverwritingKeepsIdentities(rows: seq<Transaction>, t: Transaction, id: nat, identity: Identity)
    requires UniqueRows(rows) && Holds(rows, t.id, t.identity)
    ensures UniqueRows(Overwritten(rows, t))
    ensures forall i :: 0 <= i < |rows| ==>
      Overwritten(rows, t)[i].id == rows[i].id && Overwritten(rows, t)[i].identity == rows[i].identity
    ensures Holds(Overwritten(rows, t), id, identity) <==> Holds(rows, id, identity)
  {
    var after := Overwritten(rows, t);
    var k :| 0 <= k < |rows| && rows[k].id == t.id && rows[k].identity == t.identity;
    assert forall i :: 0 <= i < |rows| ==> after[i].id == rows[i].id && after[i].identity == rows[i].identity by {
      forall i | 0 <= i < |rows| ensures after[i].id == rows[i].id && after[i].identity == rows[i].identity {
        assert i < k || k < i || i == k;
      }
    }
  }

  lemma {:induction false} FindInExtended(rows: seq<Transaction>, t: Transaction, code: string)
    ensures FindByCode(rows + [t], code)
         == if FindByCode(rows, code).Some? then FindByCode(rows, code)
            else if t.identity.authenticationCode == code then Some(t) else None
  {
    if rows == [] {
      assert rows + [t] == [t];
    } else {
      FindInExtended(rows[1..], t, code);
      assert (rows + [t])[1..] == rows[1..] + [t];
    }
  }

  lemma FoundAtIndex(rows: seq<Transaction>, k: nat, code: string)
    requires UniqueRows(rows) && k < |rows| && rows[k].identity.authenticationCode == code
    ensures FindByCode(rows, code) == Some(rows[k])
  {
    assert rows[k] in rows;
    var found := FindByCode(rows, code);
    var j :| 0 <= j < |rows| && rows[j] == found.value;
    assert j < k || k < j || j == k;
  }

  lemma OtherRowsStay(rows: seq<Transaction>, t: Transaction, j: nat)
    requires UniqueRows(rows) && Holds(rows, t.id, t.identity)
    requires j < |rows| && rows[j].identity.authenticationCode != t.identity.authenticationCode
    ensures Overwritten(rows, t)[j] == rows[j]
  {
    var k :| 0 <= k < |rows| && rows[k].id == t.id && rows[k].identity == t.identity;
    assert j < k || k < j;
  }

  lemma AbsentCodeStaysAbsent(rows: seq<Transaction>, t: Transaction, code: string)
    requires UniqueRows(rows) && Holds(rows, t.id, t.identity) && FindByCode(rows, code).None?
    ensures FindByCode(Overwritten(rows, t), code).None?
  {
    var after := Overwritten(rows, t);
    OverwritingKeepsIdentities(rows, t, t.id, t.identity);
    forall j | 0 <= j < |after| ensures after[j].identity.authenticationCode != code {
      assert rows[j] in rows;
    }
  }

  lemma FindInOverwritten(rows: seq<Transaction>, t: Transaction, code: string)
    requires UniqueRows(rows) && Holds(rows, t.id, t.identity)
    ensures FindByCode(Overwritten(rows, t), code)
         == if t.identity.authenticationCode == code then Some(t) else FindByCode(rows, code)
  {
    var after := Overwritten(rows, t);
    OverwritingKeepsIdentities(rows, t, t.id, t.identity);
    if t.identity.authenticationCode == code {
      var k :| 0 <= k < |rows| && rows[k].id == t.id && rows[k].identity == t.identity;
      FoundAtIndex(after, k, code);
    } else if FindByCode(rows, code).Some? {
      var j :| 0 <= j < |rows| && rows[j] == FindByCode(rows, code).value;
      OtherRowsStay(rows, t, j);
      FoundAtIndex(after, j, code);
    } else {
      AbsentCodeStaysAbsent(rows, t, code);
    }
  }
}
