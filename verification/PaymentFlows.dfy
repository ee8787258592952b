/** The create and sync flows of PIX transfers, TED transfers and bill payments, as they update their rows. */
module PaymentFlows {
  import opened BillPayments
  import opened LedgerIdentity
  import opened LedgerMirror
  import opened PaymentStatuses
  import opened Transactions
  import opened Wrappers

  class Flows {
    var payments: map<string, Payment>
    const transactions: TransactionService

    ghost function Abstract(): World
      reads this, transactions
    {
      World(payments, transactions.rows, transactions.nextId)
    }

    constructor ()
      ensures fresh(transactions) && transactions.Valid() && Abstract() == EMPTY_WORLD
    {
      payments := map[];
      transactions := new TransactionService();
    }

    method CreateRow(id: string, payment: Payment, note: Note)
      requires transactions.Valid()
      modifies transactions
      ensures transactions.Valid()
      ensures Abstract() == Called(old(Abstract()), Create(RowFor(id, payment, note)))
    {
      var created := transactions.CreateFromWebhook(RowFor(id, payment, note));
    }

    method CreateTransactionForTransfer(id: string, transfer: Payment, note: Note)
      requires transactions.Valid()
      modifies transactions
      ensures transactions.Valid()
      ensures Abstract()
           == if FindByCode(old(transactions.rows), transfer.authenticationCode).Some? then old(Abstract())
                            else Called(old(Abstract()), Create(RowFor(id, transfer, note)))
    {
      var existing := transactions.FindByAuthenticationCode(transfer.authenticationCode);
      if existing.None? {
        CreateRow(id, transfer, note);
      }
    }

    /** The row is saved before the provider is asked, and saved again with what it answered. */
    method TransferPix(id: string, request: Request, senderAccount: string, answer: PixAnswer)
      requires transactions.Valid()
      modifies this, transactions
      ensures transactions.Valid()
      ensures Abstract() == LedgerMirror.Next(old(Abstract()), CreatePix(id, request, senderAccount, answer))
    {
      ghost var before := payments;
      payments := payments[id := Pix("", request.owner, request.amount, PixCreated, senderAccount)];
      match answer
      case PixRefused =>
        payments := payments[id := Pix("", request.owner, request.amount, PixReproved, senderAccount)];
        assert payments == before[id := payments[id]];
      case PixBroken(code) =>
        payments := payments[id := Pix(code, request.owner, request.amount, PixReproved, senderAccount)];
        assert payments == before[id := payments[id]];
      case PixAccepted(code, status, correlationId, requestedAt) =>
        var transfer := Pix(code, request.owner, request.amount, PixAnswerStatus(status), senderAccount);
        payments := payments[id := transfer];
        assert payments == before[id := transfer];
        if transfer.authenticationCode != "" {
          CreateTransactionForTransfer(id, transfer, PixNote(request, correlationId, requestedAt));
        }
    }

    method SyncPixTransfer(id: string, response: Option<string>)
      requires transactions.Valid()
      modifies this, transactions
      ensures transactions.Valid()
      ensures Abstract() == LedgerMirror.Next(old(Abstract()), SyncPix(id, response))
    {
      if id !in payments || !payments[id].Pix? || payments[id].authenticationCode == ""
          || payments[id].senderAccount == "" {
        return;
      }
      if response.None? {
        return;
      }
      var transfer := payments[id];
      var newStatus := PixReport(response.value);
      if newStatus.Some? && newStatus.value != transfer.pixStatus {
        payments := payments[id := transfer.(pixStatus := newStatus.value)];
        var updated := transactions.UpdateStatus(transfer.authenticationCode, PixLedgerStatus(newStatus.value));
      }
    }

    method CreateTedTransfer(id: string, request: Request, code: Option<string>)
      requires transactions.Valid()
      modifies this, transactions
      ensures transactions.Valid()
      ensures Abstract() == LedgerMirror.Next(old(Abstract()), CreateTed(id, request, code))
    {
      ghost var before := payments;
      payments := payments[id := Ted("", request.owner, request.amount, TedCreated)];
      if code.None? {
        payments := payments[id := Ted("", request.owner, request.amount, TedFailed)];
        assert payments == before[id := payments[id]];
        return;
      }
      var transfer := Ted(code.value, request.owner, request.amount, TedCreated);
      payments := payments[id := transfer];
      assert payments == before[id := transfer];
      CreateRow(id, transfer, TedNote(request));
    }

    method SyncTedTransfer(id: string, response: Option<string>)
      requires transactions.Valid()
      modifies this, transactions
      ensures transactions.Valid()
      ensures Abstract() == LedgerMirror.Next(old(Abstract()), SyncTed(id, response))
    {
      if id !in payments || !payments[id].Ted? || payments[id].authenticationCode == "" {
        return;
      }
      if response.None? {
        return;
      }
      var transfer := payments[id];
      var newStatus := TedReport(response.value);
      if newStatus.Some? && newStatus.value != transfer.tedStatus {
        payments := payments[id := transfer.(tedStatus := newStatus.value)];
        var updated := transactions.UpdateStatus(transfer.authenticationCode, TedLedgerStatus(newStatus.value));
      }
    }

    /** The settle date is read after the provider has confirmed: one that cannot be read stores nothing. */
    method ConfirmBillPayment(id: string, request: Request, isHiperbanco: bool, answer: BillAnswer)
      requires transactions.Valid()
      modifies this, transactions
      ensures transactions.Valid()
      ensures Abstract() == LedgerMirror.Next(old(Abstract()), ConfirmBill(id, request, isHiperbanco, answer))
    {
      if answer.BillRefused? {
        return;
      }
      var settleDate: Option<nat> := None;
      match answer.settleDate {
        case NoDate =>
        case BadDate => return;
        case Date(instant) => settleDate := Some(instant);
      }
      var money := Money(request.amount, request.amount, None, None, None);
      var details := BillDetails(money, Parties("", None, answer.digitable), Dates(None, None, settleDate, None));
      var payment := Bill(answer.authenticationCode, request.owner, BillCreated, isHiperbanco, details);
      payments := payments[id := payment];
      CreateRow(id, payment, Note(None, None, request.description, settleDate));
    }

    method SyncTransactionForPayment(id: string, payment: Payment)
      requires transactions.Valid() && payment.Bill?
      modifies transactions
      ensures transactions.Valid()
      ensures Abstract() == LedgerSynced(old(Abstract()), id, payment)
    {
      var existing := transactions.FindByAuthenticationCode(payment.authenticationCode);
      if existing.None? {
        CreateRow(id, payment, SyncNote(payment.details));
      } else {
        var updated := transactions.UpdateStatus(payment.authenticationCode, LedgerStatus(payment));
      }
    }

    /**
     After the save, the status is read from the report a second time and compared with the one just
     saved: the two branches together sync the ledger exactly when the report names a status or the
     payment is past its created status.
     */
    method SyncBillPayment(id: string, detail: Option<Detail>)
      requires transactions.Valid()
      modifies this, transactions
      ensures transactions.Valid()
      ensures Abstract() == LedgerMirror.Next(old(Abstract()), SyncBill(id, detail))
    {
      if id !in payments || !payments[id].Bill? || !payments[id].isHiperbanco || payments[id].authenticationCode == "" {
        return;
      }
      if detail.None? {
        return;
      }
      var payment, d := payments[id], detail.value;
      var hasUpdates := false;
      if d.status != "" {
        var newStatus := BillReport(d.status);
        if payment.billStatus != newStatus {
          payment := payment.(billStatus := newStatus);
          hasUpdates := true;
        }
      }
      var details, detailsChanged := ApplyDetail(payment.details, d);
      if details.None? {
        return;
      }
      payment := payment.(details := details.value);
      hasUpdates := hasUpdates || detailsChanged;
      if hasUpdates {
        payments := payments[id := payment];
        var mappedStatus := BillReport(d.status);
        if mappedStatus != payment.billStatus && payment.authenticationCode != "" {
          SyncTransactionForPayment(id, payment);
        } else if payment.authenticationCode != "" && hasUpdates {
          if d.status != "" {
            SyncTransactionForPayment(id, payment);
          }
        }
      }
    }
  }
}
