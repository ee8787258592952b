/** The boleto service and its sync helper, as they update boleto rows and the ledger. */
module BoletoServices {
  import opened BoletoLedger
  import opened LedgerIdentity
  import opened Transactions
  import opened Wrappers

  datatype BoletoError = NotFound | AccessDenied | InvalidSession | CannotBeCancelled | ProviderFailed

  /** The boleto with this id, if it is the owner's. */
  function FoundById(boletos: seq<Boleto>, id: string, owner: Owner): (r: Result<nat, BoletoError>)
    ensures r.Ok? ==> r.value < |boletos|
  {
    var at := FindBoleto(boletos, WithId(id));
    if at == |boletos| then Err(NotFound) else if !Owns(owner, boletos[at]) then Err(AccessDenied) else Ok(at)
  }

  class BoletoService {
    var boletos: seq<Boleto>
    const transactions: TransactionService

    ghost function Abstract(): World
      reads this, transactions
    {
      World(boletos, transactions.rows, transactions.nextId)
    }

    constructor ()
      ensures fresh(transactions) && transactions.Valid() && Abstract() == BoletoLedger.EMPTY_WORLD
    {
      boletos := [];
      transactions := new TransactionService();
    }

    /** Dates that do not pass validation count as a refusal: nothing is stored. */
    method CreateBoleto(id: string, provider: string, session: Session, amount: int, emission: Emission)
      returns (r: Result<string, BoletoError>)
      modifies this
      ensures Abstract() == BoletoLedger.Next(old(Abstract()), Emit(id, provider, session, amount, emission))
      ensures r == if emission.Emitted? then Ok(id) else Err(ProviderFailed)
    {
      match emission
      case Refused => return Err(ProviderFailed);
      case Emitted(status, authenticationCode, barcode, digitable) =>
        var boleto := Boleto(id, ParseBoletoStatus(status), authenticationCode, barcode, digitable, "", provider,
                             session.clientId, session.accountId, amount, NoPayments);
        boletos := boletos + [boleto];
        return Ok(id);
    }

    method FindById(id: string, owner: Owner) returns (r: Result<nat, BoletoError>)
      ensures r == FoundById(boletos, id, owner)
      ensures r.Ok? ==> r.value < |boletos| && boletos[r.value].id == id && Owns(owner, boletos[r.value])
    {
      var at := FindBoleto(boletos, WithId(id));
      if at == |boletos| {
        return Err(NotFound);
      }
      if boletos[at].clientId != owner.clientId || boletos[at].accountId != owner.accountId {
        return Err(AccessDenied);
      }
      return Ok(at);
    }

    method UpdateBoleto(id: string, owner: Owner, dto: Edit) returns (r: Result<(), BoletoError>)
      modifies this
      ensures Abstract() == BoletoLedger.Next(old(Abstract()), Amend(id, owner, dto))
      ensures r == if FoundById(old(boletos), id, owner).Ok? then Ok(())
          else Err(FoundById(old(boletos), id, owner).error)
    {
      var found := FindById(id, owner);
      if found.Err? {
        return Err(found.error);
      }
      var boleto := boletos[found.value];
      if dto.status.Some? {
        boleto := boleto.(status := dto.status.value);
      }
      if dto.authenticationCode != "" {
        boleto := boleto.(authenticationCode := dto.authenticationCode);
      }
      if dto.barcode != "" {
        boleto := boleto.(barcode := dto.barcode);
      }
      if dto.digitable != "" {
        boleto := boleto.(digitable := dto.digitable);
      }
      boletos := boletos[found.value := boleto];
      return Ok(());
    }

    /** Fields the provider mentions are collected one by one and written together. */
    method SyncBoletoWithProvider(id: string, response: Option<BoletoData>)
      requires transactions.Valid()
      modifies this, transactions
      ensures transactions.Valid()
      ensures Abstract() == BoletoLedger.Next(old(Abstract()), Sync(id, response))
    {
      var at := FindBoleto(boletos, WithId(id));
      if at == |boletos| || boletos[at].providerSlug != HIPERBANCO || boletos[at].authenticationCode == "" {
        return;
      }
      if response.None? {
        return;
      }
      var data := response.value;
      var updated := boletos[at];
      var status: Option<BoletoStatus> := None;
      if data.barcode.Some? {
        updated := updated.(barcode := data.barcode.value);
      }
      if data.digitable.Some? {
        updated := updated.(digitable := data.digitable.value);
      }
      if data.status != "" {
        status := Some(ParseBoletoStatus(data.status));
        updated := updated.(status := status.value);
      }
      if data.ourNumber.Some? {
        updated := updated.(ourNumber := data.ourNumber.value);
      }
      if data.payments.Some? {
        updated := updated.(payments := data.payments.value);
      }
      assert updated == Synced(boletos[at], data);
      boletos := boletos[at := updated];
      if status == Some(Paid) && updated.authenticationCode != "" {
        CreateTransactionForBoleto(updated);
      }
    }

    method CreateTransactionForBoleto(boleto: Boleto)
      requires transactions.Valid()
      modifies transactions
      ensures transactions.Valid()
      ensures Abstract() == if FindByCode(old(transactions.rows), boleto.authenticationCode).Some? then old(Abstract())
                            else Called(old(Abstract()), Create(CashInRow(boleto)))
    {
      var existing := transactions.FindByAuthenticationCode(boleto.authenticationCode);
      if existing.None? {
        var created := transactions.CreateFromWebhook(CashInRow(boleto));
      }
    }

    /** The checks in order: the session's account, the boleto and its owner, the provider, the status. */
    method CancelBoleto(id: string, session: Session, accepted: bool) returns (r: Result<(), BoletoError>)
      modifies this
      ensures Abstract() == BoletoLedger.Next(old(Abstract()), Cancel(id, session, accepted))
      ensures r.Err? ==> boletos == old(boletos)
      ensures r.Ok? ==> |boletos| == |old(boletos)| && exists i ::
        0 <= i < |boletos| && boletos[i].id == id && boletos[i] == old(boletos)[i].(status := Cancelled)
      ensures r == var found := FoundById(old(boletos), id, Owner(session.clientId, session.accountId));
                   if session.accountId == "" then Err(InvalidSession)
                   else if found.Err? then Err(found.error)
                   else if session.providerSlug != old(boletos)[found.value].providerSlug then Err(InvalidSession)
                   else if !Cancellable(old(boletos)[found.value], session) then Err(CannotBeCancelled)
                   else if !accepted then Err(ProviderFailed)
                   else Ok(())
    {
      if session.accountId == "" {
        return Err(InvalidSession);
      }
      var found := FindById(id, Owner(session.clientId, session.accountId));
      if found.Err? {
        return Err(found.error);
      }
      var boleto := boletos[found.value];
      if session.providerSlug != boleto.providerSlug {
        return Err(InvalidSession);
      }
      if boleto.status in {Paid, Cancelled} {
        return Err(CannotBeCancelled);
      }
      if !accepted {
        return Err(ProviderFailed);
      }
      boletos := boletos[found.value := boleto.(status := Cancelled)];
      return Ok(());
    }

    method ProcessWebhookUpdate(payload: Webhook) returns (r: Option<Boleto>)
      modifies this
      ensures Abstract() == BoletoLedger.Next(old(Abstract()), Receive(payload))
      ensures r.Some? <==> Addressee(old(boletos), payload) < |old(boletos)|
    {
      var at := |boletos|;
      if payload.authenticationCode != "" {
        at := FindBoleto(boletos, WithCode(payload.authenticationCode));
      } else if payload.barcode != "" {
        at := FindBoleto(boletos, WithBarcode(payload.barcode));
      } else if payload.digitable != "" {
        at := FindBoleto(boletos, WithDigitable(payload.digitable));
      }
      if at >= |boletos| {
        return None;
      }
      var boleto := boletos[at];
      if payload.status != "" {
        boleto := boleto.(status := ParseBoletoStatus(payload.status));
      }
      if payload.authenticationCode != "" {
        boleto := boleto.(authenticationCode := payload.authenticationCode);
      }
      if payload.barcode != "" {
        boleto := boleto.(barcode := payload.barcode);
      }
      if payload.digitable != "" {
        boleto := boleto.(digitable := payload.digitable);
      }
      boletos := boletos[at := boleto];
      return Some(boleto);
    }
  }
}
