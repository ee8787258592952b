/** Statuses of payments, how provider reports are read, and how they map to ledger statuses. */
module PaymentStatuses {
  import opened Strings
  import opened Transactions
  import opened Wrappers

  datatype PixStatus = PixCreated | PixInProcess | PixApproved | PixReproved | PixDone | PixUndone | PixCanceled

  datatype TedStatus =
    | TedCreated
    | TedInProcess
    | TedApproved
    | TedReproved
    | TedDone
    | TedUndone
    | TedCanceled
    | TedFailed

  datatype BillStatus = BillCreated | BillCompleted | BillConfirmed | BillCancelled

  function PixLedgerStatus(status: PixStatus): TransactionStatus {
    match status
    case PixCreated => PENDING
    case PixInProcess => IN_PROCESS
    case PixApproved => IN_PROCESS
    case PixDone => DONE
    case PixCanceled => CANCELED
    case PixUndone => UNDONE
    case PixReproved => REPROVED
  }

  function TedLedgerStatus(status: TedStatus): TransactionStatus {
    match status
    case TedCreated => PENDING
    case TedInProcess => IN_PROCESS
    case TedApproved => IN_PROCESS
    case TedDone => DONE
    case TedUndone => UNDONE
    case TedCanceled => CANCELED
    case TedFailed => FAILED
    case TedReproved => REPROVED
  }

  function BillLedgerStatus(status: BillStatus): TransactionStatus {
    match status
    case BillCreated => PENDING
    case BillCompleted => DONE
    case BillConfirmed => DONE
    case BillCancelled => CANCELED
  }

  /** The status in the answer to a PIX transfer request; anything else counts as created. */
  function PixAnswerStatus(status: string): PixStatus {
    match status
    case "IN_PROCESS" => PixInProcess
    case "APPROVED" => PixApproved
    case "REPROVED" => PixReproved
    case "DONE" => PixDone
    case "UNDONE" => PixUndone
    case "CANCELED" => PixCanceled
    case _ => PixCreated
  }

  /** A later status report on a PIX transfer; reports that are not recognised say nothing. */
  function PixReport(report: string): Option<PixStatus> {
    match Upper(report)
    case "DONE" => Some(PixDone)
    case "CREATED" => Some(PixCreated)
    case "WAITING" => Some(PixCreated)
    case "CANCELED" => Some(PixCanceled)
    case "UNDONE" => Some(PixUndone)
    case "REPROVED" => Some(PixReproved)
    case "CHECKING" => Some(PixInProcess)
    case "IN_PROCESS" => Some(PixInProcess)
    case _ => None
  }

  function TedReport(report: string): Option<TedStatus> {
    match Upper(report)
    case "DONE" => Some(TedDone)
    case "APPROVED" => Some(TedDone)
    case "CREATED" => Some(TedCreated)
    case "WAITING" => Some(TedCreated)
    case "FAILED" => Some(TedFailed)
    case "ERROR" => Some(TedFailed)
    case "CANCELED" => Some(TedCanceled)
    case "REFUSED" => Some(TedCanceled)
    case _ => None
  }

  /** A status report on a bill payment; anything else counts as created. */
  function BillReport(report: string): BillStatus {
    match report
    case "Completed" => BillCompleted
    case "Confirmed" => BillConfirmed
    case "Cancelled" => BillCancelled
    case _ => BillCreated
  }

  // ----- the tables, entry by entry -----

  lemma PixLedgerTable()
    ensures PixLedgerStatus(PixCreated) == PENDING && PixLedgerStatus(PixInProcess) == IN_PROCESS
    ensures PixLedgerStatus(PixApproved) == IN_PROCESS && PixLedgerStatus(PixDone) == DONE
    ensures PixLedgerStatus(PixCanceled) == CANCELED && PixLedgerStatus(PixUndone) == UNDONE
    ensures PixLedgerStatus(PixReproved) == REPROVED
  {
  }

  lemma TedLedgerTable()
    ensures TedLedgerStatus(TedCreated) == PENDING && TedLedgerStatus(TedInProcess) == IN_PROCESS
    ensures TedLedgerStatus(TedApproved) == IN_PROCESS && TedLedgerStatus(TedDone) == DONE
    ensures TedLedgerStatus(TedCanceled) == CANCELED && TedLedgerStatus(TedUndone) == UNDONE
    ensures TedLedgerStatus(TedFailed) == FAILED && TedLedgerStatus(TedReproved) == REPROVED
  {
  }

  lemma BillLedgerTable()
    ensures BillLedgerStatus(BillCreated) == PENDING && BillLedgerStatus(BillCancelled) == CANCELED
    ensures BillLedgerStatus(BillCompleted) == DONE && BillLedgerStatus(BillConfirmed) == DONE
  {
  }

  /** Which reports give a PIX transfer which status, in any case; the rest say nothing. */
  lemma PixReportTable(report: string)
    ensures PixReport(report) == Some(PixDone) <==> Upper(report) == "DONE"
    ensures PixReport(report) == Some(PixCreated) <==> Upper(report) == "CREATED" || Upper(report) == "WAITING"
    ensures PixReport(report) == Some(PixCanceled) <==> Upper(report) == "CANCELED"
    ensures PixReport(report) == Some(PixUndone) <==> Upper(report) == "UNDONE"
    ensures PixReport(report) == Some(PixReproved) <==> Upper(report) == "REPROVED"
    ensures PixReport(report) == Some(PixInProcess) <==> Upper(report) == "CHECKING" || Upper(report) == "IN_PROCESS"
    ensures PixReport(report) != Some(PixApproved)
  {
  }

  lemma TedReportTable(report: string)
    ensures TedReport(report) == Some(TedDone) <==> Upper(report) == "DONE" || Upper(report) == "APPROVED"
    ensures TedReport(report) == Some(TedCreated) <==> Upper(report) == "CREATED" || Upper(report) == "WAITING"
    ensures TedReport(report) == Some(TedFailed) <==> Upper(report) == "FAILED" || Upper(report) == "ERROR"
    ensures TedReport(report) == Some(TedCanceled) <==> Upper(report) == "CANCELED" || Upper(report) == "REFUSED"
    ensures TedReport(report) !in {Some(TedApproved), Some(TedInProcess), Some(TedReproved), Some(TedUndone)}
  {
  }

  /** The answer to a transfer request is read case by case; what is not listed counts as created. */
  lemma PixAnswerTable(status: string)
    ensures PixAnswerStatus(status) == PixInProcess <==> status == "IN_PROCESS"
    ensures PixAnswerStatus(status) == PixApproved <==> status == "APPROVED"
    ensures PixAnswerStatus(status) == PixReproved <==> status == "REPROVED"
    ensures PixAnswerStatus(status) == PixDone <==> status == "DONE"
    ensures PixAnswerStatus(status) == PixUndone <==> status == "UNDONE"
    ensures PixAnswerStatus(status) == PixCanceled <==> status == "CANCELED"
  {
  }
}
