/** A bill payment row and what a provider's detail report does to it, field by field. */
module BillPayments {
  import opened Strings
  import opened Wrappers

  datatype Recipient = Recipient(name: Option<string>, documentNumber: Option<string>)

  const NOBODY := Recipient(None, None)

  /** Amounts in cents. */
  datatype Money = Money(amount: int, originalAmount: int, interest: Option<int>, fine: Option<int>,
                         discount: Option<int>)

  datatype Parties = Parties(assignor: string, recipient: Option<Recipient>, digitable: string)

  datatype Dates = Dates(paymentDate: Option<nat>, confirmedAt: Option<nat>, settleDate: Option<nat>,
                         dueDate: Option<nat>)

  datatype BillDetails = BillDetails(money: Money, parties: Parties, dates: Dates)

  datatype Charges = Charges(interest: Option<int>, fine: Option<int>, discount: Option<int>)

  /** A date in a report: missing, unreadable (reading it throws), or an instant. */
  datatype DateField = NoDate | BadDate | Date(instant: nat)

  /** A detail report; an empty string stands for a missing text. */
  datatype Detail = Detail(
    status: string,
    amount: Option<int>,
    originalAmount: Option<int>,
    charges: Option<Charges>,
    assignor: string,
    recipientName: string,
    recipientDocument: string,
    digitable: string,
    paymentDate: DateField,
    confirmedAt: DateField,
    settleDate: DateField,
    dueDate: DateField)

  function SanitizedDocument(document: string): Option<string> {
    if Digits(document) == "" then None else Some(Digits(document))
  }

  predicate Readable(d: Detail) {
    !d.paymentDate.BadDate? && !d.confirmedAt.BadDate? && !d.settleDate.BadDate? && !d.dueDate.BadDate?
  }

  function Taken(date: DateField, current: Option<nat>): Option<nat> {
    if date.Date? then Some(date.instant) else current
  }

  function ReportedRecipient(recipient: Option<Recipient>, d: Detail): Option<Recipient> {
    if d.recipientName == "" && d.recipientDocument == "" then recipient
    else
      var r := if recipient.Some? then recipient.value else NOBODY;
      Some(Recipient(
        if d.recipientName != "" then Some(d.recipientName) else r.name,
        if d.recipientDocument != "" then SanitizedDocument(d.recipientDocument) else r.documentNumber))
  }

  /** The details with every field the report mentions. */
  function Reported(p: BillDetails, d: Detail): BillDetails {
    BillDetails(ReportedMoney(p.money, d), ReportedParties(p.parties, d), ReportedDates(p.dates, d))
  }

  function ReportedMoney(m: Money, d: Detail): Money {
    Money(
      if d.amount.Some? then d.amount.value else m.amount,
      if d.originalAmount.Some? then d.originalAmount.value else m.originalAmount,
      if d.charges.Some? then d.charges.value.interest else m.interest,
      if d.charges.Some? then d.charges.value.fine else m.fine,
      if d.charges.Some? then d.charges.value.discount else m.discount)
  }

  function ReportedParties(p: Parties, d: Detail): Parties {
    Parties(
      if d.assignor != "" then d.assignor else p.assignor,
      ReportedRecipient(p.recipient, d),
      if d.digitable != "" then d.digitable else p.digitable)
  }

  function ReportedDates(t: Dates, d: Detail): Dates {
    Dates(Taken(d.paymentDate, t.paymentDate), Taken(d.confirmedAt, t.confirmedAt), Taken(d.settleDate, t.settleDate),
          Taken(d.dueDate, t.dueDate))
  }

  /**
   Whether the flag is raised for a change. A document without digits gives a payment without recipient
   an empty one, and that alone goes unnoticed.
   */
  predicate Noticed(p: BillDetails, q: BillDetails) {
    p != q && !(p.parties.recipient == None && q == p.(parties := p.parties.(recipient := Some(NOBODY))))
  }

  method ApplyMoney(m: Money, d: Detail) returns (r: Money, hasUpdates: bool)
    ensures r == ReportedMoney(m, d) && (hasUpdates <==> r != m)
  {
    r, hasUpdates := m, false;
    if d.amount.Some? && r.amount != d.amount.value {
      r, hasUpdates := r.(amount := d.amount.value), true;
    }
    if d.originalAmount.Some? && r.originalAmount != d.originalAmount.value {
      r, hasUpdates := r.(originalAmount := d.originalAmount.value), true;
    }
    if d.charges.Some? {
      if r.interest != d.charges.value.interest {
        r, hasUpdates := r.(interest := d.charges.value.interest), true;
      }
      if r.fine != d.charges.value.fine {
        r, hasUpdates := r.(fine := d.charges.value.fine), true;
      }
      if r.discount != d.charges.value.discount {
        r, hasUpdates := r.(discount := d.charges.value.discount), true;
      }
    }
  }

  method ApplyParties(p: Parties, d: Detail) returns (r: Parties, hasUpdates: bool)
    ensures r == ReportedParties(p, d)
    ensures hasUpdates <==> r != p && !(p.recipient == None && r == p.(recipient := Some(NOBODY)))
  {
    r, hasUpdates := p, false;
    if d.assignor != "" && r.assignor != d.assignor {
      r, hasUpdates := r.(assignor := d.assignor), true;
    }
    if d.recipientName != "" || d.recipientDocument != "" {
      var recipient := if r.recipient.Some? then r.recipient.value else NOBODY;
      if d.recipientName != "" && recipient.name != Some(d.recipientName) {
        recipient, hasUpdates := recipient.(name := Some(d.recipientName)), true;
      }
      if d.recipientDocument != "" {
        var sanitizedDoc := SanitizedDocument(d.recipientDocument);
        if recipient.documentNumber != sanitizedDoc {
          recipient, hasUpdates := recipient.(documentNumber := sanitizedDoc), true;
        }
      }
      r := r.(recipient := Some(recipient));
    }
    if d.digitable != "" && r.digitable != d.digitable {
      r, hasUpdates := r.(digitable := d.digitable), true;
    }
  }

  method ApplyDates(t: Dates, d: Detail) returns (r: Option<Dates>, hasUpdates: bool)
    ensures r == if Readable(d) then Some(ReportedDates(t, d)) else None
    ensures r.Some? ==> (hasUpdates <==> r.value != t)
  {
    var dates := t;
    hasUpdates := false;
    if d.paymentDate.BadDate? {
      return None, hasUpdates;
    }
    if d.paymentDate.Date? && dates.paymentDate != Some(d.paymentDate.instant) {
      dates, hasUpdates := dates.(paymentDate := Some(d.paymentDate.instant)), true;
    }
    if d.confirmedAt.BadDate? {
      return None, hasUpdates;
    }
    if d.confirmedAt.Date? && dates.confirmedAt != Some(d.confirmedAt.instant) {
      dates, hasUpdates := dates.(confirmedAt := Some(d.confirmedAt.instant)), true;
    }
    if d.settleDate.BadDate? {
      return None, hasUpdates;
    }
    if d.settleDate.Date? && dates.settleDate != Some(d.settleDate.instant) {
      dates, hasUpdates := dates.(settleDate := Some(d.settleDate.instant)), true;
    }
    if d.dueDate.BadDate? {
      return None, hasUpdates;
    }
    if d.dueDate.Date? && dates.dueDate != Some(d.dueDate.instant) {
      dates, hasUpdates := dates.(dueDate := Some(d.dueDate.instant)), true;
    }
    return Some(dates), hasUpdates;
  }

  /**
   The field-by-field update under a hasUpdates flag: the details it builds are the reported ones, and the
   flag is raised exactly when they differ by more than an empty recipient. An unreadable date stops it.
   */
  method ApplyDetail(p: BillDetails, d: Detail) returns (r: Option<BillDetails>, hasUpdates: bool)
    ensures r == if Readable(d) then Some(Reported(p, d)) else None
    ensures r.Some? ==> (hasUpdates <==> Noticed(p, Reported(p, d)))
  {
    var money, moneyChanged := ApplyMoney(p.money, d);
    var parties, partiesChanged := ApplyParties(p.parties, d);
    var dates, datesChanged := ApplyDates(p.dates, d);
    if dates.None? {
      return None, false;
    }
    hasUpdates := moneyChanged || partiesChanged || datesChanged;
    r := Some(BillDetails(money, parties, dates.value));
  }

  /** Once a report has been applied, applying it again is not noticed. */
  lemma ReportedTwice(p: BillDetails, d: Detail)
    ensures Reported(Reported(p, d), d) == Reported(p, d)
    ensures !Noticed(Reported(p, d), Reported(Reported(p, d), d))
  {
    var once := Reported(p, d);
    assert ReportedMoney(once.money, d) == once.money;
    assert ReportedParties(once.parties, d) == once.parties;
    assert ReportedDates(once.dates, d) == once.dates;
  }

  function ChargesOf(p: BillDetails): Charges {
    Charges(p.money.interest, p.money.fine, p.money.discount)
  }

  /** A reported amount or text replaces the payment's own; a missing one leaves it. Charges come together. */
  lemma ReportedAmountsAndTexts(p: BillDetails, d: Detail)
    ensures var q := Reported(p, d);
      && (if d.amount.Some? then q.money.amount == d.amount.value else q.money.amount == p.money.amount)
      && (if d.originalAmount.Some? then q.money.originalAmount == d.originalAmount.value
          else q.money.originalAmount == p.money.originalAmount)
      && (d.charges.Some? ==> ChargesOf(q) == d.charges.value)
      && (d.charges.None? ==> ChargesOf(q) == ChargesOf(p))
      && (if d.assignor != "" then q.parties.assignor == d.assignor else q.parties.assignor == p.parties.assignor)
      && (if d.digitable != "" then q.parties.digitable == d.digitable else q.parties.digitable == p.parties.digitable)
  {
  }

  lemma ReportedDatesOneByOne(p: BillDetails, d: Detail)
    ensures var q, t := Reported(p, d).dates, p.dates;
      && (if d.paymentDate.Date? then q.paymentDate == Some(d.paymentDate.instant) else q.paymentDate == t.paymentDate)
      && (if d.confirmedAt.Date? then q.confirmedAt == Some(d.confirmedAt.instant) else q.confirmedAt == t.confirmedAt)
      && (if d.settleDate.Date? then q.settleDate == Some(d.settleDate.instant) else q.settleDate == t.settleDate)
      && (if d.dueDate.Date? then q.dueDate == Some(d.dueDate.instant) else q.dueDate == t.dueDate)
  {
  }

  /**
   A reported name or document makes a recipient if there is none; a document is kept by its digits, if it
   has any.
   */
  lemma ReportedRecipientIs(p: BillDetails, d: Detail)
    ensures var before, after := p.parties.recipient, Reported(p, d).parties.recipient;
      && (d.recipientName == "" && d.recipientDocument == "" ==> after == before)
      && (d.recipientName != "" ==> after.Some? && after.value.name == Some(d.recipientName))
      && (d.recipientName == "" && d.recipientDocument != "" ==>
            after.Some? && after.value.name == if before.Some? then before.value.name else None)
      && (d.recipientDocument != "" ==>
            var digits := Digits(d.recipientDocument);
            after.Some? && after.value.documentNumber == if digits != "" then Some(digits) else None)
      && (d.recipientName != "" && d.recipientDocument == "" ==>
            after.Some? && after.value.documentNumber == if before.Some? then before.value.documentNumber else None)
  {
  }
}
