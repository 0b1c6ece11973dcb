/**
 A sales invoice's balance (app/repository/invoice_balance.go): what applying and
 reversing an amount does to one row, and the three payment-status switches.
 */
module InvoiceBalance {
  import opened Results
  import opened Money
  import opened Sums
  import opened LineCalc
  import opened Documents

  datatype Status = Draft | Confirmed | Cancelled

  datatype PaymentStatus = Unpaid | PartiallyPaid | Paid

  /** `document` is the stored form of the lines; `deleted` marks a soft-deleted row. */
  datatype Invoice = Invoice(
    mitra: Id, downPayment: bool, document: Document, grandTotal: Cents,
    status: Status, paid: Cents, paymentStatus: PaymentStatus, deleted: bool)

  datatype Refusal =
    | NotFound
    | DuplicateKey
    | InvalidInput
    | BadDocument(fault: Fault)
    | InvoiceNotFound
    | WrongPartner
    | NotConfirmed
    | ExceedsBalance(remaining: Cents)
    | InvoiceTwice
    | InvalidTransition
    | InUse
    | RowMissing

  /** The rule shared by reverse and refresh. */
  function StatusOf(paid: Cents, total: Cents): PaymentStatus {
    if paid >= total && total > 0 then Paid else if paid > 0 then PartiallyPaid else Unpaid
  }

  /** The rule apply uses: it does not ask for a positive total. */
  function StatusAfterApply(paid: Cents, total: Cents): PaymentStatus {
    if paid >= total then Paid else if paid > 0 then PartiallyPaid else Unpaid
  }

  function Remaining(inv: Invoice): Cents {
    inv.grandTotal - inv.paid
  }

  /** Why an amount can't be applied to an invoice, if it can't. */
  function ApplyRefusal(invoices: map<Id, Invoice>, id: Id, amount: real): Option<Refusal> {
    if id !in invoices || invoices[id].deleted || invoices[id].status != Confirmed then Some(NotConfirmed)
    else if amount > Units(Remaining(invoices[id])) then Some(ExceedsBalance(Remaining(invoices[id])))
    else None
  }

  function Credited(inv: Invoice, amount: real): Invoice {
    var paid := ToCents(Units(inv.paid) + amount);
    inv.(paid := paid, paymentStatus := StatusAfterApply(paid, inv.grandTotal))
  }

  function Debited(inv: Invoice, amount: Cents): Invoice {
    var paid := if inv.paid - amount < 0 then 0 else inv.paid - amount;
    inv.(paid := paid, paymentStatus := StatusOf(paid, inv.grandTotal))
  }

  function Refreshed(inv: Invoice): Invoice {
    inv.(paymentStatus := StatusOf(inv.paid, inv.grandTotal))
  }

  /** outstandingOf: what is still owed, rounded to cents by truncation after adding a half. */
  function OutstandingOf(total: Cents, paid: Cents): Cents {
    var v := Units(total) - Units(paid);
    if v > 0.0 then (v * 100.0 + 0.5).Floor else 0
  }

  lemma OutstandingIsWhatIsOwed(total: Cents, paid: Cents)
    ensures OutstandingOf(total, paid) == if total > paid then total - paid else 0
  {
    if total > paid {
      assert (Units(total) - Units(paid)) * 100.0 == (total - paid) as real;
      FloorOf((total - paid) as real + 0.5, total - paid);
    }
  }

  /** An accepted amount moves the balance by its stored value and never past the total. */
  lemma AcceptedAmountFits(invoices: map<Id, Invoice>, id: Id, amount: real)
    requires ApplyRefusal(invoices, id, amount).None?
    requires 0 <= invoices[id].paid && 0.0 <= amount
    ensures Credited(invoices[id], amount).paid == invoices[id].paid + ToCents(amount)
    ensures 0 <= ToCents(amount) && Credited(invoices[id], amount).paid <= invoices[id].grandTotal
  {
    AddingToStored(invoices[id].paid, amount);
    StoredFits(amount, Remaining(invoices[id]));
    NonNegativeCents(amount);
  }

  /**
   Apply's own switch gives the same status as reverse and refresh exactly on
   invoices with a positive total. On a zero total only a zero amount is accepted,
   and apply then calls the invoice paid where the other two call it unpaid.
   */
  lemma ApplyStatusIsCanonicalExactlyWhen(invoices: map<Id, Invoice>, id: Id, amount: real)
    requires ApplyRefusal(invoices, id, amount).None?
    requires 0 <= invoices[id].paid && 0 <= invoices[id].grandTotal && 0.0 <= amount
    ensures var after := Credited(invoices[id], amount);
            after.paymentStatus == StatusOf(after.paid, after.grandTotal) <==> invoices[id].grandTotal > 0
    ensures invoices[id].grandTotal == 0 ==>
              Credited(invoices[id], amount) == invoices[id].(paymentStatus := Paid) && invoices[id].paid == 0
  {
    AcceptedAmountFits(invoices, id, amount);
  }

  /** Reversing what was just applied restores the row. */
  lemma ReverseUndoesApply(invoices: map<Id, Invoice>, id: Id, amount: real)
    requires ApplyRefusal(invoices, id, amount).None?
    requires 0 <= invoices[id].paid && 0.0 <= amount
    requires invoices[id].paymentStatus == StatusOf(invoices[id].paid, invoices[id].grandTotal)
    ensures Debited(Credited(invoices[id], amount), ToCents(amount)) == invoices[id]
  {
    AcceptedAmountFits(invoices, id, amount);
  }
}
