/**
 The purchase side: bills, the purchase receipts that pay them one bill at a time,
 and the backfill that recomputes every bill's balance from its live receipts.
 */
module PurchaseLedger {
  import opened Results
  import opened Money
  import opened Sums
  import opened LineCalc
  import opened Documents
  import opened InvoiceBalance

  datatype Bill = Bill(
    mitra: Id, document: Document, grandTotal: Cents, status: Status, paid: Cents,
    paymentStatus: PaymentStatus, deleted: bool)

  datatype BillReceipt = BillReceipt(mitra: Id, bill: Option<Id>, amount: Cents, deleted: bool)

  datatype Payables = Payables(bills: map<Id, Bill>, receipts: map<Id, BillReceipt>)

  datatype Command =
    | CreateBill(id: Id, mitra: Id, document: Document, active: Rates)
    | EditBill(id: Id, mitra: Id, document: Document, active: Rates)
    | ConfirmBill(id: Id, active: Rates)
    | RevertBill(id: Id)
    | CancelBill(id: Id)
    | DeleteBill(id: Id)
    | CreateReceipt(id: Id, mitra: Id, bill: Option<Id>, amount: real)
    | UpdateReceipt(id: Id, mitra: Id, bill: Option<Id>, amount: real)
    | DeleteReceipt(id: Id)
    | Backfill

  const NO_PAYABLES: Payables := Payables(map[], map[])

  // --- balances -----------------------------------------------------------------

  function BillRemaining(b: Bill): Cents {
    b.grandTotal - b.paid
  }

  function BillRefusal(bills: map<Id, Bill>, id: Id, mitra: Id, amount: real): Option<Refusal> {
    if id !in bills || bills[id].deleted then Some(InvoiceNotFound)
    else if bills[id].mitra != mitra then Some(WrongPartner)
    else if bills[id].status != Confirmed then Some(NotConfirmed)
    else if amount > Units(BillRemaining(bills[id])) then Some(ExceedsBalance(BillRemaining(bills[id])))
    else None
  }

  function Settled(b: Bill, paid: Cents): Bill {
    b.(paid := paid, paymentStatus := StatusOf(paid, b.grandTotal))
  }

  function Paying(b: Bill, amount: real): Bill {
    Settled(b, ToCents(Units(b.paid) + amount))
  }

  function Refunding(b: Bill, amount: Cents): Bill {
    Settled(b, if b.paid - amount < 0 then 0 else b.paid - amount)
  }

  /** Gives a receipt's amount back to its bill; a bill that is gone is left out. */
  function Refunded(bills: map<Id, Bill>, r: BillReceipt): map<Id, Bill> {
    if r.bill.Some? && r.bill.value in bills
    then bills[r.bill.value := Refunding(bills[r.bill.value], r.amount)]
    else bills
  }

  // --- the calls ----------------------------------------------------------------

  predicate LiveBill(l: Payables, id: Id) {
    id in l.bills && !l.bills[id].deleted
  }

  predicate LiveRow(l: Payables, id: Id) {
    id in l.receipts && !l.receipts[id].deleted
  }

  predicate Pays(r: BillReceipt, bill: Id) {
    !r.deleted && r.bill == Some(bill)
  }

  predicate NoReceipts(receipts: map<Id, BillReceipt>, bill: Id) {
    forall r :: r in receipts ==> !Pays(receipts[r], bill)
  }

  function PutBill(l: Payables, id: Id, b: Bill): Payables {
    l.(bills := l.bills[id := b])
  }

  function DoCreateBill(l: Payables, id: Id, mitra: Id, doc: Document, active: Rates): Result<Payables, Refusal> {
    match DocumentCalc(doc, active)
    case Err(fault) => Err(BadDocument(fault))
    case Ok(totals) =>
      if id in l.bills then Err(DuplicateKey)
      else Ok(PutBill(l, id, Bill(mitra, Stored(doc), totals.grandTotal, Draft, 0, Unpaid, false)))
  }

  function DoEditBill(l: Payables, id: Id, mitra: Id, doc: Document, active: Rates): Result<Payables, Refusal> {
    if !LiveBill(l, id) then Err(NotFound)
    else
      match DocumentCalc(doc, active)
      case Err(fault) => Err(BadDocument(fault))
      case Ok(totals) =>
        var edited := l.bills[id].(mitra := mitra, document := Stored(doc), grandTotal := totals.grandTotal);
        Ok(PutBill(l, id, Settled(edited, edited.paid)))
  }

  function DoConfirmBill(l: Payables, id: Id, active: Rates): Result<Payables, Refusal> {
    if !LiveBill(l, id) then Err(NotFound)
    else if l.bills[id].status != Draft then Err(InvalidTransition)
    else if DocumentCalc(l.bills[id].document, active).Err?
    then Err(BadDocument(DocumentCalc(l.bills[id].document, active).error))
    else Ok(PutBill(l, id, l.bills[id].(status := Confirmed)))
  }

  /** Back to draft and cancelling both look for live receipts first. */
  function DoReopen(l: Payables, id: Id, status: Status): Result<Payables, Refusal> {
    if !LiveBill(l, id) then Err(NotFound)
    else if l.bills[id].status == status then Err(InvalidTransition)
    else if !NoReceipts(l.receipts, id) then Err(InUse)
    else Ok(PutBill(l, id, l.bills[id].(status := status)))
  }

  function DoDeleteBill(l: Payables, id: Id): Result<Payables, Refusal> {
    if !LiveBill(l, id) then Err(NotFound)
    else Ok(PutBill(l, id, l.bills[id].(deleted := true)))
  }

  /** Applies the amount to the bill, if there is one, and writes the receipt row. */
  function PutRow(l: Payables, id: Id, mitra: Id, bill: Option<Id>, amount: real): Result<Payables, Refusal> {
    var row := BillReceipt(mitra, bill, ToCents(amount), false);
    match bill
    case None => Ok(l.(receipts := l.receipts[id := row]))
    case Some(b) =>
      if BillRefusal(l.bills, b, mitra, amount).Some? then Err(BillRefusal(l.bills, b, mitra, amount).value)
      else Ok(Payables(l.bills[b := Paying(l.bills[b], amount)], l.receipts[id := row]))
  }

  function TakeRowBack(l: Payables, id: Id): Payables
    requires id in l.receipts
  {
    Payables(Refunded(l.bills, l.receipts[id]), l.receipts[id := l.receipts[id].(deleted := true)])
  }

  function DoCreateReceipt(l: Payables, id: Id, mitra: Id, bill: Option<Id>, amount: real): Result<Payables, Refusal> {
    if amount <= 0.0 then Err(InvalidInput)
    else
      var put := PutRow(l, id, mitra, bill, amount);
      if put.Ok? && id in l.receipts then Err(DuplicateKey) else put
  }

  function DoUpdateReceipt(l: Payables, id: Id, mitra: Id, bill: Option<Id>, amount: real): Result<Payables, Refusal> {
    if amount <= 0.0 then Err(InvalidInput)
    else if !LiveRow(l, id) then Err(NotFound)
    else PutRow(TakeRowBack(l, id), id, mitra, bill, amount)
  }

  function DoDeleteReceipt(l: Payables, id: Id): Result<Payables, Refusal> {
    if !LiveRow(l, id) then Err(NotFound) else Ok(TakeRowBack(l, id))
  }

  // --- the recompute --------------------------------------------------------------

  function PartOf(r: BillReceipt, bill: Id): Cents {
    if Pays(r, bill) then r.amount else 0
  }

  function Parts(receipts: map<Id, BillReceipt>, bill: Id): map<Id, Cents> {
    map r | r in receipts :: PartOf(receipts[r], bill)
  }

  /** The sum of the live receipts linked to a bill. */
  ghost function PaidByReceipts(receipts: map<Id, BillReceipt>, bill: Id): Cents {
    Total(Parts(receipts, bill))
  }

  /** Bills without a live receipt have no row in the grouped sum, so they are not touched. */
  ghost function Recomputed(b: Bill, id: Id, receipts: map<Id, BillReceipt>): Bill {
    if NoReceipts(receipts, id) || b.paid == PaidByReceipts(receipts, id) then b
    else Settled(b, PaidByReceipts(receipts, id))
  }

  ghost function DoBackfill(l: Payables): Payables {
    l.(bills := map id | id in l.bills :: Recomputed(l.bills[id], id, l.receipts))
  }

  ghost function Step(l: Payables, c: Command): Result<Payables, Refusal> {
    match c
    case CreateBill(id, mitra, doc, active) => DoCreateBill(l, id, mitra, doc, active)
    case EditBill(id, mitra, doc, active) => DoEditBill(l, id, mitra, doc, active)
    case ConfirmBill(id, active) => DoConfirmBill(l, id, active)
    case RevertBill(id) => DoReopen(l, id, Draft)
    case CancelBill(id) => DoReopen(l, id, Cancelled)
    case DeleteBill(id) => DoDeleteBill(l, id)
    case CreateReceipt(id, mitra, bill, amount) => DoCreateReceipt(l, id, mitra, bill, amount)
    case UpdateReceipt(id, mitra, bill, amount) => DoUpdateReceipt(l, id, mitra, bill, amount)
    case DeleteReceipt(id) => DoDeleteReceipt(l, id)
    case Backfill => Ok(DoBackfill(l))
  }

  function After(l: Payables, outcome: Result<Payables, Refusal>): Payables {
    if outcome.Ok? then outcome.value else l
  }

  ghost function Run(commands: seq<Command>): Payables {
    if commands == [] then NO_PAYABLES
    else
      var l := Run(commands[..|commands| - 1]);
      After(l, Step(l, commands[|commands| - 1]))
  }

  // --- the dashboard ----------------------------------------------------------------

  predicate Owing(b: Bill) {
    !b.deleted && b.status == Confirmed
  }

  /** GREATEST(grand_total - paid_amount, 0) over confirmed bills not marked paid. */
  function SummedBy(b: Bill): Cents {
    if Owing(b) && b.paymentStatus != Paid && b.grandTotal > b.paid then b.grandTotal - b.paid else 0
  }

  function OwedBy(b: Bill): Cents {
    if Owing(b) then OutstandingOf(b.grandTotal, b.paid) else 0
  }

  ghost function SummaryOutstanding(l: Payables): Cents {
    Total(map id | id in l.bills :: SummedBy(l.bills[id]))
  }

  ghost function SumOfOutstanding(l: Payables): Cents {
    Total(map id | id in l.bills :: OwedBy(l.bills[id]))
  }
}
