/**
 The sales settlement ledger of one company as a value, and what each service call
 does to it: invoices, payments and receipts with their allocations. A call either
 succeeds with a new ledger or is refused and changes nothing.
 */
module SalesLedger {
  import opened Results
  import opened Money
  import opened Sums
  import opened LineCalc
  import opened Documents
  import opened InvoiceBalance

  /** A requested allocation, and the allocation row that is stored for it. */
  datatype AllocationInput = AllocationInput(invoice: Id, amount: real)

  datatype Allocation = Allocation(invoice: Id, amount: Cents)

  datatype Receipt = Receipt(mitra: Id, amount: Cents, allocations: seq<Allocation>, deleted: bool)

  datatype Payment = Payment(invoice: Id, mitra: Id, amount: Cents, verified: bool)

  datatype Ledger = Ledger(invoices: map<Id, Invoice>, receipts: map<Id, Receipt>, payments: map<Id, Payment>)

  /** `active` is the tax table a call sees; ids of new rows come with the call. */
  datatype Command =
    | CreateInvoice(id: Id, mitra: Id, downPayment: bool, document: Document, active: Rates)
    | EditInvoice(id: Id, mitra: Id, document: Document, active: Rates)
    | ConfirmInvoice(id: Id, active: Rates)
    | RevertInvoice(id: Id)
    | CancelInvoice(id: Id)
    | DeleteInvoice(id: Id)
    | CreatePayment(id: Id, invoice: Id, amount: real)
    | VerifyPayment(id: Id)
    | CreateReceipt(id: Id, mitra: Id, allocations: seq<AllocationInput>)
    | UpdateReceipt(id: Id, mitra: Id, allocations: seq<AllocationInput>)
    | DeleteReceipt(id: Id)

  const EMPTY: Ledger := Ledger(map[], map[], map[])

  // --- normalising the requested allocations ----------------------------------

  function Insert(a: AllocationInput, sorted: seq<AllocationInput>): seq<AllocationInput> {
    if sorted == [] || a.invoice <= sorted[0].invoice then [a] + sorted
    else [sorted[0]] + Insert(a, sorted[1..])
  }

  function SortByInvoice(s: seq<AllocationInput>): seq<AllocationInput> {
    if s == [] then [] else Insert(s[0], SortByInvoice(s[1..]))
  }

  predicate Ascending(s: seq<AllocationInput>) {
    forall i, j :: 0 <= i < j < |s| ==> s[i].invoice < s[j].invoice
  }

  /** Sorted by invoice id; refused when an invoice occurs twice. */
  function Normalize(s: seq<AllocationInput>): Result<seq<AllocationInput>, Refusal> {
    if Ascending(SortByInvoice(s)) then Ok(SortByInvoice(s)) else Err(InvoiceTwice)
  }

  // --- moving balances --------------------------------------------------------

  datatype Applied = Applied(invoices: map<Id, Invoice>, total: Cents)

  /** Why an allocation can't be applied, if it can't. */
  function AllocationRefusal(invoices: map<Id, Invoice>, mitra: Id, a: AllocationInput): Option<Refusal> {
    if a.invoice !in invoices || invoices[a.invoice].deleted then Some(InvoiceNotFound)
    else if invoices[a.invoice].mitra != mitra then Some(WrongPartner)
    else ApplyRefusal(invoices, a.invoice, a.amount)
  }

  /** The allocations applied one after the other, with the running receipt total. */
  function ApplyAll(invoices: map<Id, Invoice>, mitra: Id, s: seq<AllocationInput>): Result<Applied, Refusal> {
    if s == [] then Ok(Applied(invoices, 0))
    else
      var earlier := ApplyAll(invoices, mitra, s[..|s| - 1]);
      if earlier.Err? then earlier
      else
        var a, now := s[|s| - 1], earlier.value.invoices;
        if AllocationRefusal(now, mitra, a).Some? then Err(AllocationRefusal(now, mitra, a).value)
        else Ok(Applied(now[a.invoice := Credited(now[a.invoice], a.amount)],
                        ToCents(Units(earlier.value.total) + a.amount)))
  }

  /** The stored allocations given back one after the other. */
  function ReverseAll(invoices: map<Id, Invoice>, s: seq<Allocation>): Result<map<Id, Invoice>, Refusal> {
    if s == [] then Ok(invoices)
    else
      var earlier := ReverseAll(invoices, s[..|s| - 1]);
      if earlier.Err? then earlier
      else
        var a, now := s[|s| - 1], earlier.value;
        if a.invoice !in now then Err(RowMissing)
        else Ok(now[a.invoice := Debited(now[a.invoice], a.amount)])
  }

  function AllocationRows(s: seq<AllocationInput>): seq<Allocation> {
    seq(|s|, i requires 0 <= i < |s| => Allocation(s[i].invoice, ToCents(s[i].amount)))
  }

  // --- the calls --------------------------------------------------------------

  predicate Live(invoices: map<Id, Invoice>, id: Id) {
    id in invoices && !invoices[id].deleted
  }

  predicate LiveReceipt(receipts: map<Id, Receipt>, id: Id) {
    id in receipts && !receipts[id].deleted
  }

  predicate Touches(s: seq<Allocation>, invoice: Id) {
    exists k :: 0 <= k < |s| && s[k].invoice == invoice
  }

  predicate NoPayment(payments: map<Id, Payment>, id: Id) {
    forall p :: p in payments ==> payments[p].invoice != id
  }

  predicate NoAllocation(receipts: map<Id, Receipt>, id: Id) {
    forall r :: r in receipts && !receipts[r].deleted ==> !Touches(receipts[r].allocations, id)
  }

  /** checkInvoiceHasNoPayments: no payment at all, and no allocation of a live receipt. */
  predicate NoMoney(l: Ledger, id: Id) {
    NoPayment(l.payments, id) && NoAllocation(l.receipts, id)
  }

  predicate ValidAmounts(s: seq<AllocationInput>) {
    s != [] && forall k :: 0 <= k < |s| ==> 0.0 < s[k].amount
  }

  function PutInvoice(l: Ledger, id: Id, inv: Invoice): Ledger {
    l.(invoices := l.invoices[id := inv])
  }

  function DoCreateInvoice(
    l: Ledger, id: Id, mitra: Id, downPayment: bool, doc: Document, active: Rates): Result<Ledger, Refusal>
  {
    match DocumentCalc(doc, active)
    case Err(fault) => Err(BadDocument(fault))
    case Ok(totals) =>
      if id in l.invoices then Err(DuplicateKey)
      else Ok(PutInvoice(l, id, Invoice(mitra, downPayment, Stored(doc), totals.grandTotal, Draft, 0, Unpaid, false)))
  }

  /** Allowed in every status; what was paid stays as recorded. */
  function DoEditInvoice(l: Ledger, id: Id, mitra: Id, doc: Document, active: Rates): Result<Ledger, Refusal> {
    if !Live(l.invoices, id) then Err(NotFound)
    else
      match DocumentCalc(doc, active)
      case Err(fault) => Err(BadDocument(fault))
      case Ok(totals) =>
        Ok(PutInvoice(l, id, Refreshed(l.invoices[id].(mitra := mitra, document := Stored(doc), grandTotal := totals.grandTotal))))
  }

  function DoConfirmInvoice(l: Ledger, id: Id, active: Rates): Result<Ledger, Refusal> {
    if !Live(l.invoices, id) then Err(NotFound)
    else if l.invoices[id].status != Draft then Err(InvalidTransition)
    else if DocumentCalc(l.invoices[id].document, active).Err?
    then Err(BadDocument(DocumentCalc(l.invoices[id].document, active).error))
    else Ok(PutInvoice(l, id, l.invoices[id].(status := Confirmed)))
  }

  function DoRevertInvoice(l: Ledger, id: Id): Result<Ledger, Refusal> {
    if !Live(l.invoices, id) then Err(NotFound)
    else if l.invoices[id].status == Draft then Err(InvalidTransition)
    else if !NoMoney(l, id) then Err(InUse)
    else Ok(PutInvoice(l, id, l.invoices[id].(status := Draft)))
  }

  /** Cancelling does not look for money on the invoice. */
  function DoCancelInvoice(l: Ledger, id: Id): Result<Ledger, Refusal> {
    if !Live(l.invoices, id) then Err(NotFound)
    else if l.invoices[id].status == Cancelled then Err(InvalidTransition)
    else Ok(PutInvoice(l, id, l.invoices[id].(status := Cancelled)))
  }

  function DoDeleteInvoice(l: Ledger, id: Id): Result<Ledger, Refusal> {
    if !Live(l.invoices, id) then Err(NotFound)
    else Ok(PutInvoice(l, id, l.invoices[id].(deleted := true)))
  }

  function DoCreatePayment(l: Ledger, id: Id, invoice: Id, amount: real): Result<Ledger, Refusal> {
    if amount <= 0.0 then Err(InvalidInput)
    else if !Live(l.invoices, invoice) then Err(InvoiceNotFound)
    else
      var inv := l.invoices[invoice];
      if inv.status != Confirmed then Err(NotConfirmed)
      else if amount > Units(Remaining(inv)) then Err(ExceedsBalance(Remaining(inv)))
      else if id in l.payments then Err(DuplicateKey)
      else Ok(l.(payments := l.payments[id := Payment(invoice, inv.mitra, ToCents(amount), false)]))
  }

  function DoVerifyPayment(l: Ledger, id: Id): Result<Ledger, Refusal> {
    if id !in l.payments then Err(NotFound)
    else
      var p := l.payments[id];
      if p.verified then Err(InvalidTransition)
      else if ApplyRefusal(l.invoices, p.invoice, Units(p.amount)).Some?
      then Err(ApplyRefusal(l.invoices, p.invoice, Units(p.amount)).value)
      else Ok(l.(invoices := l.invoices[p.invoice := Credited(l.invoices[p.invoice], Units(p.amount))],
                 payments := l.payments[id := p.(verified := true)]))
  }

  /** Applies normalised allocations and writes the receipt row they belong to. */
  function PutReceipt(l: Ledger, id: Id, mitra: Id, s: seq<AllocationInput>): Result<Ledger, Refusal> {
    match ApplyAll(l.invoices, mitra, s)
    case Err(why) => Err(why)
    case Ok(applied) =>
      Ok(l.(invoices := applied.invoices,
            receipts := l.receipts[id := Receipt(mitra, applied.total, AllocationRows(s), false)]))
  }

  /** Gives a live receipt's allocations back and soft-deletes it. */
  function TakeBack(l: Ledger, id: Id): Result<Ledger, Refusal>
    requires id in l.receipts
  {
    match ReverseAll(l.invoices, l.receipts[id].allocations)
    case Err(why) => Err(why)
    case Ok(invoices) =>
      Ok(l.(invoices := invoices, receipts := l.receipts[id := l.receipts[id].(deleted := true)]))
  }

  function DoCreateReceipt(l: Ledger, id: Id, mitra: Id, s: seq<AllocationInput>): Result<Ledger, Refusal> {
    if !ValidAmounts(s) then Err(InvalidInput)
    else
      match Normalize(s)
      case Err(why) => Err(why)
      case Ok(sorted) =>
        var put := PutReceipt(l, id, mitra, sorted);
        if put.Ok? && id in l.receipts then Err(DuplicateKey) else put
  }

  function DoUpdateReceipt(l: Ledger, id: Id, mitra: Id, s: seq<AllocationInput>): Result<Ledger, Refusal> {
    if !ValidAmounts(s) then Err(InvalidInput)
    else if !LiveReceipt(l.receipts, id) then Err(NotFound)
    else
      match Normalize(s)
      case Err(why) => Err(why)
      case Ok(sorted) =>
        var reversed := TakeBack(l, id);
        if reversed.Err? then reversed else PutReceipt(reversed.value, id, mitra, sorted)
  }

  function DoDeleteReceipt(l: Ledger, id: Id): Result<Ledger, Refusal> {
    if !LiveReceipt(l.receipts, id) then Err(NotFound) else TakeBack(l, id)
  }

  function Step(l: Ledger, c: Command): Result<Ledger, Refusal> {
    match c
    case CreateInvoice(id, mitra, downPayment, doc, active) => DoCreateInvoice(l, id, mitra, downPayment, doc, active)
    case EditInvoice(id, mitra, doc, active) => DoEditInvoice(l, id, mitra, doc, active)
    case ConfirmInvoice(id, active) => DoConfirmInvoice(l, id, active)
    case RevertInvoice(id) => DoRevertInvoice(l, id)
    case CancelInvoice(id) => DoCancelInvoice(l, id)
    case DeleteInvoice(id) => DoDeleteInvoice(l, id)
    case CreatePayment(id, invoice, amount) => DoCreatePayment(l, id, invoice, amount)
    case VerifyPayment(id) => DoVerifyPayment(l, id)
    case CreateReceipt(id, mitra, s) => DoCreateReceipt(l, id, mitra, s)
    case UpdateReceipt(id, mitra, s) => DoUpdateReceipt(l, id, mitra, s)
    case DeleteReceipt(id) => DoDeleteReceipt(l, id)
  }

  /** The ledger after a call: unchanged when the call is refused. */
  function After(l: Ledger, outcome: Result<Ledger, Refusal>): Ledger {
    if outcome.Ok? then outcome.value else l
  }

  /** The ledger reached from the empty one by a sequence of calls. */
  function Run(commands: seq<Command>): Ledger {
    if commands == [] then EMPTY
    else
      var l := Run(commands[..|commands| - 1]);
      After(l, Step(l, commands[|commands| - 1]))
  }

  // --- the dashboard ----------------------------------------------------------

  predicate Billed(inv: Invoice) {
    !inv.deleted && !inv.downPayment && inv.status == Confirmed
  }

  function SummedBy(inv: Invoice): Cents {
    if Billed(inv) && inv.paymentStatus != Paid then inv.grandTotal - inv.paid else 0
  }

  function OwedBy(inv: Invoice): Cents {
    if Billed(inv) then OutstandingOf(inv.grandTotal, inv.paid) else 0
  }

  function Summed(l: Ledger): map<Id, Cents> {
    map i | i in l.invoices :: SummedBy(l.invoices[i])
  }

  function Owed(l: Ledger): map<Id, Cents> {
    map i | i in l.invoices :: OwedBy(l.invoices[i])
  }

  /** Summary().Outstanding: grand_total - paid_amount over confirmed invoices not marked paid. */
  ghost function SummaryOutstanding(l: Ledger): Cents {
    Total(Summed(l))
  }

  /** The same figure taken from the outstanding amount every invoice shows. */
  ghost function SumOfOutstanding(l: Ledger): Cents {
    Total(Owed(l))
  }
}
