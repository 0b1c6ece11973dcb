/**
 What the calls on a bill leave behind: its total and lines after it is written, its
 status, and what can be paid on it.
 */
module BillLifecycle {
  import opened Results
  import opened Money
  import opened Sums
  import opened LineCalc
  import opened LineCalcLaws
  import opened Documents
  import opened InvoiceBalance
  import opened PurchaseLedger
  import opened PurchaseLaws

  // --- the total of a bill -------------------------------------------------------------

  /** Rounded line totals, less the document discount, plus rounded shipping. */
  ghost predicate IsTotalOf(total: Cents, doc: Document, active: Rates) {
    && Calc(doc.lines, active, doc.discount).Ok?
    && total == ToCents(SumOf(doc.lines, active, LineTotal))
                - Calc(doc.lines, active, doc.discount).value.additionalDiscountAmount + ToCents(doc.shipping)
  }

  predicate OtherBillsAsBefore(l: Payables, l': Payables, id: Id) {
    && l'.receipts == l.receipts
    && forall b :: b in l.bills && b != id ==> b in l'.bills && l'.bills[b] == l.bills[b]
  }

  /** An accepted bill is an unpaid live draft of the partner, worth the submitted document. */
  lemma CreatedBillIsWorthItsDocument(l: Payables, id: Id, mitra: Id, doc: Document, active: Rates)
    requires Step(l, CreateBill(id, mitra, doc, active)).Ok?
    ensures var l' := Step(l, CreateBill(id, mitra, doc, active)).value;
            && id !in l.bills && l'.bills.Keys == l.bills.Keys + {id} && OtherBillsAsBefore(l, l', id)
            && IsTotalOf(l'.bills[id].grandTotal, doc, active) && l'.bills[id].document == Stored(doc)
            && l'.bills[id].mitra == mitra && !l'.bills[id].deleted
            && l'.bills[id].status == Draft && l'.bills[id].paid == 0 && l'.bills[id].paymentStatus == Unpaid
  {
    AcceptedGrandTotal(doc, active);
  }

  /** An accepted edit makes the bill worth the new document; what was paid and the status of the bill stay. */
  lemma EditedBillIsWorthItsDocument(l: Payables, id: Id, mitra: Id, doc: Document, active: Rates)
    requires Step(l, EditBill(id, mitra, doc, active)).Ok?
    ensures var l' := Step(l, EditBill(id, mitra, doc, active)).value;
            && id in l.bills && l'.bills.Keys == l.bills.Keys && OtherBillsAsBefore(l, l', id)
            && IsTotalOf(l'.bills[id].grandTotal, doc, active) && l'.bills[id].document == Stored(doc)
            && l'.bills[id].mitra == mitra && !l'.bills[id].deleted
            && l'.bills[id].paid == l.bills[id].paid && l'.bills[id].status == l.bills[id].status
  {
    AcceptedGrandTotal(doc, active);
  }

  // --- what a receipt may pay ------------------------------------------------------------

  /**
   A new receipt on a bill is accepted exactly when it is positive and fits what the live,
   confirmed bill of that partner still owes.
   */
  lemma ReceiptAcceptedExactlyWhen(l: Payables, r: Id, mitra: Id, b: Id, amount: real)
    requires r !in l.receipts
    ensures Step(l, CreateReceipt(r, mitra, Some(b), amount)).Ok?
       <==> && 0.0 < amount && b in l.bills && !l.bills[b].deleted && l.bills[b].mitra == mitra
            && l.bills[b].status == Confirmed
            && amount <= (l.bills[b].grandTotal - l.bills[b].paid) as real / 100.0
  {
  }

  /** After an edit of a confirmed bill, receipts are accepted exactly up to the new total less what was paid. */
  lemma EditedBillTakesUpTo(
    l: Payables, id: Id, mitra: Id, doc: Document, active: Rates, r: Id, amount: real)
    requires Step(l, EditBill(id, mitra, doc, active)).Ok? && l.bills[id].status == Confirmed && r !in l.receipts
    ensures var l' := Step(l, EditBill(id, mitra, doc, active)).value;
            && IsTotalOf(l'.bills[id].grandTotal, doc, active)
            && (Step(l', CreateReceipt(r, mitra, Some(id), amount)).Ok?
                <==> 0.0 < amount <= (l'.bills[id].grandTotal - l.bills[id].paid) as real / 100.0)
  {
    EditedBillIsWorthItsDocument(l, id, mitra, doc, active);
    ReceiptAcceptedExactlyWhen(Step(l, EditBill(id, mitra, doc, active)).value, r, mitra, id, amount);
  }

  predicate Nearest(c: Cents, v: real) {
    -0.5 <= c as real - v * 100.0 <= 0.5
  }

  /** The row of an accepted receipt shows the submitted partner and bill and the nearest cents; no other row moves. */
  predicate ShowsReceipt(l: Payables, l': Payables, r: Id, mitra: Id, bill: Option<Id>, amount: real) {
    && r in l'.receipts && !l'.receipts[r].deleted
    && l'.receipts[r].mitra == mitra && l'.receipts[r].bill == bill && Nearest(l'.receipts[r].amount, amount)
    && forall q :: q in l.receipts && q != r ==> q in l'.receipts && l'.receipts[q] == l.receipts[q]
  }

  lemma PutRowPays(l: Payables, r: Id, mitra: Id, bill: Option<Id>, amount: real)
    requires Inv(l) && 0.0 < amount && PutRow(l, r, mitra, bill, amount).Ok?
    ensures var l' := PutRow(l, r, mitra, bill, amount).value;
            && ShowsReceipt(l, l', r, mitra, bill, amount) && l'.bills.Keys == l.bills.Keys
            && forall b :: b in l.bills ==> l'.bills[b].paid == l.bills[b].paid + PartOf(l'.receipts[r], b)
  {
    RoundIsNearest(amount * 100.0);
    if bill.Some? {
      PaidIsNonNegative(l, bill.value);
      AddingToStored(l.bills[bill.value].paid, amount);
    }
  }

  /** A new receipt pays its bill by its own amount, and no other bill. */
  lemma CreatedReceiptPays(l: Payables, r: Id, mitra: Id, bill: Option<Id>, amount: real)
    requires Inv(l) && Step(l, CreateReceipt(r, mitra, bill, amount)).Ok?
    ensures var l' := Step(l, CreateReceipt(r, mitra, bill, amount)).value;
            && ShowsReceipt(l, l', r, mitra, bill, amount) && l'.bills.Keys == l.bills.Keys
            && forall b :: b in l.bills ==>
                 l'.bills[b].paid == l.bills[b].paid + if bill == Some(b) then l'.receipts[r].amount else 0
  {
    PutRowPays(l, r, mitra, bill, amount);
  }

  lemma PutRowAgainPays(l: Payables, r: Id, mitra: Id, bill: Option<Id>, amount: real)
    requires Inv(l) && LiveRow(l, r) && 0.0 < amount && PutRow(TakeRowBack(l, r), r, mitra, bill, amount).Ok?
    ensures var l' := PutRow(TakeRowBack(l, r), r, mitra, bill, amount).value;
            && ShowsReceipt(l, l', r, mitra, bill, amount) && l'.bills.Keys == l.bills.Keys
            && forall b :: b in l.bills ==>
                 l'.bills[b].paid == l.bills[b].paid - PartOf(l.receipts[r], b) + PartOf(l'.receipts[r], b)
  {
    TakeRowBackKeepsInv(l, r);
    PutRowPays(TakeRowBack(l, r), r, mitra, bill, amount);
  }

  /** An edited receipt gives its old amount back to its old bill and pays the new one. */
  lemma EditedReceiptPays(l: Payables, r: Id, mitra: Id, bill: Option<Id>, amount: real)
    requires Inv(l) && Step(l, UpdateReceipt(r, mitra, bill, amount)).Ok?
    ensures var l' := Step(l, UpdateReceipt(r, mitra, bill, amount)).value;
            && r in l.receipts && ShowsReceipt(l, l', r, mitra, bill, amount) && l'.bills.Keys == l.bills.Keys
            && forall b :: b in l.bills ==>
                 l'.bills[b].paid == l.bills[b].paid - PartOf(l.receipts[r], b) + PartOf(l'.receipts[r], b)
  {
    PutRowAgainPays(l, r, mitra, bill, amount);
  }

  // --- the life of a bill ----------------------------------------------------------------

  /** Where an accepted call moves the status of a bill that is on record. */
  function Moved(before: Status, c: Command, b: Id): Status {
    match c
    case ConfirmBill(id, _) => if id == b then Confirmed else before
    case RevertBill(id) => if id == b then Draft else before
    case CancelBill(id) => if id == b then Cancelled else before
    case _ => before
  }

  /** Only drafts are confirmed, and nothing is reverted or cancelled into the status it has. */
  predicate MayMove(before: Status, c: Command, b: Id) {
    match c
    case ConfirmBill(id, _) => id == b ==> before == Draft
    case RevertBill(id) => id == b ==> before != Draft
    case CancelBill(id) => id == b ==> before != Cancelled
    case _ => true
  }

  /** The status of a bill moves by confirm, revert and cancel alone, and only as the life of a bill allows. */
  lemma StatusMoves(l: Payables, c: Command, b: Id)
    requires b in l.bills && Step(l, c).Ok?
    ensures var l' := Step(l, c).value;
            b in l'.bills && l'.bills[b].status == Moved(l.bills[b].status, c, b) && MayMove(l.bills[b].status, c, b)
  {
  }

  /** Confirming, reverting and cancelling change nothing of a bill but its status. */
  lemma MovesKeepTheRest(l: Payables, c: Command, b: Id)
    requires b in l.bills && Step(l, c).Ok? && (c.ConfirmBill? || c.RevertBill? || c.CancelBill?)
    ensures var l' := Step(l, c).value;
            && b in l'.bills && l'.bills[b] == l.bills[b].(status := l'.bills[b].status)
            && l'.receipts == l.receipts
  {
  }

  ghost function RunFrom(l: Payables, commands: seq<Command>): Payables {
    if commands == [] then l
    else
      var before := RunFrom(l, commands[..|commands| - 1]);
      After(before, Step(before, commands[|commands| - 1]))
  }

  predicate Confirms(c: Command, b: Id) {
    c.ConfirmBill? && c.id == b
  }

  /** No receipt is accepted on a bill that is not confirmed. */
  lemma OnlyConfirmedBillsArePaid(l: Payables, b: Id, c: Command)
    requires b in l.bills && l.bills[b].status != Confirmed
    requires (c.CreateReceipt? || c.UpdateReceipt?) && c.bill == Some(b)
    ensures Step(l, c).Err? && OwedBy(l.bills[b]) == SummedBy(l.bills[b]) == 0
  {
  }

  predicate Reverts(c: Command, b: Id) {
    c.RevertBill? && c.id == b
  }

  predicate RevertedIn(commands: seq<Command>, b: Id) {
    exists j :: 0 <= j < |commands| && Reverts(commands[j], b)
  }

  predicate ConfirmedIn(commands: seq<Command>, b: Id) {
    exists j :: 0 <= j < |commands| && Confirms(commands[j], b)
  }

  predicate RevertedThenConfirmedIn(commands: seq<Command>, b: Id) {
    exists j, k :: 0 <= j < k < |commands| && Reverts(commands[j], b) && Confirms(commands[k], b)
  }

  lemma OneMoreCall(commands: seq<Command>, b: Id)
    requires commands != []
    ensures var before, c := commands[..|commands| - 1], commands[|commands| - 1];
            && (RevertedIn(before, b) || Reverts(c, b) ==> RevertedIn(commands, b))
            && (ConfirmedIn(before, b) || Confirms(c, b) ==> ConfirmedIn(commands, b))
            && (RevertedThenConfirmedIn(before, b) || (RevertedIn(before, b) && Confirms(c, b)) ==>
                  RevertedThenConfirmedIn(commands, b))
  {
    var n := |commands| - 1;
    var before := commands[..n];
    if RevertedIn(before, b) {
      var j :| 0 <= j < n && Reverts(before[j], b);
      assert Reverts(commands[j], b);
      if Confirms(commands[n], b) {
        assert j < n && Reverts(commands[j], b) && Confirms(commands[n], b);
      }
    }
    if ConfirmedIn(before, b) {
      var j :| 0 <= j < n && Confirms(before[j], b);
      assert Confirms(commands[j], b);
    }
    if RevertedThenConfirmedIn(before, b) {
      var j, k :| 0 <= j < k < n && Reverts(before[j], b) && Confirms(before[k], b);
      assert Reverts(commands[j], b) && Confirms(commands[k], b);
    }
  }

  lemma {:induction false} ReopenedByCalls(l: Payables, commands: seq<Command>, b: Id)
    requires b in l.bills && l.bills[b].status != Confirmed
    ensures var l' := RunFrom(l, commands);
            && b in l'.bills
            && (l'.bills[b].status == Confirmed ==> ConfirmedIn(commands, b))
            && (l.bills[b].status == Cancelled && l'.bills[b].status == Draft ==> RevertedIn(commands, b))
            && (l.bills[b].status == Cancelled && l'.bills[b].status == Confirmed ==> RevertedThenConfirmedIn(commands, b))
  {
    if commands != [] {
      var n := |commands| - 1;
      var before := RunFrom(l, commands[..n]);
      ReopenedByCalls(l, commands[..n], b);
      OneMoreCall(commands, b);
      if Step(before, commands[n]).Ok? {
        StatusMoves(before, commands[n], b);
      }
    }
  }

  /** Nothing can be paid on the bill, by a new receipt or an edited one. */
  ghost predicate TakesNoMoney(l: Payables, b: Id) {
    forall c: Command :: (c.CreateReceipt? || c.UpdateReceipt?) && c.bill == Some(b) ==> Step(l, c).Err?
  }

  /**
   A cancelled bill takes no money and adds nothing to what is owed, whatever is called,
   until it has been reverted and, after that, confirmed.
   */
  lemma CancelledBillIsClosed(l: Payables, b: Id, later: seq<Command>)
    requires Step(l, CancelBill(b)).Ok?
    ensures var l' := RunFrom(Step(l, CancelBill(b)).value, later);
            && b in l'.bills
            && (RevertedThenConfirmedIn(later, b)
                || (TakesNoMoney(l', b) && OwedBy(l'.bills[b]) == SummedBy(l'.bills[b]) == 0))
  {
    var l' := RunFrom(Step(l, CancelBill(b)).value, later);
    ReopenedByCalls(Step(l, CancelBill(b)).value, later, b);
    if !RevertedThenConfirmedIn(later, b) {
      UnconfirmedTakesNoMoney(l', b);
    }
  }

  lemma UnconfirmedTakesNoMoney(l: Payables, b: Id)
    requires b in l.bills && l.bills[b].status != Confirmed
    ensures TakesNoMoney(l, b) && OwedBy(l.bills[b]) == SummedBy(l.bills[b]) == 0
  {
    forall c: Command | (c.CreateReceipt? || c.UpdateReceipt?) && c.bill == Some(b)
      ensures Step(l, c).Err?
    {
      OnlyConfirmedBillsArePaid(l, b, c);
    }
  }

  /** The same holds of a bill that is taken back to draft, until it is confirmed. */
  lemma RevertedBillIsClosed(l: Payables, b: Id, later: seq<Command>)
    requires Step(l, RevertBill(b)).Ok?
    ensures var l' := RunFrom(Step(l, RevertBill(b)).value, later);
            && b in l'.bills
            && (ConfirmedIn(later, b) || (TakesNoMoney(l', b) && OwedBy(l'.bills[b]) == SummedBy(l'.bills[b]) == 0))
  {
    ReopenedByCalls(Step(l, RevertBill(b)).value, later, b);
    if !ConfirmedIn(later, b) {
      UnconfirmedTakesNoMoney(RunFrom(Step(l, RevertBill(b)).value, later), b);
    }
  }

  /** A confirmed bill takes receipts of its partner up to what it owes, and owes its total. */
  lemma ConfirmedBillIsOpen(l: Payables, b: Id, active: Rates, r: Id, amount: real)
    requires Step(l, ConfirmBill(b, active)).Ok? && r !in l.receipts
    ensures var l' := Step(l, ConfirmBill(b, active)).value;
            var bill := l'.bills[b];
            && bill == l.bills[b].(status := Confirmed)
            && (Step(l', CreateReceipt(r, bill.mitra, Some(b), amount)).Ok?
                <==> 0.0 < amount <= (bill.grandTotal - bill.paid) as real / 100.0)
            && OwedBy(bill) == if bill.grandTotal > bill.paid then bill.grandTotal - bill.paid else 0
  {
    var l' := Step(l, ConfirmBill(b, active)).value;
    ReceiptAcceptedExactlyWhen(l', r, l'.bills[b].mitra, b, amount);
    OutstandingIsWhatIsOwed(l'.bills[b].grandTotal, l'.bills[b].paid);
  }

  predicate BillGone(l: Payables, b: Id) {
    b in l.bills && l.bills[b].deleted
  }

  lemma {:induction false} BillStaysGone(l: Payables, commands: seq<Command>, b: Id)
    requires BillGone(l, b)
    ensures BillGone(RunFrom(l, commands), b)
  {
    if commands != [] {
      BillStaysGone(l, commands[..|commands| - 1], b);
    }
  }

  /** A deleted bill stays deleted; it takes no money and adds nothing to what is owed. */
  lemma DeletedBillIsGone(l: Payables, b: Id, later: seq<Command>)
    requires Step(l, DeleteBill(b)).Ok?
    ensures var l' := RunFrom(Step(l, DeleteBill(b)).value, later);
            BillGone(l', b) && TakesNoMoney(l', b) && OwedBy(l'.bills[b]) == SummedBy(l'.bills[b]) == 0
  {
    BillStaysGone(Step(l, DeleteBill(b)).value, later, b);
  }

  // --- which calls are accepted ------------------------------------------------------------

  /** The lines and the document discount fit, and shipping is not negative. */
  predicate DocumentFits(doc: Document, active: Rates) {
    LinesFit(doc.lines, active, doc.discount) && 0.0 <= doc.shipping
  }

  lemma DocumentAcceptedExactlyWhen(doc: Document, active: Rates)
    ensures DocumentCalc(doc, active).Ok? <==> DocumentFits(doc, active)
  {
    CalcAcceptsExactlyWhen(doc.lines, active, doc.discount);
  }

  /** The amount fits what a live, confirmed bill of the partner owes once `back` has been given back. */
  predicate Fits(l: Payables, b: Id, mitra: Id, amount: real, back: Cents) {
    && b in l.bills && !l.bills[b].deleted && l.bills[b].mitra == mitra && l.bills[b].status == Confirmed
    && amount <= (l.bills[b].grandTotal - l.bills[b].paid + back) as real / 100.0
  }

  predicate HasReceipts(l: Payables, b: Id) {
    exists r :: r in l.receipts && !l.receipts[r].deleted && l.receipts[r].bill == Some(b)
  }

  /** What each call needs. */
  predicate Admissible(l: Payables, c: Command) {
    match c
    case CreateBill(id, _, doc, active) => id !in l.bills && DocumentFits(doc, active)
    case EditBill(id, _, doc, active) => LiveBill(l, id) && DocumentFits(doc, active)
    case ConfirmBill(id, active) =>
      LiveBill(l, id) && l.bills[id].status == Draft && DocumentFits(l.bills[id].document, active)
    case RevertBill(id) => LiveBill(l, id) && l.bills[id].status != Draft && !HasReceipts(l, id)
    case CancelBill(id) => LiveBill(l, id) && l.bills[id].status != Cancelled && !HasReceipts(l, id)
    case DeleteBill(id) => LiveBill(l, id)
    case CreateReceipt(r, mitra, bill, amount) =>
      r !in l.receipts && 0.0 < amount && (bill.Some? ==> Fits(l, bill.value, mitra, amount, 0))
    case UpdateReceipt(r, mitra, bill, amount) =>
      && r in l.receipts && !l.receipts[r].deleted && 0.0 < amount
      && (bill.Some? ==> Fits(l, bill.value, mitra, amount, PartOf(l.receipts[r], bill.value)))
    case DeleteReceipt(r) => r in l.receipts && !l.receipts[r].deleted
    case Backfill => true
  }

  lemma BillCallAcceptedExactlyWhen(l: Payables, c: Command)
    requires !c.CreateReceipt? && !c.UpdateReceipt? && !c.DeleteReceipt?
    ensures Step(l, c).Ok? <==> Admissible(l, c)
  {
    match c
    case CreateBill(_, _, doc, active) => DocumentAcceptedExactlyWhen(doc, active);
    case EditBill(_, _, doc, active) => DocumentAcceptedExactlyWhen(doc, active);
    case ConfirmBill(id, active) =>
      if LiveBill(l, id) {
        DocumentAcceptedExactlyWhen(l.bills[id].document, active);
      }
    case RevertBill(id) => assert HasReceipts(l, id) <==> !NoReceipts(l.receipts, id);
    case CancelBill(id) => assert HasReceipts(l, id) <==> !NoReceipts(l.receipts, id);
    case _ =>
  }

  lemma PutRowAcceptedExactlyWhen(l: Payables, r: Id, mitra: Id, bill: Option<Id>, amount: real)
    ensures PutRow(l, r, mitra, bill, amount).Ok? <==> (bill.Some? ==> Fits(l, bill.value, mitra, amount, 0))
  {
  }

  lemma FitsGivenBack(l: Payables, r: Id, b: Id, mitra: Id, amount: real)
    requires Inv(l) && LiveRow(l, r)
    ensures Fits(TakeRowBack(l, r), b, mitra, amount, 0) <==> Fits(l, b, mitra, amount, PartOf(l.receipts[r], b))
  {
    TakeRowBackKeepsInv(l, r);
  }

  /**
   A call on the bills is accepted exactly when its needs are met; an edited receipt is judged
   with its old amount given back.
   */
  lemma AcceptedExactlyWhen(l: Payables, c: Command)
    requires Inv(l)
    ensures Step(l, c).Ok? <==> Admissible(l, c)
  {
    if c.CreateReceipt? {
      PutRowAcceptedExactlyWhen(l, c.id, c.mitra, c.bill, c.amount);
    } else if c.UpdateReceipt? {
      if LiveRow(l, c.id) {
        PutRowAcceptedExactlyWhen(TakeRowBack(l, c.id), c.id, c.mitra, c.bill, c.amount);
        if c.bill.Some? {
          FitsGivenBack(l, c.id, c.bill.value, c.mitra, c.amount);
        }
      }
    } else if !c.DeleteReceipt? {
      BillCallAcceptedExactlyWhen(l, c);
    }
  }

  // --- what a refusal says --------------------------------------------------------------

  predicate OnBill(c: Command) {
    c.EditBill? || c.ConfirmBill? || c.RevertBill? || c.CancelBill? || c.DeleteBill?
  }

  /** The document a call calculates. */
  function DocumentOf(l: Payables, c: Command): Option<Document> {
    match c
    case CreateBill(_, _, doc, _) => Some(doc)
    case EditBill(_, _, doc, _) => Some(doc)
    case ConfirmBill(id, _) => if id in l.bills then Some(l.bills[id].document) else None
    case _ => None
  }

  /** What an edited receipt gives back to a bill before it pays again. */
  function GivenBackTo(l: Payables, c: Command, b: Id): Cents {
    if c.UpdateReceipt? && c.id in l.receipts then PartOf(l.receipts[c.id], b) else 0
  }

  /** The status of the bill rules the call out. */
  predicate NoSuchMove(l: Payables, c: Command) {
    match c
    case ConfirmBill(id, _) => LiveBill(l, id) && l.bills[id].status != Draft
    case RevertBill(id) => LiveBill(l, id) && l.bills[id].status == Draft
    case CancelBill(id) => LiveBill(l, id) && l.bills[id].status == Cancelled
    case _ => false
  }

  predicate OnReceipt(c: Command) {
    c.CreateReceipt? || c.UpdateReceipt?
  }

  /** What a refused receipt is told about its bill. */
  predicate IsSoOfItsBill(l: Payables, c: Command, why: Refusal) {
    && OnReceipt(c) && c.bill.Some?
    && var b := c.bill.value;
       match why
       case InvoiceNotFound => !LiveBill(l, b)
       case WrongPartner => LiveBill(l, b) && l.bills[b].mitra != c.mitra
       case NotConfirmed => LiveBill(l, b) && l.bills[b].status != Confirmed
       case ExceedsBalance(rest) =>
         && LiveBill(l, b) && c.amount > Units(rest)
         && rest == l.bills[b].grandTotal - l.bills[b].paid + GivenBackTo(l, c, b)
       case _ => false
  }

  /** What the refusal says is so. */
  predicate IsSo(l: Payables, c: Command, why: Refusal) {
    match why
    case NotFound =>
      (OnBill(c) && !LiveBill(l, c.id)) || ((c.UpdateReceipt? || c.DeleteReceipt?) && !LiveRow(l, c.id))
    case DuplicateKey => (c.CreateBill? && c.id in l.bills) || (c.CreateReceipt? && c.id in l.receipts)
    case InvalidInput => (c.CreateReceipt? || c.UpdateReceipt?) && c.amount <= 0.0
    case BadDocument(_) =>
      (c.CreateBill? || c.EditBill? || c.ConfirmBill?) && DocumentOf(l, c).Some? && !DocumentFits(DocumentOf(l, c).value, c.active)
    case InvalidTransition =>
      NoSuchMove(l, c)
    case InUse => (c.RevertBill? || c.CancelBill?) && HasReceipts(l, c.id)
    case InvoiceNotFound => IsSoOfItsBill(l, c, why)
    case WrongPartner => IsSoOfItsBill(l, c, why)
    case NotConfirmed => IsSoOfItsBill(l, c, why)
    case ExceedsBalance(_) => IsSoOfItsBill(l, c, why)
    case _ => false
  }

  lemma BillRefusalIsSo(l: Payables, c: Command)
    requires !OnReceipt(c) && !c.DeleteReceipt? && Step(l, c).Err?
    ensures IsSo(l, c, Step(l, c).error)
  {
    match c
    case CreateBill(_, _, doc, active) => DocumentAcceptedExactlyWhen(doc, active);
    case EditBill(_, _, doc, active) => DocumentAcceptedExactlyWhen(doc, active);
    case ConfirmBill(id, active) =>
      if LiveBill(l, id) {
        DocumentAcceptedExactlyWhen(l.bills[id].document, active);
      }
    case _ =>
  }

  lemma NewReceiptRefusalIsSo(l: Payables, c: Command)
    requires c.CreateReceipt? && Step(l, c).Err?
    ensures IsSo(l, c, Step(l, c).error)
  {
  }

  lemma BackedBill(l: Payables, r: Id, b: Id)
    requires Inv(l) && LiveRow(l, r)
    ensures LiveBill(TakeRowBack(l, r), b) <==> LiveBill(l, b)
    ensures LiveBill(l, b) ==>
              var back := TakeRowBack(l, r).bills[b];
              && back.mitra == l.bills[b].mitra && back.status == l.bills[b].status
              && BillRemaining(back) == l.bills[b].grandTotal - l.bills[b].paid + PartOf(l.receipts[r], b)
  {
    TakeRowBackKeepsInv(l, r);
  }

  lemma EditedReceiptRefusalIsSo(l: Payables, c: Command)
    requires Inv(l) && c.UpdateReceipt? && Step(l, c).Err?
    ensures IsSo(l, c, Step(l, c).error)
  {
    if LiveRow(l, c.id) && c.bill.Some? {
      BackedBill(l, c.id, c.bill.value);
    }
  }

  /** Every refusal tells the caller something that is so. */
  lemma RefusalsAreSo(l: Payables, c: Command)
    requires Inv(l) && Step(l, c).Err?
    ensures IsSo(l, c, Step(l, c).error)
  {
    if c.CreateReceipt? {
      NewReceiptRefusalIsSo(l, c);
    } else if c.UpdateReceipt? {
      EditedReceiptRefusalIsSo(l, c);
    } else if !c.DeleteReceipt? {
      BillRefusalIsSo(l, c);
    }
  }
}
