/**
 Confirming over whole runs: every stored document came from one that was accepted, and
 while the tax rates stay the same recomputing it is accepted again.
 */
module ConfirmRuns {
  import opened Sums
  import opened LineCalc
  import opened Documents
  import opened InvoiceBalance
  import opened SalesLedger

  /** The stored form of an accepted document whose figures fit their columns. */
  ghost predicate CameFromAccepted(stored: Document, active: Rates) {
    exists doc :: FitsColumns(doc) && DocumentCalc(doc, active).Ok? && stored == Stored(doc)
  }

  ghost predicate AllCameFromAccepted(invoices: map<Id, Invoice>, active: Rates) {
    forall i :: i in invoices ==> CameFromAccepted(invoices[i].document, active)
  }

  /** A call that sees these tax rates and submits figures within column precision. */
  predicate Plain(c: Command, active: Rates) {
    match c
    case CreateInvoice(_, _, _, doc, rates) => rates == active && FitsColumns(doc)
    case EditInvoice(_, _, doc, rates) => rates == active && FitsColumns(doc)
    case ConfirmInvoice(_, rates) => rates == active
    case _ => true
  }

  predicate SameDocuments(before: map<Id, Invoice>, after: map<Id, Invoice>) {
    forall i :: i in after ==> i in before && after[i].document == before[i].document
  }

  lemma {:induction false} ApplyingKeepsDocuments(invoices: map<Id, Invoice>, mitra: Id, s: seq<AllocationInput>)
    requires ApplyAll(invoices, mitra, s).Ok?
    ensures SameDocuments(invoices, ApplyAll(invoices, mitra, s).value.invoices)
  {
    if s != [] {
      ApplyingKeepsDocuments(invoices, mitra, s[..|s| - 1]);
    }
  }

  lemma {:induction false} ReversingKeepsDocuments(invoices: map<Id, Invoice>, s: seq<Allocation>)
    requires ReverseAll(invoices, s).Ok?
    ensures SameDocuments(invoices, ReverseAll(invoices, s).value)
  {
    if s != [] {
      ReversingKeepsDocuments(invoices, s[..|s| - 1]);
    }
  }

  lemma SameDocumentsStayGood(before: map<Id, Invoice>, after: map<Id, Invoice>, active: Rates)
    requires AllCameFromAccepted(before, active) && SameDocuments(before, after)
    ensures AllCameFromAccepted(after, active)
  {
  }

  lemma PutReceiptKeepsDocuments(l: Ledger, id: Id, mitra: Id, s: seq<AllocationInput>)
    requires PutReceipt(l, id, mitra, s).Ok?
    ensures SameDocuments(l.invoices, PutReceipt(l, id, mitra, s).value.invoices)
  {
    ApplyingKeepsDocuments(l.invoices, mitra, s);
  }

  lemma TakeBackKeepsDocuments(l: Ledger, id: Id)
    requires id in l.receipts && TakeBack(l, id).Ok?
    ensures SameDocuments(l.invoices, TakeBack(l, id).value.invoices)
  {
    ReversingKeepsDocuments(l.invoices, l.receipts[id].allocations);
  }

  lemma ReceiptCallKeepsDocuments(l: Ledger, c: Command)
    requires c.CreateReceipt? || c.UpdateReceipt? || c.DeleteReceipt?
    requires Step(l, c).Ok?
    ensures SameDocuments(l.invoices, Step(l, c).value.invoices)
  {
    match c
    case CreateReceipt(id, mitra, s) => PutReceiptKeepsDocuments(l, id, mitra, Normalize(s).value);
    case UpdateReceipt(id, mitra, s) =>
      TakeBackKeepsDocuments(l, id);
      PutReceiptKeepsDocuments(TakeBack(l, id).value, id, mitra, Normalize(s).value);
    case DeleteReceipt(id) => TakeBackKeepsDocuments(l, id);
  }

  lemma PutInvoiceStaysGood(l: Ledger, id: Id, inv: Invoice, active: Rates)
    requires AllCameFromAccepted(l.invoices, active) && CameFromAccepted(inv.document, active)
    ensures AllCameFromAccepted(PutInvoice(l, id, inv).invoices, active)
  {
  }

  lemma StepKeepsDocuments(l: Ledger, c: Command, active: Rates)
    requires AllCameFromAccepted(l.invoices, active) && Plain(c, active) && Step(l, c).Ok?
    ensures AllCameFromAccepted(Step(l, c).value.invoices, active)
  {
    if c.CreateInvoice? || c.EditInvoice? {
      SubmittedStaysGood(l, c, active);
    } else if c.CreateReceipt? || c.UpdateReceipt? || c.DeleteReceipt? {
      ReceiptCallStaysGood(l, c, active);
    } else {
      OtherCallKeepsDocuments(l, c);
      SameDocumentsStayGood(l.invoices, Step(l, c).value.invoices, active);
    }
  }

  lemma SubmittedStaysGood(l: Ledger, c: Command, active: Rates)
    requires AllCameFromAccepted(l.invoices, active) && Plain(c, active) && Step(l, c).Ok?
    requires c.CreateInvoice? || c.EditInvoice?
    ensures AllCameFromAccepted(Step(l, c).value.invoices, active)
  {
    PutInvoiceStaysGood(l, c.id, Step(l, c).value.invoices[c.id], active);
  }

  lemma OtherCallKeepsDocuments(l: Ledger, c: Command)
    requires c.ConfirmInvoice? || c.RevertInvoice? || c.CancelInvoice? || c.DeleteInvoice? || c.CreatePayment? || c.VerifyPayment?
    requires Step(l, c).Ok?
    ensures SameDocuments(l.invoices, Step(l, c).value.invoices)
  {
  }

  lemma ReceiptCallStaysGood(l: Ledger, c: Command, active: Rates)
    requires c.CreateReceipt? || c.UpdateReceipt? || c.DeleteReceipt?
    requires AllCameFromAccepted(l.invoices, active) && Step(l, c).Ok?
    ensures AllCameFromAccepted(Step(l, c).value.invoices, active)
  {
    ReceiptCallKeepsDocuments(l, c);
    SameDocumentsStayGood(l.invoices, Step(l, c).value.invoices, active);
  }

  lemma {:induction false} RunKeepsDocuments(commands: seq<Command>, active: Rates)
    requires forall k :: 0 <= k < |commands| ==> Plain(commands[k], active)
    ensures AllCameFromAccepted(Run(commands).invoices, active)
  {
    if commands != [] {
      var n := |commands| - 1;
      RunKeepsDocuments(commands[..n], active);
      if Step(Run(commands[..n]), commands[n]).Ok? {
        StepKeepsDocuments(Run(commands[..n]), commands[n], active);
      }
    }
  }

  lemma AcceptedAgain(stored: Document, again: Document, active: Rates)
    requires CameFromAccepted(stored, active) && ReadsBack(stored, again)
    ensures DocumentCalc(again, active).Ok?
  {
    var doc :| FitsColumns(doc) && DocumentCalc(doc, active).Ok? && stored == Stored(doc);
    RecomputingAStoredDocument(doc, again, active);
  }

  /**
   At the end of any run at constant tax rates, with figures within column precision,
   Confirm accepts every live draft, in whatever order its tax rows are loaded.
   */
  lemma ConfirmNeverRejects(commands: seq<Command>, id: Id, again: Document, active: Rates)
    requires forall k :: 0 <= k < |commands| ==> Plain(commands[k], active)
    requires Live(Run(commands).invoices, id) && Run(commands).invoices[id].status == Draft
    requires ReadsBack(Run(commands).invoices[id].document, again)
    ensures var l := Run(commands);
            DoConfirmInvoice(PutInvoice(l, id, l.invoices[id].(document := again)), id, active).Ok?
  {
    RunKeepsDocuments(commands, active);
    AcceptedAgain(Run(commands).invoices[id].document, again, active);
  }
}
