/**
 An invoice or bill as a document: the service-level calculation (tax rates
 resolved, shipping added on top), what the line tables keep of it, and what
 Confirm sees when it re-validates the stored form.
 */
module Documents {
  import opened Results
  import opened Money
  import opened Text
  import opened LineCalc
  import opened LineCalcLaws

  datatype Document = Document(lines: seq<LineInput>, discount: Discount, shipping: real)

  /** The specification of calc(): `active` holds the rate of every active tax. */
  function DocumentCalc(doc: Document, active: Rates): Result<LinesCalc, Fault> {
    if doc.shipping < 0.0 then Err(NegativeShipping)
    else
      match Calc(doc.lines, active, doc.discount)
      case Err(fault) => Err(fault)
      case Ok(c) => Ok(c.(grandTotal := ToCents(Units(c.grandTotal) + doc.shipping)))
  }

  // --- resolving the referenced tax rates -------------------------------------

  function Mentioned(lines: seq<LineInput>): set<string> {
    set l, id | l in lines && id in l.taxIds && !Blank(id) :: Trim(id)
  }

  /** Looks up every referenced tax once, skipping blanks and repeats. */
  method ResolveTaxRates(lines: seq<LineInput>, active: Rates) returns (rates: Rates)
    ensures rates == map id | id in Mentioned(lines) && id in active :: active[id]
  {
    var seen: set<string> := {};
    var i := 0;
    while i < |lines|
      invariant 0 <= i <= |lines|
      invariant seen == Mentioned(lines[..i])
    {
      var ids := lines[i].taxIds;
      var j := 0;
      ghost var before := seen;
      while j < |ids|
        invariant 0 <= j <= |ids|
        invariant seen == before + set id | id in ids[..j] && !Blank(id) :: Trim(id)
      {
        var id := Trim(ids[j]);
        assert ids[..j + 1] == ids[..j] + [ids[j]];
        if id != "" && id !in seen {
          seen := seen + {id};
        }
        j := j + 1;
      }
      assert ids[..j] == ids;
      assert lines[..i + 1] == lines[..i] + [lines[i]];
      i := i + 1;
    }
    assert lines[..i] == lines;
    rates := map id | id in seen && id in active :: active[id];
  }

  lemma {:induction false} SameRateSums(ids: seq<string>, rates: Rates, active: Rates, inclusive: bool)
    requires forall id :: id in ids && !Blank(id) ==>
                            (Trim(id) in rates <==> Trim(id) in active) && (Trim(id) in rates ==> rates[Trim(id)] == active[Trim(id)])
    ensures RateSum(ids, rates, inclusive) == RateSum(ids, active, inclusive)
  {
    if ids != [] {
      SameRateSums(ids[..|ids| - 1], rates, active, inclusive);
      assert ids[|ids| - 1] in ids;
    }
  }

  lemma {:induction false} UnmentionedTaxesDoNotMatter(lines: seq<LineInput>, rates: Rates, active: Rates)
    requires forall id :: id in Mentioned(lines) ==> (id in rates <==> id in active) && (id in rates ==> rates[id] == active[id])
    ensures FirstFault(lines, rates) == FirstFault(lines, active)
    ensures LineResults(lines, rates) == LineResults(lines, active)
    ensures forall m :: SumOf(lines, rates, m) == SumOf(lines, active, m)
  {
    if lines != [] {
      var n := |lines| - 1;
      var last := lines[n];
      assert Mentioned(lines[..n]) <= Mentioned(lines);
      UnmentionedTaxesDoNotMatter(lines[..n], rates, active);
      assert last in lines;
      forall id | id in last.taxIds && !Blank(id)
        ensures Trim(id) in Mentioned(lines)
      {
      }
      SameRateSums(last.taxIds, rates, active, false);
      SameRateSums(last.taxIds, rates, active, true);
      SameRatesSameLine(last, n, rates, active);
    }
  }

  lemma SameRatesSameLine(l: LineInput, i: nat, rates: Rates, active: Rates)
    requires TaxesKnown(l.taxIds, rates) <==> TaxesKnown(l.taxIds, active)
    requires RateSum(l.taxIds, rates, false) == RateSum(l.taxIds, active, false)
    requires RateSum(l.taxIds, rates, true) == RateSum(l.taxIds, active, true)
    ensures LineFault(l, i, rates) == LineFault(l, i, active)
    ensures ResultOf(l, rates) == ResultOf(l, active)
    ensures forall m :: MeasureOf(l, rates, m) == MeasureOf(l, active, m)
  {
  }

  lemma ResolvedRatesSuffice(lines: seq<LineInput>, rates: Rates, active: Rates, d: Discount)
    requires rates == map id | id in Mentioned(lines) && id in active :: active[id]
    ensures Calc(lines, rates, d) == Calc(lines, active, d)
  {
    UnmentionedTaxesDoNotMatter(lines, rates, active);
    SameSumsSameCalc(lines, rates, active, d);
  }

  lemma SameSumsSameCalc(lines: seq<LineInput>, rates: Rates, active: Rates, d: Discount)
    requires FirstFault(lines, rates) == FirstFault(lines, active) && LineResults(lines, rates) == LineResults(lines, active)
    requires SumOf(lines, rates, NetAmount) == SumOf(lines, active, NetAmount)
    requires SumOf(lines, rates, DiscountGiven) == SumOf(lines, active, DiscountGiven)
    requires SumOf(lines, rates, TaxCharged) == SumOf(lines, active, TaxCharged)
    requires SumOf(lines, rates, LineTotal) == SumOf(lines, active, LineTotal)
    ensures Calc(lines, rates, d) == Calc(lines, active, d)
  {
  }

  /** The lines at the rates of their own taxes. */
  method CalcResolved(lines: seq<LineInput>, d: Discount, active: Rates) returns (r: Result<LinesCalc, Fault>)
    ensures r == Calc(lines, active, d)
  {
    var rates := ResolveTaxRates(lines, active);
    ResolvedRatesSuffice(lines, rates, active, d);
    r := CalcLines(lines, rates, d);
  }

  /** calc(): resolve the rates, compute the lines, add the shipping fee. */
  method CalcDocument(doc: Document, active: Rates) returns (r: Result<LinesCalc, Fault>)
    ensures r == DocumentCalc(doc, active)
  {
    if doc.shipping < 0.0 {
      return Err(NegativeShipping);
    }
    r := CalcResolved(doc.lines, doc.discount, active);
    if r.Ok? {
      var c := r.value;
      r := Ok(c.(grandTotal := ToCents(Units(c.grandTotal) + doc.shipping)));
    }
  }

  /**
   The grand total of an accepted document is the rounded sum of its line totals,
   minus the document discount, plus the rounded shipping fee; it is never
   negative, which is what the settlement ledgers start from.
   */
  lemma AcceptedGrandTotal(doc: Document, active: Rates)
    requires DocumentCalc(doc, active).Ok?
    ensures var c := DocumentCalc(doc, active).value;
            && c.grandTotal ==
               ToCents(SumOf(doc.lines, active, LineTotal)) - c.additionalDiscountAmount + ToCents(doc.shipping)
            && 0 <= ToCents(doc.shipping) <= c.grandTotal
  {
    AcceptedTotals(doc.lines, active, doc.discount);
    NonNegativeCents(doc.shipping);
    AddingToStored(Calc(doc.lines, active, doc.discount).value.grandTotal, doc.shipping);
  }

  // --- saving and reloading ---------------------------------------------------

  /** The line-tax rows written for a line: trimmed, blanks dropped, repeats kept. */
  function StoredTaxes(ids: seq<string>): seq<string> {
    if ids == [] then []
    else
      var id := Trim(ids[|ids| - 1]);
      StoredTaxes(ids[..|ids| - 1]) + if id == "" then [] else [id]
  }

  /** What the line tables keep of one line. */
  function StoredLine(l: LineInput): LineInput {
    LineInput(Trim(l.productName), Trim(l.description), Quantize4(l.quantity), Quantize2(l.unitPrice),
              DiscountKind(l.discountType), Quantize2(l.discountValue), StoredTaxes(l.taxIds))
  }

  function Stored(doc: Document): Document {
    Document(seq(|doc.lines|, i requires 0 <= i < |doc.lines| => StoredLine(doc.lines[i])),
             Discount(DiscountKind(doc.discount.kind), Quantize2(doc.discount.value)), Quantize2(doc.shipping))
  }

  /** A column with `scale` steps to the unit keeps the step nearest to v. */
  ghost predicate NearestStep(kept: real, v: real, scale: real) {
    && (kept * scale).Floor as real == kept * scale
    && -0.5 <= kept * scale - v * scale <= 0.5
  }

  lemma QuantizedIsNearest(v: real)
    ensures NearestStep(Quantize2(v), v, 100.0) && NearestStep(Quantize4(v), v, 10000.0)
  {
    RoundIsNearest(v * 100.0);
    RoundIsNearest(v * 10000.0);
    assert Quantize2(v) * 100.0 == ToCents(v) as real;
    assert Quantize4(v) * 10000.0 == Round(v * 10000.0) as real;
  }

  /** The ids that are not blank, trimmed, each as often as it was submitted. */
  ghost predicate KeepsTaxes(kept: seq<string>, ids: seq<string>) {
    forall id :: multiset(kept)[id] == if id == "" then 0 else multiset(Trimmed(ids))[id]
  }

  function Trimmed(ids: seq<string>): seq<string> {
    seq(|ids|, i requires 0 <= i < |ids| => Trim(ids[i]))
  }

  lemma {:induction false} StoredTaxesAreSubmitted(ids: seq<string>)
    ensures KeepsTaxes(StoredTaxes(ids), ids)
  {
    if ids != [] {
      var n := |ids| - 1;
      StoredTaxesAreSubmitted(ids[..n]);
      assert Trimmed(ids) == Trimmed(ids[..n]) + [Trim(ids[n])];
    }
  }

  /** Each column of a stored line holds the field submitted for it. */
  ghost predicate KeepsLine(kept: LineInput, l: LineInput) {
    && kept.productName == Trim(l.productName) && kept.description == Trim(l.description)
    && NearestStep(kept.quantity, l.quantity, 10000.0) && NearestStep(kept.unitPrice, l.unitPrice, 100.0)
    && kept.discountType == (if l.discountType == "" then "percent" else l.discountType)
    && NearestStep(kept.discountValue, l.discountValue, 100.0)
    && KeepsTaxes(kept.taxIds, l.taxIds)
  }

  /** Saving keeps the lines in order and every field in its column, to the precision of the column. */
  lemma StoredKeepsTheDocument(doc: Document)
    ensures var kept := Stored(doc);
            && |kept.lines| == |doc.lines|
            && (forall i :: 0 <= i < |doc.lines| ==> KeepsLine(kept.lines[i], doc.lines[i]))
            && kept.discount.kind == (if doc.discount.kind == "" then "percent" else doc.discount.kind)
            && NearestStep(kept.discount.value, doc.discount.value, 100.0)
            && NearestStep(kept.shipping, doc.shipping, 100.0)
  {
    forall i | 0 <= i < |doc.lines|
      ensures KeepsLine(Stored(doc).lines[i], doc.lines[i])
    {
      var l := doc.lines[i];
      QuantizedIsNearest(l.quantity);
      QuantizedIsNearest(l.unitPrice);
      QuantizedIsNearest(l.discountValue);
      StoredTaxesAreSubmitted(l.taxIds);
    }
    QuantizedIsNearest(doc.discount.value);
    QuantizedIsNearest(doc.shipping);
  }

  /** Lines come back in order, but the tax rows of a line come back in any order. */
  predicate ReadsBack(stored: Document, again: Document) {
    && again.discount == stored.discount && again.shipping == stored.shipping
    && |again.lines| == |stored.lines|
    && forall i :: 0 <= i < |again.lines| ==> LineReadsBack(stored.lines[i], again.lines[i])
  }

  predicate LineReadsBack(stored: LineInput, again: LineInput) {
    && again.(taxIds := stored.taxIds) == stored
    && multiset(again.taxIds) == multiset(stored.taxIds)
  }

  /** No figure of the line has more decimals than its column. */
  predicate LineFitsColumns(l: LineInput) {
    && Quantize4(l.quantity) == l.quantity && Quantize2(l.unitPrice) == l.unitPrice
    && Quantize2(l.discountValue) == l.discountValue
  }

  predicate FitsColumns(doc: Document) {
    && (forall l :: l in doc.lines ==> LineFitsColumns(l))
    && Quantize2(doc.discount.value) == doc.discount.value && Quantize2(doc.shipping) == doc.shipping
  }

  lemma RateOfStoredTax(raw: string, rates: Rates, inclusive: bool)
    ensures RateSum(StoredTaxes([raw]), rates, inclusive) == RateSum([raw], rates, inclusive)
  {
    TrimIsIdempotent(raw);
    assert [raw][..0] == [] && [Trim(raw)][..0] == [];
    assert StoredTaxes([raw]) == if Blank(raw) then [] else [Trim(raw)];
  }

  lemma StoredTaxesSnoc(ids: seq<string>, raw: string)
    ensures StoredTaxes(ids + [raw]) == StoredTaxes(ids) + StoredTaxes([raw])
  {
    assert (ids + [raw])[..|ids|] == ids;
    assert [raw][..0] == [];
    assert StoredTaxes([raw]) == if Blank(raw) then [] else [Trim(raw)];
  }

  lemma {:induction false} StoredTaxesKeepRates(ids: seq<string>, rates: Rates, inclusive: bool)
    ensures RateSum(StoredTaxes(ids), rates, inclusive) == RateSum(ids, rates, inclusive)
  {
    if ids == [] {
      assert StoredTaxes(ids) == ids;
    } else {
      var n := |ids| - 1;
      StoredTaxesKeepRates(ids[..n], rates, inclusive);
      OneMoreStoredTax(ids[..n], ids[n], rates, inclusive);
      assert ids[..n] + [ids[n]] == ids;
    }
  }

  lemma OneMoreStoredTax(ids: seq<string>, raw: string, rates: Rates, inclusive: bool)
    requires RateSum(StoredTaxes(ids), rates, inclusive) == RateSum(ids, rates, inclusive)
    ensures RateSum(StoredTaxes(ids + [raw]), rates, inclusive) == RateSum(ids + [raw], rates, inclusive)
  {
    StoredTaxesSnoc(ids, raw);
    RateSumConcat(StoredTaxes(ids), StoredTaxes([raw]), rates, inclusive);
    RateSumConcat(ids, [raw], rates, inclusive);
    RateOfStoredTax(raw, rates, inclusive);
  }

  lemma {:induction false} StoredTaxesAreTheNonBlankOnes(ids: seq<string>, rates: Rates)
    ensures TaxesKnown(StoredTaxes(ids), rates) <==> TaxesKnown(ids, rates)
  {
    if ids != [] {
      var n := |ids| - 1;
      StoredTaxesAreTheNonBlankOnes(ids[..n], rates);
      TrimIsIdempotent(ids[n]);
      assert ids == ids[..n] + [ids[n]];
    }
  }

  lemma RateSumWithout(ids: seq<string>, k: nat, rates: Rates, inclusive: bool)
    requires k < |ids|
    ensures RateSum(ids, rates, inclusive) ==
            RateSum(ids[..k] + ids[k + 1..], rates, inclusive) + RateSum([ids[k]], rates, inclusive)
  {
    assert ids == ids[..k] + ([ids[k]] + ids[k + 1..]);
    RateSumConcat(ids[..k], [ids[k]] + ids[k + 1..], rates, inclusive);
    RateSumConcat([ids[k]], ids[k + 1..], rates, inclusive);
    RateSumConcat(ids[..k], ids[k + 1..], rates, inclusive);
  }

  lemma WithoutOne(s: seq<string>, k: nat)
    requires k < |s|
    ensures multiset(s[..k] + s[k + 1..]) == multiset(s) - multiset{s[k]}
  {
    assert s == s[..k] + [s[k]] + s[k + 1..];
  }

  lemma {:induction false} RateSumIgnoresOrder(a: seq<string>, b: seq<string>, rates: Rates, inclusive: bool)
    requires multiset(a) == multiset(b)
    ensures RateSum(a, rates, inclusive) == RateSum(b, rates, inclusive)
    decreases |a|
  {
    if a == [] {
      assert |multiset(b)| == 0;
    } else {
      var n := |a| - 1;
      assert a[n] in multiset(b);
      var k :| 0 <= k < |b| && b[k] == a[n];
      var rest := b[..k] + b[k + 1..];
      WithoutOne(a, n);
      WithoutOne(b, k);
      assert a[..n] + a[n + 1..] == a[..n];
      RateSumIgnoresOrder(a[..n], rest, rates, inclusive);
      RateSumWithout(b, k, rates, inclusive);
      RateSumSnoc(a, n, rates, inclusive);
      assert a[..n + 1] == a;
    }
  }

  lemma ReadBackTaxes(ids: seq<string>, again: seq<string>, rates: Rates)
    requires multiset(again) == multiset(StoredTaxes(ids))
    ensures TaxesKnown(again, rates) <==> TaxesKnown(ids, rates)
    ensures forall inclusive :: RateSum(again, rates, inclusive) == RateSum(ids, rates, inclusive)
  {
    forall id
      ensures id in again <==> id in StoredTaxes(ids)
    {
      assert id in again <==> id in multiset(again);
    }
    StoredTaxesAreTheNonBlankOnes(ids, rates);
    forall inclusive
      ensures RateSum(again, rates, inclusive) == RateSum(ids, rates, inclusive)
    {
      RateSumIgnoresOrder(again, StoredTaxes(ids), rates, inclusive);
      StoredTaxesKeepRates(ids, rates, inclusive);
    }
  }

  lemma SameFiguresSameLine(l: LineInput, again: LineInput, i: nat, rates: Rates)
    requires again.quantity == l.quantity && again.unitPrice == l.unitPrice
    requires again.discountType == DiscountKind(l.discountType) && again.discountValue == l.discountValue
    requires Blank(again.productName) == Blank(l.productName)
    requires TaxesKnown(again.taxIds, rates) == TaxesKnown(l.taxIds, rates)
    requires forall inclusive :: RateSum(again.taxIds, rates, inclusive) == RateSum(l.taxIds, rates, inclusive)
    ensures LineFault(again, i, rates) == LineFault(l, i, rates)
    ensures forall m :: MeasureOf(again, rates, m) == MeasureOf(l, rates, m)
  {
    assert Gross(again) == Gross(l);
    assert Net(again) == Net(l);
  }

  /** A line within column precision computes the same after a save and a reload. */
  lemma LineSurvivesStorage(l: LineInput, again: LineInput, i: nat, rates: Rates)
    requires LineFitsColumns(l) && LineReadsBack(StoredLine(l), again)
    ensures LineFault(again, i, rates) == LineFault(l, i, rates)
    ensures forall m :: MeasureOf(again, rates, m) == MeasureOf(l, rates, m)
  {
    ReadBackTaxes(l.taxIds, again.taxIds, rates);
    TrimIsIdempotent(l.productName);
    assert again == StoredLine(l).(taxIds := again.taxIds);
    SameFiguresSameLine(l, again, i, rates);
  }

  lemma {:induction false} LinesSurviveStorage(lines: seq<LineInput>, again: seq<LineInput>, rates: Rates)
    requires |lines| == |again|
    requires forall i :: 0 <= i < |lines| ==> LineFitsColumns(lines[i]) && LineReadsBack(StoredLine(lines[i]), again[i])
    ensures FirstFault(again, rates) == FirstFault(lines, rates)
    ensures forall m :: SumOf(again, rates, m) == SumOf(lines, rates, m)
  {
    if lines != [] {
      var n := |lines| - 1;
      LinesSurviveStorage(lines[..n], again[..n], rates);
      LineSurvivesStorage(lines[n], again[n], n, rates);
    }
  }

  lemma StoredLinesReadBack(doc: Document, again: Document)
    requires FitsColumns(doc) && ReadsBack(Stored(doc), again)
    ensures |again.lines| == |doc.lines|
    ensures forall i :: 0 <= i < |doc.lines| ==>
                          LineFitsColumns(doc.lines[i]) && LineReadsBack(StoredLine(doc.lines[i]), again.lines[i])
  {
    forall i | 0 <= i < |doc.lines|
      ensures LineFitsColumns(doc.lines[i]) && LineReadsBack(StoredLine(doc.lines[i]), again.lines[i])
    {
      assert doc.lines[i] in doc.lines;
      assert LineReadsBack(Stored(doc).lines[i], again.lines[i]);
    }
  }

  lemma ReadBackCalc(doc: Document, again: Document, active: Rates)
    requires FitsColumns(doc) && ReadsBack(Stored(doc), again)
    ensures again.shipping == doc.shipping
    ensures var before, after := Calc(doc.lines, active, doc.discount), Calc(again.lines, active, again.discount);
            && before.Ok? == after.Ok?
            && (before.Ok? ==> after.value.(lines := []) == before.value.(lines := []))
  {
    StoredLinesReadBack(doc, again);
    LinesSurviveStorage(doc.lines, again.lines, active);
    SameSumsSameTotals(doc.lines, again.lines, active, doc.discount, again.discount);
  }

  /**
   Save, reload in any tax order, recompute at unchanged rates: for figures within
   column precision the verdict and every total are the same, so Confirm never
   rejects a document that was accepted when it was created.
   */
  lemma RecomputingAStoredDocument(doc: Document, again: Document, active: Rates)
    requires FitsColumns(doc) && ReadsBack(Stored(doc), again)
    ensures var before, after := DocumentCalc(doc, active), DocumentCalc(again, active);
            && before.Ok? == after.Ok?
            && (before.Ok? ==> after.value.(lines := []) == before.value.(lines := []))
  {
    ReadBackCalc(doc, again, active);
  }

  lemma SameSumsSameTotals(lines: seq<LineInput>, again: seq<LineInput>, rates: Rates, d: Discount, d': Discount)
    requires |again| == |lines| && FirstFault(again, rates) == FirstFault(lines, rates)
    requires forall m :: SumOf(again, rates, m) == SumOf(lines, rates, m)
    requires d' == Discount(DiscountKind(d.kind), d.value)
    ensures var before, after := Calc(lines, rates, d), Calc(again, rates, d');
            && before.Ok? == after.Ok?
            && (before.Ok? ==> after.value.(lines := []) == before.value.(lines := []))
  {
    assert SumOf(again, rates, NetAmount) == SumOf(lines, rates, NetAmount);
    assert SumOf(again, rates, DiscountGiven) == SumOf(lines, rates, DiscountGiven);
    assert SumOf(again, rates, TaxCharged) == SumOf(lines, rates, TaxCharged);
    assert SumOf(again, rates, LineTotal) == SumOf(lines, rates, LineTotal);
  }

  // --- beyond column precision ------------------------------------------------

  /** The stored figures of the line still pass the two checks that rounding can break. */
  predicate StoredLineHolds(l: LineInput) {
    && 0.0 < Quantize4(l.quantity)
    && (DiscountKind(l.discountType) == "amount" ==>
          Quantize2(l.discountValue) <= Quantize4(l.quantity) * Quantize2(l.unitPrice))
  }

  /** The whole stored document does: every line, and a flat document discount. */
  predicate StoredFormHolds(doc: Document, active: Rates) {
    && (forall l :: l in doc.lines ==> StoredLineHolds(l))
    && (DiscountKind(doc.discount.kind) == "amount" ==>
          Quantize2(doc.discount.value) <= Units(ToCents(SumOf(Stored(doc).lines, active, NetAmount))))
  }

  lemma QuantizeKeepsRange(v: real)
    requires 0.0 <= v
    ensures 0.0 <= Quantize2(v)
    ensures v <= 100.0 ==> Quantize2(v) <= 100.0
  {
    NonNegativeCents(v);
    if v <= 100.0 {
      StoredFits(v, 10000);
    }
  }

  /** The checks on the figures of a line. */
  predicate FiguresPass(quantity: real, unitPrice: real, kind: string, discountValue: real) {
    && quantity > 0.0 && unitPrice >= 0.0 && (kind == "percent" || kind == "amount")
    && (kind == "amount" ==> 0.0 <= discountValue <= quantity * unitPrice)
    && (kind == "percent" ==> 0.0 <= discountValue <= 100.0)
  }

  lemma LinePassesExactlyWhen(l: LineInput, i: nat, rates: Rates)
    ensures LineFault(l, i, rates).None?
       <==> && !Blank(l.productName) && TaxesKnown(l.taxIds, rates)
            && FiguresPass(l.quantity, l.unitPrice, DiscountKind(l.discountType), l.discountValue)
  {
  }

  lemma AcceptedLineAfterStorage(l: LineInput, again: LineInput, i: nat, rates: Rates)
    requires LineFault(l, i, rates).None? && LineReadsBack(StoredLine(l), again)
    ensures LineFault(again, i, rates).None? <==> StoredLineHolds(l)
  {
    LinePassesExactlyWhen(l, i, rates);
    LinePassesExactlyWhen(again, i, rates);
    QuantizeKeepsRange(l.unitPrice);
    QuantizeKeepsRange(l.discountValue);
    ReadBackTaxes(l.taxIds, again.taxIds, rates);
    TrimIsIdempotent(l.productName);
  }

  lemma {:induction false} NoFaultAnywhere(lines: seq<LineInput>, rates: Rates)
    ensures FirstFault(lines, rates).None? <==> forall i :: 0 <= i < |lines| ==> LineFault(lines[i], i, rates).None?
  {
    if lines != [] {
      var n := |lines| - 1;
      NoFaultAnywhere(lines[..n], rates);
      assert forall i :: 0 <= i < n ==> lines[..n][i] == lines[i];
    }
  }

  lemma {:induction false} NetIgnoresTaxes(lines: seq<LineInput>, again: seq<LineInput>, rates: Rates)
    requires |lines| == |again|
    requires forall i :: 0 <= i < |lines| ==> again[i].(taxIds := lines[i].taxIds) == lines[i]
    ensures SumOf(again, rates, NetAmount) == SumOf(lines, rates, NetAmount)
  {
    if lines != [] {
      var n := |lines| - 1;
      NetIgnoresTaxes(lines[..n], again[..n], rates);
      assert Gross(again[n]) == Gross(lines[n]);
    }
  }

  lemma LinesAfterStorage(doc: Document, again: Document, active: Rates)
    requires FirstFault(doc.lines, active).None? && ReadsBack(Stored(doc), again)
    ensures FirstFault(again.lines, active).None? <==> forall l :: l in doc.lines ==> StoredLineHolds(l)
  {
    NoFaultAnywhere(doc.lines, active);
    NoFaultAnywhere(again.lines, active);
    forall i | 0 <= i < |doc.lines|
      ensures LineFault(again.lines[i], i, active).None? <==> StoredLineHolds(doc.lines[i])
    {
      assert LineReadsBack(Stored(doc).lines[i], again.lines[i]);
      AcceptedLineAfterStorage(doc.lines[i], again.lines[i], i, active);
    }
    if forall i :: 0 <= i < |doc.lines| ==> LineFault(again.lines[i], i, active).None? {
      forall l | l in doc.lines
        ensures StoredLineHolds(l)
      {
        var i :| 0 <= i < |doc.lines| && doc.lines[i] == l;
        assert LineFault(again.lines[i], i, active).None?;
      }
    } else {
      var i :| 0 <= i < |doc.lines| && LineFault(again.lines[i], i, active).Some?;
      assert doc.lines[i] in doc.lines;
    }
  }

  lemma AdditionalAfterStorage(d: Discount, subtotal: Cents, subtotal': Cents)
    requires AdditionalFault(d, subtotal).None?
    ensures AdditionalFault(Discount(DiscountKind(d.kind), Quantize2(d.value)), subtotal').None? <==>
            (DiscountKind(d.kind) == "amount" ==> Quantize2(d.value) <= Units(subtotal'))
  {
    QuantizeKeepsRange(d.value);
  }

  /**
   For figures of any precision: an accepted document is accepted again by Confirm
   exactly when its stored figures still pass the quantity and flat-discount checks.
   */
  lemma ConfirmAcceptsExactlyWhen(doc: Document, again: Document, active: Rates)
    requires DocumentCalc(doc, active).Ok? && ReadsBack(Stored(doc), again)
    ensures DocumentCalc(again, active).Ok? <==> StoredFormHolds(doc, active)
  {
    LinesAfterStorage(doc, again, active);
    QuantizeKeepsRange(doc.shipping);
    AdditionalAfterStorage(doc.discount, ToCents(SumOf(doc.lines, active, NetAmount)),
                           ToCents(SumOf(again.lines, active, NetAmount)));
    forall i | 0 <= i < |again.lines|
      ensures again.lines[i].(taxIds := Stored(doc).lines[i].taxIds) == Stored(doc).lines[i]
    {
      assert LineReadsBack(Stored(doc).lines[i], again.lines[i]);
    }
    NetIgnoresTaxes(Stored(doc).lines, again.lines, active);
  }

  /**
   Column precision is needed: 0.00004 units of an article are accepted on creation,
   stored as 0.0000, and then refused by Confirm.
   */
  lemma ConfirmCanRejectAnAcceptedDocument() returns (doc: Document)
    ensures DocumentCalc(doc, map[]).Ok?
    ensures DocumentCalc(Stored(doc), map[]) == Err(QuantityNotPositive(0))
  {
    var l := LineInput("Ore", "", 0.00004, 1000000.0, "", 0.0, []);
    doc := Document([l], Discount("", 0.0), 0.0);
    assert Trim("Ore") == "Ore" by {
      assert TrimLeft("Ore") == "Ore";
    }
    assert doc.lines[..0] == [];
    assert LineFault(l, 0, map[]).None?;
    assert FirstFault(doc.lines, map[]).None?;
    var stored := StoredLine(l);
    FloorOf(0.00004 * 10000.0 + 0.5, 0);
    assert stored.quantity == 0.0;
    assert Stored(doc).lines == [stored];
    assert Stored(doc).lines[..0] == [];
    TrimIsIdempotent("Ore");
    assert LineFault(stored, 0, map[]) == Some(QuantityNotPositive(0));
  }
}
