/** What the line-item arithmetic guarantees for every document it accepts. */
module LineCalcLaws {
  import opened Money
  import opened Text
  import opened LineCalc

  // --- bounds -----------------------------------------------------------------

  lemma PercentBounds(x: real, p: real)
    requires 0.0 <= x && 0.0 <= p
    ensures 0.0 <= PercentOf(x, p)
    ensures p <= 100.0 ==> PercentOf(x, p) <= x
  {
    assert 0.0 <= x * p;
    if p <= 100.0 {
      assert x * p <= x * 100.0;
    }
  }

  lemma LineBounds(l: LineInput, i: nat, rates: Rates)
    requires LineFault(l, i, rates).None?
    ensures 0.0 <= DiscountAmount(l) <= Gross(l)
    ensures 0.0 <= Net(l) <= MeasureOf(l, rates, LineTotal)
  {
    assert 0.0 <= Gross(l);
    if DiscountKind(l.discountType) == "percent" {
      PercentBounds(Gross(l), l.discountValue);
    }
    PercentBounds(Net(l), RateSum(l.taxIds, rates, false));
  }

  lemma {:induction false} SumBounds(lines: seq<LineInput>, rates: Rates)
    requires FirstFault(lines, rates).None?
    ensures 0.0 <= SumOf(lines, rates, NetAmount) <= SumOf(lines, rates, LineTotal)
  {
    if lines != [] {
      SumBounds(lines[..|lines| - 1], rates);
      LineBounds(lines[|lines| - 1], |lines| - 1, rates);
    }
  }

  /**
   Every accepted document: the document discount lies between nothing and the
   subtotal, and what is left of the grand total is the rounded sum of the line
   totals minus exactly that discount, never negative.
   */
  lemma AcceptedTotals(lines: seq<LineInput>, rates: Rates, d: Discount)
    requires Calc(lines, rates, d).Ok?
    ensures var c := Calc(lines, rates, d).value;
            && 0 <= c.additionalDiscountAmount <= c.subtotal
            && c.grandTotal == ToCents(SumOf(lines, rates, LineTotal)) - c.additionalDiscountAmount
            && c.subtotal - c.additionalDiscountAmount <= c.grandTotal
            && 0 <= c.grandTotal
  {
    var subtotal := ToCents(SumOf(lines, rates, NetAmount));
    SumBounds(lines, rates);
    NonNegativeCents(SumOf(lines, rates, NetAmount));
    ToCentsMonotone(SumOf(lines, rates, NetAmount), SumOf(lines, rates, LineTotal));
    AdditionalBounds(d, subtotal);
  }

  lemma AdditionalBounds(d: Discount, subtotal: Cents)
    requires 0 <= subtotal && AdditionalFault(d, subtotal).None?
    ensures 0 <= AdditionalAmount(d, subtotal) <= subtotal
  {
    var exact := if DiscountKind(d.kind) == "amount" then d.value else PercentOf(Units(subtotal), d.value);
    if DiscountKind(d.kind) == "percent" {
      PercentBounds(Units(subtotal), d.value);
    }
    StoredFits(exact, subtotal);
    NonNegativeCents(exact);
  }

  // --- inclusive taxes are already in the price -------------------------------

  /** The two lines differ at most in their inclusive taxes. */
  predicate SameButInclusive(l: LineInput, rates: Rates, l': LineInput, rates': Rates) {
    && l'.(taxIds := l.taxIds) == l
    && TaxesKnown(l.taxIds, rates) && TaxesKnown(l'.taxIds, rates')
    && RateSum(l.taxIds, rates, false) == RateSum(l'.taxIds, rates', false)
  }

  lemma SameExclusiveLine(l: LineInput, i: nat, rates: Rates, l': LineInput, rates': Rates)
    requires SameButInclusive(l, rates, l', rates')
    ensures LineFault(l, i, rates) == LineFault(l', i, rates')
    ensures forall m :: m != TaxCharged ==> MeasureOf(l, rates, m) == MeasureOf(l', rates', m)
  {
    assert Gross(l) == Gross(l');
    assert Net(l) == Net(l');
  }

  lemma {:induction false} SameExclusiveSums(lines: seq<LineInput>, rates: Rates, lines': seq<LineInput>, rates': Rates)
    requires |lines| == |lines'|
    requires forall i :: 0 <= i < |lines| ==> SameButInclusive(lines[i], rates, lines'[i], rates')
    ensures FirstFault(lines, rates) == FirstFault(lines', rates')
    ensures forall m :: m != TaxCharged ==> SumOf(lines, rates, m) == SumOf(lines', rates', m)
  {
    if lines != [] {
      var n := |lines| - 1;
      SameExclusiveSums(lines[..n], rates, lines'[..n], rates');
      SameExclusiveLine(lines[n], n, rates, lines'[n], rates');
    }
  }

  /**
   Adding, dropping or re-rating inclusive taxes never changes whether a document
   is accepted, nor its subtotal, discounts or grand total.
   */
  lemma InclusiveTaxesNeverChangeTheTotal(
    lines: seq<LineInput>, rates: Rates, lines': seq<LineInput>, rates': Rates, d: Discount)
    requires |lines| == |lines'|
    requires forall i :: 0 <= i < |lines| ==> SameButInclusive(lines[i], rates, lines'[i], rates')
    ensures var a, b := Calc(lines, rates, d), Calc(lines', rates', d);
            && a.Ok? == b.Ok?
            && (a.Ok? ==> a.value.(lines := [], taxTotal := 0) == b.value.(lines := [], taxTotal := 0))
  {
    SameExclusiveSums(lines, rates, lines', rates');
  }

  // --- rounding drift ---------------------------------------------------------

  /** The figure a printed line shows for a measure. */
  function Printed(r: LineResult, m: Measure): Cents
    requires m in {NetAmount, TaxCharged, LineTotal}
  {
    match m
    case NetAmount => r.subtotal
    case TaxCharged => r.taxAmount
    case LineTotal => r.total
  }

  function SumPrinted(results: seq<LineResult>, m: Measure): Cents
    requires m in {NetAmount, TaxCharged, LineTotal}
  {
    if results == [] then 0
    else SumPrinted(results[..|results| - 1], m) + Printed(results[|results| - 1], m)
  }

  lemma {:induction false} SumIsWithinHalfACentPerLine(lines: seq<LineInput>, rates: Rates, m: Measure)
    requires m in {NetAmount, TaxCharged, LineTotal}
    ensures |LineResults(lines, rates)| == |lines|
    ensures var drift := SumPrinted(LineResults(lines, rates), m) as real - SumOf(lines, rates, m) * 100.0;
            -(|lines| as real) <= 2.0 * drift <= |lines| as real
  {
    if lines != [] {
      var n := |lines| - 1;
      SumIsWithinHalfACentPerLine(lines[..n], rates, m);
      RoundIsNearest(MeasureOf(lines[n], rates, m) * 100.0);
      assert LineResults(lines, rates)[..n] == LineResults(lines[..n], rates);
    }
  }

  /**
   However many lines there are, the published subtotal, tax total and grand total
   before the document discount stay within (n + 1) half-cents of the sum of the
   figures printed on the lines.
   */
  lemma PublishedTotalsDriftByHalfCents(lines: seq<LineInput>, rates: Rates, d: Discount)
    requires Calc(lines, rates, d).Ok?
    ensures var c := Calc(lines, rates, d).value;
            && -(|lines| + 1) <= 2 * (c.subtotal - SumPrinted(c.lines, NetAmount)) <= |lines| + 1
            && -(|lines| + 1) <= 2 * (c.taxTotal - SumPrinted(c.lines, TaxCharged)) <= |lines| + 1
            && -(|lines| + 1)
               <= 2 * (c.grandTotal + c.additionalDiscountAmount - SumPrinted(c.lines, LineTotal))
               <= |lines| + 1
  {
    forall m | m in {NetAmount, TaxCharged, LineTotal}
      ensures -(|lines| + 1)
              <= 2 * (ToCents(SumOf(lines, rates, m)) - SumPrinted(LineResults(lines, rates), m))
              <= |lines| + 1
    {
      SumIsWithinHalfACentPerLine(lines, rates, m);
      RoundIsNearest(SumOf(lines, rates, m) * 100.0);
    }
    AcceptedTotals(lines, rates, d);
  }

  lemma {:induction false} GrossIsNetPlusDiscount(lines: seq<LineInput>, rates: Rates)
    ensures SumOf(lines, rates, GrossAmount) == SumOf(lines, rates, NetAmount) + SumOf(lines, rates, DiscountGiven)
  {
    if lines != [] {
      GrossIsNetPlusDiscount(lines[..|lines| - 1], rates);
    }
  }

  /** Subtotal plus discounts is the full price of the goods, to within one cent. */
  lemma DiscountsAccountForTheFullPrice(lines: seq<LineInput>, rates: Rates, d: Discount)
    requires Calc(lines, rates, d).Ok?
    ensures var c := Calc(lines, rates, d).value;
            -1.0 <= (c.subtotal + c.discountTotal) as real - SumOf(lines, rates, GrossAmount) * 100.0 <= 1.0
  {
    GrossIsNetPlusDiscount(lines, rates);
    RoundIsNearest(SumOf(lines, rates, NetAmount) * 100.0);
    RoundIsNearest(SumOf(lines, rates, DiscountGiven) * 100.0);
  }

  // --- what a printed line shows ------------------------------------------------

  /** The printed amount is the exact one to within half a cent. */
  predicate HalfACent(c: Cents, v: real) {
    -0.5 <= c as real - v * 100.0 <= 0.5
  }

  /** The rate of one tax id; nothing for a blank one or one of the other kind. */
  function OneRate(id: string, rates: Rates, inclusive: bool): real {
    var name := Trim(id);
    if name != "" && name in rates && (rates[name].calcMethod == "inclusive") == inclusive then rates[name].rate else 0.0
  }

  /** Every inclusive (or every other) tax of a line charged on x on its own. */
  function EachCharged(x: real, ids: seq<string>, rates: Rates, inclusive: bool): real {
    if ids == [] then 0.0
    else
      EachCharged(x, ids[..|ids| - 1], rates, inclusive) + x * OneRate(ids[|ids| - 1], rates, inclusive) / 100.0
  }

  lemma ChargedTogether(x: real, p: real, q: real)
    ensures x * (p + q) / 100.0 == x * p / 100.0 + x * q / 100.0
  {
  }

  lemma LastRate(ids: seq<string>, rates: Rates, inclusive: bool)
    requires ids != []
    ensures RateSum(ids, rates, inclusive) ==
            RateSum(ids[..|ids| - 1], rates, inclusive) + OneRate(ids[|ids| - 1], rates, inclusive)
  {
  }

  lemma {:induction false} GroupedIsEachCharged(x: real, ids: seq<string>, rates: Rates, inclusive: bool)
    ensures EachCharged(x, ids, rates, inclusive) == x * RateSum(ids, rates, inclusive) / 100.0
  {
    if ids != [] {
      var before := ids[..|ids| - 1];
      GroupedIsEachCharged(x, before, rates, inclusive);
      LastRate(ids, rates, inclusive);
      ChargedTogether(x, RateSum(before, rates, inclusive), OneRate(ids[|ids| - 1], rates, inclusive));
    }
  }

  /** Quantity times price, less the line discount in percent or as an amount. */
  function NetOf(l: LineInput): real {
    var full := l.quantity * l.unitPrice;
    full - if l.discountType == "amount" then l.discountValue else full * l.discountValue / 100.0
  }

  /** The part of `net` that its inclusive taxes are: charged on the remainder, each by itself, they give it back. */
  ghost predicate IsInclusiveShare(share: real, net: real, ids: seq<string>, rates: Rates) {
    && 0.0 <= share <= net
    && (net - share) + EachCharged(net - share, ids, rates, true) == net
  }

  lemma RestTimesFactor(rest: real, rate: real)
    ensures rest * (1.0 + rate / 100.0) == rest + rest * rate / 100.0
  {
  }

  lemma DividedByFactor(x: real, f: real)
    requires 0.0 <= x && 1.0 <= f
    ensures 0.0 <= x / f <= x && x / f * f == x
  {
  }

  /** What is left of the net amount, with the inclusive rate charged on it again, is the net amount. */
  lemma BackedOut(x: real, rate: Percent)
    requires 0.0 <= x
    ensures var rest := BackOut(x, rate); 0.0 <= rest <= x && rest + rest * rate / 100.0 == x
  {
    DividedByFactor(x, 1.0 + rate / 100.0);
    RestTimesFactor(BackOut(x, rate), rate);
  }

  lemma RestGivesBack(rest: real, net: real, ids: seq<string>, rates: Rates)
    requires 0.0 <= rest <= net && rest + rest * RateSum(ids, rates, true) / 100.0 == net
    ensures IsInclusiveShare(net - rest, net, ids, rates)
  {
    GroupedIsEachCharged(rest, ids, rates, true);
    assert net - (net - rest) == rest;
  }

  lemma InclusiveTaxIsShare(l: LineInput, rates: Rates)
    requires 0.0 <= Net(l)
    ensures IsInclusiveShare(InclusiveTax(l, rates), Net(l), l.taxIds, rates)
  {
    var net, rate := Net(l), RateSum(l.taxIds, rates, true);
    if rate > 0.0 {
      BackedOut(net, rate);
      RestGivesBack(BackOut(net, rate), net, l.taxIds, rates);
    } else {
      RestGivesBack(net, net, l.taxIds, rates);
    }
  }

  lemma ExclusiveTaxIsEachCharged(l: LineInput, rates: Rates)
    ensures ExclusiveTax(l, rates) == EachCharged(Net(l), l.taxIds, rates, false)
  {
    GroupedIsEachCharged(Net(l), l.taxIds, rates, false);
  }

  /** The tax of a line is each other tax on its net amount and the share its inclusive taxes have in it. */
  lemma TaxOfALine(l: LineInput, i: nat, rates: Rates) returns (share: real)
    requires LineFault(l, i, rates).None?
    ensures IsInclusiveShare(share, Net(l), l.taxIds, rates)
    ensures MeasureOf(l, rates, TaxCharged) == EachCharged(Net(l), l.taxIds, rates, false) + share
    ensures MeasureOf(l, rates, LineTotal) == Net(l) + EachCharged(Net(l), l.taxIds, rates, false)
  {
    share := InclusiveTax(l, rates);
    LineBounds(l, i, rates);
    InclusiveTaxIsShare(l, rates);
    ExclusiveTaxIsEachCharged(l, rates);
  }

  lemma NothingCharged(x: real, ids: seq<string>, rates: Rates)
    requires RateSum(ids, rates, false) == 0.0
    ensures EachCharged(x, ids, rates, false) == 0.0
  {
    GroupedIsEachCharged(x, ids, rates, false);
  }

  /** What the tax leaves of the net amount is worth the net amount again at `rate` percent. */
  predicate Divides(tax: real, net: real, rate: real) {
    0.0 <= tax <= net && (net - tax) * (1.0 + rate / 100.0) == net
  }

  lemma ShareDivides(share: real, net: real, ids: seq<string>, rates: Rates)
    requires IsInclusiveShare(share, net, ids, rates)
    ensures Divides(share, net, RateSum(ids, rates, true))
  {
    GroupedIsEachCharged(net - share, ids, rates, true);
    RestTimesFactor(net - share, RateSum(ids, rates, true));
  }

  /** Inclusive taxes and no others divide the net amount by their rate. */
  lemma InclusiveTaxDividesTheNet(l: LineInput, i: nat, rates: Rates)
    requires LineFault(l, i, rates).None? && RateSum(l.taxIds, rates, false) == 0.0
    ensures Divides(MeasureOf(l, rates, TaxCharged), Net(l), RateSum(l.taxIds, rates, true))
  {
    var share := TaxOfALine(l, i, rates);
    NothingCharged(Net(l), l.taxIds, rates);
    ShareDivides(share, Net(l), l.taxIds, rates);
  }

  lemma {:induction false} EveryLineIsFaultless(lines: seq<LineInput>, rates: Rates, k: nat)
    requires FirstFault(lines, rates).None? && k < |lines|
    ensures LineFault(lines[k], k, rates).None?
  {
    var n := |lines| - 1;
    if k < n {
      EveryLineIsFaultless(lines[..n], rates, k);
    }
  }

  lemma {:induction false} ResultsInOrder(lines: seq<LineInput>, rates: Rates)
    ensures |LineResults(lines, rates)| == |lines|
    ensures forall k :: 0 <= k < |lines| ==> LineResults(lines, rates)[k] == ResultOf(lines[k], rates)
  {
    if lines != [] {
      ResultsInOrder(lines[..|lines| - 1], rates);
    }
  }

  /**
   Every line of an accepted document is printed as submitted, with names trimmed, and its
   three figures are, each to within half a cent: quantity times price less the discount;
   each tax by itself, inclusive ones as the share they have; and the former plus the taxes
   that are not inclusive.
   */
  lemma PrintedLine(lines: seq<LineInput>, rates: Rates, d: Discount, k: nat) returns (share: real)
    requires Calc(lines, rates, d).Ok? && k < |lines|
    ensures k < |Calc(lines, rates, d).value.lines| == |lines|
    ensures IsInclusiveShare(share, NetOf(lines[k]), lines[k].taxIds, rates)
    ensures var l, r := lines[k], Calc(lines, rates, d).value.lines[k];
            var added := EachCharged(NetOf(l), l.taxIds, rates, false);
            && r.line.productName == Trim(l.productName) && r.line.description == Trim(l.description)
            && r.line.quantity == l.quantity && r.line.unitPrice == l.unitPrice && r.line.taxIds == l.taxIds
            && r.line.discountValue == l.discountValue
            && r.line.discountType == (if l.discountType == "amount" then "amount" else "percent")
            && HalfACent(r.subtotal, NetOf(l))
            && HalfACent(r.taxAmount, added + share)
            && HalfACent(r.total, NetOf(l) + added)
  {
    var l := lines[k];
    EveryLineIsFaultless(lines, rates, k);
    ResultsInOrder(lines, rates);
    assert Net(l) == NetOf(l);
    share := TaxOfALine(l, k, rates);
    RoundIsNearest(Net(l) * 100.0);
    RoundIsNearest(MeasureOf(l, rates, TaxCharged) * 100.0);
    RoundIsNearest(MeasureOf(l, rates, LineTotal) * 100.0);
  }

  /** The given amount, or the given percentage of the subtotal. */
  function DiscountOn(subtotal: Cents, d: Discount): real {
    if d.kind == "amount" then d.value else subtotal as real / 100.0 * d.value / 100.0
  }

  lemma RoundedDiscount(subtotal: Cents, d: Discount)
    ensures HalfACent(AdditionalAmount(d, subtotal), DiscountOn(subtotal, d))
  {
    RoundIsNearest(DiscountOn(subtotal, d) * 100.0);
  }

  /** The document discount is what it comes to on the printed subtotal, to within half a cent. */
  lemma PrintedDiscount(lines: seq<LineInput>, rates: Rates, d: Discount)
    requires Calc(lines, rates, d).Ok?
    ensures var c := Calc(lines, rates, d).value; HalfACent(c.additionalDiscountAmount, DiscountOn(c.subtotal, d))
  {
    RoundedDiscount(Calc(lines, rates, d).value.subtotal, d);
  }

  // --- which documents are accepted --------------------------------------------------

  /** Nothing, percent or amount, within its range: up to `limit` as an amount, up to a hundred as a percentage. */
  predicate DiscountFits(kind: string, value: real, limit: real) {
    kind in {"", "percent", "amount"} && 0.0 <= value <= if kind == "amount" then limit else 100.0
  }

  /** Named, of a positive quantity at a price, with a discount within its range and taxes that are known. */
  predicate LineFits(l: LineInput, rates: Rates) {
    && Trim(l.productName) != "" && 0.0 < l.quantity && 0.0 <= l.unitPrice
    && DiscountFits(l.discountType, l.discountValue, l.quantity * l.unitPrice)
    && forall id :: id in l.taxIds ==> Trim(id) == "" || Trim(id) in rates
  }

  lemma LineFitsExactlyWhen(l: LineInput, i: nat, rates: Rates)
    ensures LineFault(l, i, rates).None? <==> LineFits(l, rates)
  {
    BlankTrim(l.productName);
    forall id | id in l.taxIds
      ensures Blank(id) <==> Trim(id) == ""
    {
      BlankTrim(id);
    }
  }

  lemma BlankTrim(s: string)
    ensures Blank(s) <==> Trim(s) == ""
  {
  }

  lemma {:induction false} FaultlessExactlyWhen(lines: seq<LineInput>, rates: Rates)
    ensures FirstFault(lines, rates).None? <==> forall k :: 0 <= k < |lines| ==> LineFits(lines[k], rates)
  {
    if lines != [] {
      var n := |lines| - 1;
      FaultlessExactlyWhen(lines[..n], rates);
      LineFitsExactlyWhen(lines[n], n, rates);
    }
  }

  /** A document has lines, each of which fits, and a document discount within its range. */
  predicate LinesFit(lines: seq<LineInput>, rates: Rates, d: Discount) {
    && lines != [] && (forall k :: 0 <= k < |lines| ==> LineFits(lines[k], rates))
    && DiscountFits(d.kind, d.value, ToCents(SumOf(lines, rates, NetAmount)) as real / 100.0)
  }

  lemma CalcAcceptsExactlyWhen(lines: seq<LineInput>, rates: Rates, d: Discount)
    ensures Calc(lines, rates, d).Ok? <==> LinesFit(lines, rates, d)
  {
    FaultlessExactlyWhen(lines, rates);
  }

  /** What the fault says is true of the line. */
  predicate FaultIsTrue(f: Fault, l: LineInput, rates: Rates) {
    match f
    case NoProductName(_) => Trim(l.productName) == ""
    case QuantityNotPositive(_) => l.quantity <= 0.0
    case NegativePrice(_) => l.unitPrice < 0.0
    case BadDiscountType(_) => l.discountType !in {"", "percent", "amount"}
    case NegativeDiscount(_) => l.discountType == "amount" && l.discountValue < 0.0
    case DiscountExceedsLine(_) => l.discountType == "amount" && l.discountValue > l.quantity * l.unitPrice
    case DiscountPercentOutOfRange(_) => l.discountType != "amount" && !(0.0 <= l.discountValue <= 100.0)
    case TaxNotFound(_) => exists id :: id in l.taxIds && Trim(id) != "" && Trim(id) !in rates
    case _ => false
  }

  predicate NamesLine(f: Fault, i: nat) {
    match f
    case NoProductName(k) => k == i
    case QuantityNotPositive(k) => k == i
    case NegativePrice(k) => k == i
    case BadDiscountType(k) => k == i
    case NegativeDiscount(k) => k == i
    case DiscountExceedsLine(k) => k == i
    case DiscountPercentOutOfRange(k) => k == i
    case TaxNotFound(k) => k == i
    case _ => false
  }

  lemma LineFaultIsTrue(l: LineInput, i: nat, rates: Rates)
    requires LineFault(l, i, rates).Some?
    ensures FaultIsTrue(LineFault(l, i, rates).value, l, rates) && NamesLine(LineFault(l, i, rates).value, i)
  {
    BlankTrim(l.productName);
    if !TaxesKnown(l.taxIds, rates) {
      var id :| id in l.taxIds && !(Blank(id) || Trim(id) in rates);
      BlankTrim(id);
    }
  }

  lemma {:induction false} FirstFaultyLine(lines: seq<LineInput>, rates: Rates) returns (i: nat)
    requires FirstFault(lines, rates).Some?
    ensures i < |lines| && FirstFault(lines, rates) == LineFault(lines[i], i, rates)
    ensures forall k :: 0 <= k < i ==> LineFault(lines[k], k, rates).None?
  {
    i := |lines| - 1;
    if FirstFault(lines[..|lines| - 1], rates).Some? {
      i := FirstFaultyLine(lines[..|lines| - 1], rates);
    } else {
      forall k | 0 <= k < i
        ensures LineFault(lines[k], k, rates).None?
      {
        EveryLineIsFaultless(lines[..i], rates, k);
      }
    }
  }

  /** The reported fault is true of the line it names, and every line before that one fits. */
  lemma FirstFaultIsTrue(lines: seq<LineInput>, rates: Rates) returns (i: nat)
    requires FirstFault(lines, rates).Some?
    ensures i < |lines| && NamesLine(FirstFault(lines, rates).value, i)
    ensures FaultIsTrue(FirstFault(lines, rates).value, lines[i], rates)
    ensures forall k :: 0 <= k < i ==> LineFits(lines[k], rates)
  {
    i := FirstFaultyLine(lines, rates);
    LineFaultIsTrue(lines[i], i, rates);
    forall k | 0 <= k < i
      ensures LineFits(lines[k], rates)
    {
      LineFitsExactlyWhen(lines[k], k, rates);
    }
  }

  /** A refused document discount is of an unknown kind, negative, or above its limit, as reported. */
  lemma DiscountFaultIsTrue(d: Discount, subtotal: Cents)
    requires AdditionalFault(d, subtotal).Some?
    ensures match AdditionalFault(d, subtotal).value
            case BadAdditionalType => d.kind !in {"", "percent", "amount"}
            case NegativeAdditional => d.kind == "amount" && d.value < 0.0
            case AdditionalExceedsSubtotal => d.kind == "amount" && d.value > subtotal as real / 100.0
            case AdditionalPercentOutOfRange => d.kind != "amount" && !(0.0 <= d.value <= 100.0)
            case _ => false
  {
  }
}
