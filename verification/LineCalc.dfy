/**
 The shared line-item arithmetic (utils/linecalc.go): per-line discount, grouped
 exclusive and inclusive taxes, and one document-level discount. Inputs are real
 numbers of currency units; every published total is a whole number of cents.
 */
module LineCalc {
  import opened Results
  import opened Money
  import opened Text

  /** Tax rates are validated to be at least 0 before they are stored. */
  type Percent = p: real | 0.0 <= p witness 0.0

  datatype TaxRate = TaxRate(rate: Percent, calcMethod: string)

  type Rates = map<string, TaxRate>

  datatype LineInput = LineInput(
    productName: string, description: string, quantity: real, unitPrice: real,
    discountType: string, discountValue: real, taxIds: seq<string>)

  datatype LineResult = LineResult(line: LineInput, subtotal: Cents, taxAmount: Cents, total: Cents)

  datatype Discount = Discount(kind: string, value: real)

  datatype LinesCalc = LinesCalc(
    lines: seq<LineResult>, subtotal: Cents, discountTotal: Cents, taxTotal: Cents, grandTotal: Cents,
    additionalDiscount: Discount, additionalDiscountAmount: Cents)

  datatype Fault =
    | NoLines
    | NoProductName(line: nat)
    | QuantityNotPositive(line: nat)
    | NegativePrice(line: nat)
    | BadDiscountType(line: nat)
    | NegativeDiscount(line: nat)
    | DiscountExceedsLine(line: nat)
    | DiscountPercentOutOfRange(line: nat)
    | TaxNotFound(line: nat)
    | BadAdditionalType
    | NegativeAdditional
    | AdditionalExceedsSubtotal
    | AdditionalPercentOutOfRange
    | NegativeShipping

  // --- one line ---------------------------------------------------------------

  /** An empty discount type means "percent". */
  function DiscountKind(kind: string): string {
    if kind == "" then "percent" else kind
  }

  function PercentOf(x: real, p: real): real {
    x * p / 100.0
  }

  /** What is left of x once a tax of `rate` percent that x contains is backed out. */
  function BackOut(x: real, rate: Percent): real {
    x / (1.0 + rate / 100.0)
  }

  function Gross(l: LineInput): real {
    l.quantity * l.unitPrice
  }

  function DiscountAmount(l: LineInput): real {
    if DiscountKind(l.discountType) == "amount" then l.discountValue else PercentOf(Gross(l), l.discountValue)
  }

  function Net(l: LineInput): real {
    Gross(l) - DiscountAmount(l)
  }

  /** The summed rate of the line's inclusive (or of its other) taxes. */
  function RateSum(ids: seq<string>, rates: Rates, inclusive: bool): (sum: Percent) {
    if ids == [] then 0.0
    else
      var id := Trim(ids[|ids| - 1]);
      var rest := RateSum(ids[..|ids| - 1], rates, inclusive);
      if id != "" && id in rates && (rates[id].calcMethod == "inclusive") == inclusive
      then rest + rates[id].rate
      else rest
  }

  function ExclusiveTax(l: LineInput, rates: Rates): real {
    PercentOf(Net(l), RateSum(l.taxIds, rates, false))
  }

  function InclusiveTax(l: LineInput, rates: Rates): real {
    var rate := RateSum(l.taxIds, rates, true);
    if rate > 0.0 then Net(l) - BackOut(Net(l), rate) else 0.0
  }

  predicate TaxesKnown(ids: seq<string>, rates: Rates) {
    forall id :: id in ids ==> Blank(id) || Trim(id) in rates
  }

  /** The first check line number i fails, in the order the checks are made. */
  function LineFault(l: LineInput, i: nat, rates: Rates): Option<Fault> {
    var kind := DiscountKind(l.discountType);
    if Blank(l.productName) then Some(NoProductName(i))
    else if l.quantity <= 0.0 then Some(QuantityNotPositive(i))
    else if l.unitPrice < 0.0 then Some(NegativePrice(i))
    else if kind != "percent" && kind != "amount" then Some(BadDiscountType(i))
    else if kind == "amount" && l.discountValue < 0.0 then Some(NegativeDiscount(i))
    else if kind == "amount" && l.discountValue > Gross(l) then Some(DiscountExceedsLine(i))
    else if kind == "percent" && (l.discountValue < 0.0 || l.discountValue > 100.0) then Some(DiscountPercentOutOfRange(i))
    else if !TaxesKnown(l.taxIds, rates) then Some(TaxNotFound(i))
    else None
  }

  function FirstFault(lines: seq<LineInput>, rates: Rates): Option<Fault> {
    if lines == [] then None
    else
      var earlier := FirstFault(lines[..|lines| - 1], rates);
      if earlier.Some? then earlier else LineFault(lines[|lines| - 1], |lines| - 1, rates)
  }

  // --- a document -------------------------------------------------------------

  datatype Measure = GrossAmount | DiscountGiven | NetAmount | TaxCharged | LineTotal

  function MeasureOf(l: LineInput, rates: Rates, m: Measure): real {
    match m
    case GrossAmount => Gross(l)
    case DiscountGiven => DiscountAmount(l)
    case NetAmount => Net(l)
    case TaxCharged => ExclusiveTax(l, rates) + InclusiveTax(l, rates)
    case LineTotal => Net(l) + ExclusiveTax(l, rates)
  }

  /** The exact sum of a measure over all lines. */
  function SumOf(lines: seq<LineInput>, rates: Rates, m: Measure): real {
    if lines == [] then 0.0
    else SumOf(lines[..|lines| - 1], rates, m) + MeasureOf(lines[|lines| - 1], rates, m)
  }

  function ResultOf(l: LineInput, rates: Rates): LineResult {
    LineResult(
      l.(productName := Trim(l.productName), description := Trim(l.description),
         discountType := DiscountKind(l.discountType)),
      ToCents(Net(l)), ToCents(MeasureOf(l, rates, TaxCharged)), ToCents(MeasureOf(l, rates, LineTotal)))
  }

  function LineResults(lines: seq<LineInput>, rates: Rates): seq<LineResult> {
    if lines == [] then []
    else LineResults(lines[..|lines| - 1], rates) + [ResultOf(lines[|lines| - 1], rates)]
  }

  function AdditionalAmount(d: Discount, subtotal: Cents): Cents {
    ToCents(if DiscountKind(d.kind) == "amount" then d.value else PercentOf(Units(subtotal), d.value))
  }

  function AdditionalFault(d: Discount, subtotal: Cents): Option<Fault> {
    var kind := DiscountKind(d.kind);
    if kind != "percent" && kind != "amount" then Some(BadAdditionalType)
    else if kind == "amount" && d.value < 0.0 then Some(NegativeAdditional)
    else if kind == "amount" && d.value > Units(subtotal) then Some(AdditionalExceedsSubtotal)
    else if kind == "percent" && (d.value < 0.0 || d.value > 100.0) then Some(AdditionalPercentOutOfRange)
    else None
  }

  function Totals(lines: seq<LineInput>, rates: Rates, d: Discount): LinesCalc {
    var subtotal := ToCents(SumOf(lines, rates, NetAmount));
    var amount := AdditionalAmount(d, subtotal);
    LinesCalc(
      LineResults(lines, rates),
      subtotal, ToCents(SumOf(lines, rates, DiscountGiven)), ToCents(SumOf(lines, rates, TaxCharged)),
      ToCents(SumOf(lines, rates, LineTotal)) - amount,
      Discount(DiscountKind(d.kind), d.value), amount)
  }

  function Calc(lines: seq<LineInput>, rates: Rates, d: Discount): Result<LinesCalc, Fault> {
    if lines == [] then Err(NoLines)
    else if FirstFault(lines, rates).Some? then Err(FirstFault(lines, rates).value)
    else if AdditionalFault(d, ToCents(SumOf(lines, rates, NetAmount))).Some?
    then Err(AdditionalFault(d, ToCents(SumOf(lines, rates, NetAmount))).value)
    else Ok(Totals(lines, rates, d))
  }

  // --- the loops --------------------------------------------------------------

  lemma RateSumSnoc(ids: seq<string>, i: nat, rates: Rates, inclusive: bool)
    requires i < |ids|
    ensures RateSum(ids[..i + 1], rates, inclusive) ==
            RateSum(ids[..i], rates, inclusive) + RateSum([ids[i]], rates, inclusive)
  {
    assert ids[..i + 1][..i] == ids[..i];
    assert [ids[i]][..0] == [];
  }

  /** all is a followed by b. */
  predicate Follows(all: seq<string>, a: seq<string>, b: seq<string>) {
    && |all| == |a| + |b|
    && (forall k :: 0 <= k < |a| ==> all[k] == a[k])
    && (forall k :: 0 <= k < |b| ==> all[|a| + k] == b[k])
  }

  lemma {:induction false} RateSumFollows(all: seq<string>, a: seq<string>, b: seq<string>, rates: Rates, inclusive: bool)
    requires Follows(all, a, b)
    ensures RateSum(all, rates, inclusive) == RateSum(a, rates, inclusive) + RateSum(b, rates, inclusive)
    decreases |b|
  {
    var m, n := |all| - 1, |b| - 1;
    if b == [] {
      assert all == a;
    } else {
      RateSumFollows(all[..m], a, b[..n], rates, inclusive);
      RateSumSnoc(all, m, rates, inclusive);
      RateSumSnoc(b, n, rates, inclusive);
      assert all[..m + 1] == all && b[..n + 1] == b && all[m] == b[n];
    }
  }

  lemma RateSumConcat(a: seq<string>, b: seq<string>, rates: Rates, inclusive: bool)
    ensures RateSum(a + b, rates, inclusive) == RateSum(a, rates, inclusive) + RateSum(b, rates, inclusive)
  {
    RateSumFollows(a + b, a, b, rates, inclusive);
  }

  /** One pass over a line's taxes, adding every rate to its group. */
  method GroupTaxes(ids: seq<string>, rates: Rates) returns (known: bool, exclusive: Percent, inclusive: Percent)
    ensures known <==> TaxesKnown(ids, rates)
    ensures known ==> exclusive == RateSum(ids, rates, false) && inclusive == RateSum(ids, rates, true)
  {
    exclusive, inclusive := 0.0, 0.0;
    var i := 0;
    while i < |ids|
      invariant 0 <= i <= |ids|
      invariant TaxesKnown(ids[..i], rates)
      invariant exclusive == RateSum(ids[..i], rates, false)
      invariant inclusive == RateSum(ids[..i], rates, true)
    {
      RateSumSnoc(ids, i, rates, false);
      RateSumSnoc(ids, i, rates, true);
      var id := Trim(ids[i]);
      if id != "" {
        if id !in rates {
          assert ids[i] in ids;
          return false, 0.0, 0.0;
        }
        if rates[id].calcMethod == "inclusive" {
          inclusive := inclusive + rates[id].rate;
        } else {
          exclusive := exclusive + rates[id].rate;
        }
      }
      i := i + 1;
    }
    assert ids[..i] == ids;
    known := true;
  }

  /** The body of the line loop: one line checked and computed. */
  method CalcLine(l: LineInput, i: nat, rates: Rates)
    returns (fault: Option<Fault>, discount: real, tax: real, total: real, result: LineResult)
    ensures fault == LineFault(l, i, rates)
    ensures fault.None? ==>
              && discount == DiscountAmount(l) && tax == MeasureOf(l, rates, TaxCharged)
              && total == MeasureOf(l, rates, LineTotal) && result == ResultOf(l, rates)
  {
    discount, tax, total := 0.0, 0.0, 0.0;
    result := LineResult(l, 0, 0, 0);
    if Blank(l.productName) { return Some(NoProductName(i)), discount, tax, total, result; }
    if l.quantity <= 0.0 { return Some(QuantityNotPositive(i)), discount, tax, total, result; }
    if l.unitPrice < 0.0 { return Some(NegativePrice(i)), discount, tax, total, result; }
    var kind := if l.discountType == "" then "percent" else l.discountType;
    if kind != "percent" && kind != "amount" { return Some(BadDiscountType(i)), discount, tax, total, result; }
    var gross := Gross(l);
    if kind == "amount" {
      if l.discountValue < 0.0 { return Some(NegativeDiscount(i)), discount, tax, total, result; }
      if l.discountValue > gross { return Some(DiscountExceedsLine(i)), discount, tax, total, result; }
      discount := l.discountValue;
    } else {
      if l.discountValue < 0.0 || l.discountValue > 100.0 {
        return Some(DiscountPercentOutOfRange(i)), discount, tax, total, result;
      }
      discount := PercentOf(gross, l.discountValue);
    }
    var net := gross - discount;
    var known, exclusiveRate, inclusiveRate := GroupTaxes(l.taxIds, rates);
    if !known { return Some(TaxNotFound(i)), discount, tax, total, result; }
    var exclusiveTax := PercentOf(net, exclusiveRate);
    var inclusiveTax := 0.0;
    if inclusiveRate > 0.0 {
      inclusiveTax := net - BackOut(net, inclusiveRate);
    }
    tax := exclusiveTax + inclusiveTax;
    total := net + exclusiveTax;
    result := LineResult(
      LineInput(Trim(l.productName), Trim(l.description), l.quantity, l.unitPrice, kind, l.discountValue, l.taxIds),
      ToCents(net), ToCents(tax), ToCents(total));
    fault := None;
  }

  /** What one more line adds to everything the loop keeps. */
  lemma PrefixStep(lines: seq<LineInput>, i: nat, rates: Rates)
    requires i < |lines|
    ensures FirstFault(lines[..i], rates).None? ==>
              FirstFault(lines[..i + 1], rates) == LineFault(lines[i], i, rates)
    ensures LineResults(lines[..i + 1], rates) == LineResults(lines[..i], rates) + [ResultOf(lines[i], rates)]
    ensures forall m :: SumOf(lines[..i + 1], rates, m) == SumOf(lines[..i], rates, m) + MeasureOf(lines[i], rates, m)
  {
    assert lines[..i + 1][..i] == lines[..i];
  }

  /** What the line loop keeps: the results and the four running totals of the lines so far. */
  ghost predicate Running(
    lines: seq<LineInput>, rates: Rates, results: seq<LineResult>,
    subtotal: real, discountTotal: real, taxTotal: real, grandTotal: real)
  {
    && results == LineResults(lines, rates)
    && subtotal == SumOf(lines, rates, NetAmount) && discountTotal == SumOf(lines, rates, DiscountGiven)
    && taxTotal == SumOf(lines, rates, TaxCharged) && grandTotal == SumOf(lines, rates, LineTotal)
  }

  lemma RunningStep(
    lines: seq<LineInput>, i: nat, rates: Rates, results: seq<LineResult>,
    subtotal: real, discountTotal: real, taxTotal: real, grandTotal: real)
    requires i < |lines| && Running(lines[..i], rates, results, subtotal, discountTotal, taxTotal, grandTotal)
    ensures var l := lines[i];
            Running(lines[..i + 1], rates, results + [ResultOf(l, rates)],
                    subtotal + Net(l), discountTotal + DiscountAmount(l),
                    taxTotal + MeasureOf(l, rates, TaxCharged), grandTotal + MeasureOf(l, rates, LineTotal))
  {
    PrefixStep(lines, i, rates);
  }

  lemma NextFault(lines: seq<LineInput>, i: nat, rates: Rates)
    requires i < |lines| && FirstFault(lines[..i], rates).None?
    ensures FirstFault(lines[..i + 1], rates) == LineFault(lines[i], i, rates)
  {
    assert lines[..i + 1][..i] == lines[..i];
  }

  /** The line loop with its running totals. */
  method AddUpLines(lines: seq<LineInput>, rates: Rates)
    returns (fault: Option<Fault>, results: seq<LineResult>,
             subtotal: real, discountTotal: real, taxTotal: real, grandTotal: real)
    ensures fault == FirstFault(lines, rates)
    ensures fault.None? ==> Running(lines, rates, results, subtotal, discountTotal, taxTotal, grandTotal)
  {
    results := [];
    subtotal, discountTotal, taxTotal, grandTotal := 0.0, 0.0, 0.0, 0.0;
    var i := 0;
    while i < |lines|
      invariant 0 <= i <= |lines|
      invariant FirstFault(lines[..i], rates).None?
      invariant Running(lines[..i], rates, results, subtotal, discountTotal, taxTotal, grandTotal)
    {
      NextFault(lines, i, rates);
      RunningStep(lines, i, rates, results, subtotal, discountTotal, taxTotal, grandTotal);
      var lineFault, discount, tax, total, result := CalcLine(lines[i], i, rates);
      if lineFault.Some? {
        FirstFaultOfPrefix(lines, i + 1, rates);
        fault := lineFault;
        return;
      }
      results := results + [result];
      subtotal := subtotal + (Gross(lines[i]) - discount);
      discountTotal := discountTotal + discount;
      taxTotal := taxTotal + tax;
      grandTotal := grandTotal + total;
      i := i + 1;
    }
    assert lines[..i] == lines;
    fault := None;
  }

  method CalcLines(lines: seq<LineInput>, rates: Rates, d: Discount) returns (r: Result<LinesCalc, Fault>)
    ensures r == Calc(lines, rates, d)
  {
    if |lines| < 1 {
      return Err(NoLines);
    }
    var lineFault, results, subtotal, discountTotal, taxTotal, grandTotal := AddUpLines(lines, rates);
    if lineFault.Some? {
      return Err(lineFault.value);
    }
    var published := ToCents(subtotal);
    var fault, amount := CheckAdditional(d, published);
    if fault.Some? {
      return Err(fault.value);
    }
    var due := Subtract(ToCents(grandTotal), amount);
    r := Ok(LinesCalc(results, published, ToCents(discountTotal), ToCents(taxTotal), due,
                      Discount(DiscountKind(d.kind), d.value), amount));
  }

  /** round2 of the difference of two stored amounts: rounding again changes nothing. */
  method Subtract(a: Cents, b: Cents) returns (c: Cents)
    ensures c == a - b
  {
    SubtractingStored(a, b);
    c := ToCents(Units(a) - Units(b));
  }

  method CheckAdditional(d: Discount, subtotal: Cents) returns (fault: Option<Fault>, amount: Cents)
    ensures fault == AdditionalFault(d, subtotal)
    ensures fault.None? ==> amount == AdditionalAmount(d, subtotal)
  {
    amount := 0;
    var kind := if d.kind == "" then "percent" else d.kind;
    if kind != "percent" && kind != "amount" { return Some(BadAdditionalType), amount; }
    var exact;
    if kind == "amount" {
      if d.value < 0.0 { return Some(NegativeAdditional), amount; }
      if d.value > Units(subtotal) { return Some(AdditionalExceedsSubtotal), amount; }
      exact := d.value;
    } else {
      if d.value < 0.0 || d.value > 100.0 { return Some(AdditionalPercentOutOfRange), amount; }
      exact := PercentOf(Units(subtotal), d.value);
    }
    amount := ToCents(exact);
    fault := None;
  }

  lemma {:induction false} FirstFaultOfPrefix(lines: seq<LineInput>, n: nat, rates: Rates)
    requires n <= |lines| && FirstFault(lines[..n], rates).Some?
    ensures FirstFault(lines, rates) == FirstFault(lines[..n], rates)
    decreases |lines|
  {
    if n == |lines| {
      assert lines[..n] == lines;
    } else {
      assert lines[..|lines| - 1][..n] == lines[..n];
      FirstFaultOfPrefix(lines[..|lines| - 1], n, rates);
    }
  }
}
