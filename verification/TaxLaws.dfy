/** When charging a compound tax on a line equals charging its two components. */
module TaxLaws {
  import opened Results
  import opened Money
  import opened Text
  import opened LineCalc
  import opened Taxes

  /** What calc() is given: the rate of every live, active tax. */
  function ActiveRates(t: Table): Rates {
    map id: TaxId | id in t && !t[id].deleted && t[id].isActive :: TaxRate(AsPercent(t[id].rate), t[id].calcMethod)
  }

  predicate IsActive(t: Table, id: Option<TaxId>) {
    id.Some? && Live(t, id.value) && t[id.value].isActive
  }

  /** A live, active compound: it is charged whether or not its components are still active. */
  predicate Chargeable(t: Table, c: TaxId) {
    Inv(t) && Live(t, c) && t[c].isCompound && t[c].isActive
  }

  /** Its two components can be charged as well. */
  predicate Splittable(t: Table, c: TaxId) {
    Chargeable(t, c) && IsActive(t, t[c].component1) && IsActive(t, t[c].component2)
  }

  function ShareOf(t: Table, id: TaxId, inclusive: bool): Percent {
    if id in t && (t[id].calcMethod == "inclusive") == inclusive then AsPercent(t[id].rate) else 0.0
  }

  /** The summed rate of the compound's inclusive (or other) components. */
  function Share(t: Table, c: TaxId, inclusive: bool): Percent
    requires Chargeable(t, c)
  {
    assert RowOk(t, t[c]);
    ShareOf(t, t[c].component1.value, inclusive) + ShareOf(t, t[c].component2.value, inclusive)
  }

  /** The same line with one occurrence of the compound replaced by its two components. */
  function Split(t: Table, c: TaxId, l: LineInput, k: nat): LineInput
    requires Chargeable(t, c) && k < |l.taxIds| && Trim(l.taxIds[k]) == c
  {
    assert RowOk(t, t[c]);
    l.(taxIds := l.taxIds[..k] + [t[c].component1.value, t[c].component2.value] + l.taxIds[k + 1..])
  }

  /** What one charged tax adds to a line's rate sums. */
  lemma OneTax(t: Table, raw: string, inclusive: bool)
    requires Live(t, Trim(raw)) && t[Trim(raw)].isActive && Trim(raw) != ""
    ensures RateSum([raw], ActiveRates(t), inclusive) == ShareOf(t, Trim(raw), inclusive)
  {
    assert [raw][..0] == [];
    TrimIsIdempotent(raw);
  }

  lemma SplitRates(t: Table, c: TaxId, l: LineInput, k: nat, inclusive: bool)
    requires Splittable(t, c) && k < |l.taxIds| && Trim(l.taxIds[k]) == c
    ensures RateSum(Split(t, c, l, k).taxIds, ActiveRates(t), inclusive) ==
            RateSum(l.taxIds, ActiveRates(t), inclusive) + Share(t, c, inclusive) - ShareOf(t, c, inclusive)
  {
    assert RowOk(t, t[c]);
    var rates, a, b := ActiveRates(t), t[c].component1.value, t[c].component2.value;
    var before, after := l.taxIds[..k], l.taxIds[k + 1..];
    assert l.taxIds == before + [l.taxIds[k]] + after;
    RateSumConcat(before + [l.taxIds[k]], after, rates, inclusive);
    RateSumConcat(before, [l.taxIds[k]], rates, inclusive);
    OneTax(t, l.taxIds[k], inclusive);
    RateSumConcat(before + [a, b], after, rates, inclusive);
    RateSumConcat(before, [a, b], rates, inclusive);
    assert [a, b] == [a] + [b];
    RateSumConcat([a], [b], rates, inclusive);
    OneTax(t, a, inclusive);
    OneTax(t, b, inclusive);
  }

  /** Which line checks fail does not depend on the split: both forms name known taxes only, or neither does. */
  lemma SplitTaxesKnown(t: Table, c: TaxId, l: LineInput, k: nat)
    requires Splittable(t, c) && k < |l.taxIds| && Trim(l.taxIds[k]) == c
    ensures TaxesKnown(l.taxIds, ActiveRates(t)) <==> TaxesKnown(Split(t, c, l, k).taxIds, ActiveRates(t))
  {
    assert RowOk(t, t[c]);
    var again := Split(t, c, l, k).taxIds;
    var a, b := t[c].component1.value, t[c].component2.value;
    assert l.taxIds == l.taxIds[..k] + [l.taxIds[k]] + l.taxIds[k + 1..];
    assert forall id :: id in again <==> id in l.taxIds[..k] || id == a || id == b || id in l.taxIds[k + 1..];
    assert forall id :: id in l.taxIds <==> id in l.taxIds[..k] || id == l.taxIds[k] || id in l.taxIds[k + 1..];
    assert Trim(l.taxIds[k]) in ActiveRates(t) && a in ActiveRates(t) && b in ActiveRates(t);
  }

  /** The split changes the two rate sums, and neither the price nor the discount. */
  lemma SplitSums(t: Table, c: TaxId, l: LineInput, k: nat)
    requires Splittable(t, c) && k < |l.taxIds| && Trim(l.taxIds[k]) == c
    ensures var l', rates := Split(t, c, l, k), ActiveRates(t);
            && Net(l') == Net(l)
            && RateSum(l'.taxIds, rates, false) == RateSum(l.taxIds, rates, false) - Share(t, c, true)
            && RateSum(l'.taxIds, rates, true) == RateSum(l.taxIds, rates, true) + Share(t, c, true)
  {
    SplitRates(t, c, l, k, false);
    SplitRates(t, c, l, k, true);
    SharesAddUp(t, c);
    SameFigures(l, Split(t, c, l, k));
  }

  lemma SameFigures(l: LineInput, l': LineInput)
    requires l' == l.(taxIds := l'.taxIds)
    ensures Net(l') == Net(l)
  {
    assert Gross(l') == Gross(l);
  }

  /** A line's total and tax are functions of its net amount and its two rate sums. */
  lemma TotalOf(l: LineInput, rates: Rates, net: real, exclusive: Percent)
    requires Net(l) == net && RateSum(l.taxIds, rates, false) == exclusive
    ensures MeasureOf(l, rates, LineTotal) == net + PercentOf(net, exclusive)
  {
  }

  /**
   Splitting moves exactly the inclusive share out of the amount that is added on top:
   the line total drops by that share of the net amount.
   */
  lemma SplitTotal(t: Table, c: TaxId, l: LineInput, k: nat)
    requires Splittable(t, c) && k < |l.taxIds| && Trim(l.taxIds[k]) == c
    ensures MeasureOf(Split(t, c, l, k), ActiveRates(t), LineTotal) ==
            MeasureOf(l, ActiveRates(t), LineTotal) - PercentOf(Net(l), Share(t, c, true))
  {
    var added, share := RateSum(l.taxIds, ActiveRates(t), false), Share(t, c, true);
    SplitSums(t, c, l, k);
    TotalOf(l, ActiveRates(t), Net(l), added);
    TotalOf(Split(t, c, l, k), ActiveRates(t), Net(l), added - share);
    PercentOfDifference(Net(l), added, share);
  }

  lemma SameSumsSameTax(l: LineInput, l': LineInput, rates: Rates)
    requires Net(l') == Net(l) && RateSum(l'.taxIds, rates, false) == RateSum(l.taxIds, rates, false)
    requires RateSum(l'.taxIds, rates, true) == RateSum(l.taxIds, rates, true)
    ensures MeasureOf(l', rates, TaxCharged) == MeasureOf(l, rates, TaxCharged)
  {
  }

  lemma SplitTax(t: Table, c: TaxId, l: LineInput, k: nat)
    requires Splittable(t, c) && k < |l.taxIds| && Trim(l.taxIds[k]) == c && Share(t, c, true) == 0.0
    ensures MeasureOf(Split(t, c, l, k), ActiveRates(t), TaxCharged) == MeasureOf(l, ActiveRates(t), TaxCharged)
  {
    SplitSums(t, c, l, k);
    SameSumsSameTax(l, Split(t, c, l, k), ActiveRates(t));
  }

  lemma SplitLine(t: Table, c: TaxId, l: LineInput, k: nat, i: nat)
    requires Splittable(t, c) && k < |l.taxIds| && Trim(l.taxIds[k]) == c
    ensures var l', rates := Split(t, c, l, k), ActiveRates(t);
            && LineFault(l', i, rates) == LineFault(l, i, rates)
            && MeasureOf(l', rates, NetAmount) == MeasureOf(l, rates, NetAmount)
            && MeasureOf(l', rates, DiscountGiven) == MeasureOf(l, rates, DiscountGiven)
  {
    SplitTaxesKnown(t, c, l, k);
    OnlyTaxesDiffer(l, Split(t, c, l, k), i, ActiveRates(t));
  }

  lemma OnlyTaxesDiffer(l: LineInput, l': LineInput, i: nat, rates: Rates)
    requires l' == l.(taxIds := l'.taxIds) && TaxesKnown(l.taxIds, rates) == TaxesKnown(l'.taxIds, rates)
    ensures LineFault(l', i, rates) == LineFault(l, i, rates)
    ensures Net(l') == Net(l) && DiscountAmount(l') == DiscountAmount(l)
  {
    assert Gross(l') == Gross(l);
  }

  lemma PercentOfDifference(x: real, p: real, q: real)
    ensures PercentOf(x, p - q) == PercentOf(x, p) - PercentOf(x, q)
  {
    assert x * (p - q) == x * p - x * q;
  }

  lemma SharesAddUp(t: Table, c: TaxId)
    requires Chargeable(t, c)
    ensures ShareOf(t, c, true) == 0.0
    ensures ShareOf(t, c, false) == Share(t, c, false) + Share(t, c, true)
  {
    assert RowOk(t, t[c]);
    var a, b := t[c].component1.value, t[c].component2.value;
    assert AsPercent(t[a].rate + t[b].rate) == AsPercent(t[a].rate) + AsPercent(t[b].rate);
  }

  // --- whole documents ---------------------------------------------------------------

  predicate SplitOrSame(t: Table, c: TaxId, l: LineInput, l': LineInput)
    requires Chargeable(t, c)
  {
    l' == l || exists k :: 0 <= k < |l.taxIds| && Trim(l.taxIds[k]) == c && l' == Split(t, c, l, k)
  }

  predicate SplitSomewhere(t: Table, c: TaxId, lines: seq<LineInput>, lines': seq<LineInput>)
    requires Chargeable(t, c)
  {
    |lines| == |lines'| && forall i :: 0 <= i < |lines| ==> SplitOrSame(t, c, lines[i], lines'[i])
  }

  /** The same verdict, and the same amounts everywhere. */
  predicate SameAmounts(a: Result<LinesCalc, Fault>, b: Result<LinesCalc, Fault>) {
    match (a, b)
    case (Ok(x), Ok(y)) =>
      x.(lines := []) == y.(lines := []) && SameRows(x.lines, y.lines)
    case (Err(x), Err(y)) => x == y
    case _ => false
  }

  /** The two lines pass or fail alike and show the same amounts. */
  predicate SameLine(l: LineInput, l': LineInput, i: nat, rates: Rates) {
    && LineFault(l', i, rates) == LineFault(l, i, rates)
    && MeasureOf(l', rates, NetAmount) == MeasureOf(l, rates, NetAmount)
    && MeasureOf(l', rates, DiscountGiven) == MeasureOf(l, rates, DiscountGiven)
    && MeasureOf(l', rates, TaxCharged) == MeasureOf(l, rates, TaxCharged)
    && MeasureOf(l', rates, LineTotal) == MeasureOf(l, rates, LineTotal)
  }

  lemma HarmlessSplit(t: Table, c: TaxId, l: LineInput, l': LineInput, i: nat)
    requires Splittable(t, c) && Share(t, c, true) == 0.0 && SplitOrSame(t, c, l, l')
    ensures SameLine(l, l', i, ActiveRates(t))
  {
    if l' != l {
      var k :| 0 <= k < |l.taxIds| && Trim(l.taxIds[k]) == c && l' == Split(t, c, l, k);
      SplitLine(t, c, l, k, i);
      SplitTotal(t, c, l, k);
      SplitTax(t, c, l, k);
      assert PercentOf(Net(l), 0.0) == 0.0;
    }
  }

  ghost predicate SameLines(lines: seq<LineInput>, lines': seq<LineInput>, rates: Rates) {
    |lines| == |lines'| && forall i :: 0 <= i < |lines| ==> SameLine(lines[i], lines'[i], i, rates)
  }

  lemma {:induction false} SameSum(lines: seq<LineInput>, lines': seq<LineInput>, rates: Rates, m: Measure)
    requires SameLines(lines, lines', rates) && m != GrossAmount
    ensures SumOf(lines', rates, m) == SumOf(lines, rates, m)
  {
    if lines != [] {
      var n := |lines| - 1;
      SameSum(lines[..n], lines'[..n], rates, m);
      assert SameLine(lines[n], lines'[n], n, rates);
    }
  }

  lemma {:induction false} SameFault(lines: seq<LineInput>, lines': seq<LineInput>, rates: Rates)
    requires SameLines(lines, lines', rates)
    ensures FirstFault(lines', rates) == FirstFault(lines, rates)
  {
    if lines != [] {
      var n := |lines| - 1;
      SameFault(lines[..n], lines'[..n], rates);
      assert SameLine(lines[n], lines'[n], n, rates);
    }
  }

  lemma {:induction false} ResultsInOrder(lines: seq<LineInput>, rates: Rates)
    ensures |LineResults(lines, rates)| == |lines|
  {
    if lines != [] {
      ResultsInOrder(lines[..|lines| - 1], rates);
    }
  }

  lemma {:induction false} ResultAt(lines: seq<LineInput>, rates: Rates, i: nat)
    requires i < |lines|
    ensures |LineResults(lines, rates)| == |lines| && LineResults(lines, rates)[i] == ResultOf(lines[i], rates)
  {
    var n := |lines| - 1;
    ResultsInOrder(lines, rates);
    ResultsInOrder(lines[..n], rates);
    if i < n {
      ResultAt(lines[..n], rates, i);
    }
  }

  lemma SplittingIsHarmless(t: Table, c: TaxId, lines: seq<LineInput>, lines': seq<LineInput>, d: Discount)
    requires Splittable(t, c) && Share(t, c, true) == 0.0 && SplitSomewhere(t, c, lines, lines')
    ensures SameAmounts(Calc(lines, ActiveRates(t), d), Calc(lines', ActiveRates(t), d))
  {
    forall i | 0 <= i < |lines|
      ensures SameLine(lines[i], lines'[i], i, ActiveRates(t))
    {
      HarmlessSplit(t, c, lines[i], lines'[i], i);
    }
    SameLinesSameCalc(lines, lines', ActiveRates(t), d);
  }

  /** Line for line the same printed amounts. */
  predicate SameRows(a: seq<LineResult>, b: seq<LineResult>) {
    |a| == |b| && forall i :: 0 <= i < |a| ==> a[i].(line := b[i].line) == b[i]
  }

  lemma SameLinesSameRows(lines: seq<LineInput>, lines': seq<LineInput>, rates: Rates)
    requires SameLines(lines, lines', rates) && lines != []
    ensures SameRows(LineResults(lines, rates), LineResults(lines', rates))
  {
    ResultAt(lines, rates, 0);
    ResultAt(lines', rates, 0);
    var a, b := LineResults(lines, rates), LineResults(lines', rates);
    forall i | 0 <= i < |a|
      ensures a[i].(line := b[i].line) == b[i]
    {
      assert SameLine(lines[i], lines'[i], i, rates);
      ResultAt(lines, rates, i);
      ResultAt(lines', rates, i);
    }
  }

  lemma SameLinesSameCalc(lines: seq<LineInput>, lines': seq<LineInput>, rates: Rates, d: Discount)
    requires SameLines(lines, lines', rates)
    ensures SameAmounts(Calc(lines, rates, d), Calc(lines', rates, d))
  {
    SameFault(lines, lines', rates);
    SameSum(lines, lines', rates, NetAmount);
    SameSum(lines, lines', rates, DiscountGiven);
    SameSum(lines, lines', rates, TaxCharged);
    SameSum(lines, lines', rates, LineTotal);
    if lines != [] {
      SameLinesSameRows(lines, lines', rates);
      SamePartsSameCalc(lines, lines', rates, d);
    }
  }

  lemma SamePartsSameCalc(lines: seq<LineInput>, lines': seq<LineInput>, rates: Rates, d: Discount)
    requires lines != [] && lines' != [] && FirstFault(lines', rates) == FirstFault(lines, rates)
    requires SumOf(lines', rates, NetAmount) == SumOf(lines, rates, NetAmount)
    requires SumOf(lines', rates, DiscountGiven) == SumOf(lines, rates, DiscountGiven)
    requires SumOf(lines', rates, TaxCharged) == SumOf(lines, rates, TaxCharged)
    requires SumOf(lines', rates, LineTotal) == SumOf(lines, rates, LineTotal)
    requires SameRows(LineResults(lines, rates), LineResults(lines', rates))
    ensures SameAmounts(Calc(lines, rates, d), Calc(lines', rates, d))
  {
  }

  /** One unit at a million, taxed with the compound alone. */
  function SampleLine(c: TaxId): LineInput {
    LineInput("Ore", "", 1.0, 1000000.0, "", 0.0, [c])
  }

  lemma SampleIsCharged(t: Table, c: TaxId)
    requires Chargeable(t, c)
    ensures LineFault(SampleLine(c), 0, ActiveRates(t)).None? && Net(SampleLine(c)) == 1000000.0
  {
    assert Trim("Ore") == "Ore" by {
      assert TrimLeft("Ore") == "Ore";
    }
    assert c in ActiveRates(t);
  }

  /** One unit at a million, taxed with the compound: any inclusive share shows in the grand total. */
  lemma InclusiveShareShows(t: Table, c: TaxId) returns (lines: seq<LineInput>, lines': seq<LineInput>)
    requires Splittable(t, c) && Share(t, c, true) > 0.0
    ensures SplitSomewhere(t, c, lines, lines')
    ensures !SameAmounts(Calc(lines, ActiveRates(t), Discount("", 0.0)), Calc(lines', ActiveRates(t), Discount("", 0.0)))
  {
    var l := SampleLine(c);
    var l' := Split(t, c, l, 0);
    lines, lines' := [l], [l'];
    assert SplitOrSame(t, c, lines[0], lines'[0]);
    SampleIsCharged(t, c);
    SplitLine(t, c, l, 0, 0);
    SplitTotal(t, c, l, 0);
    ShareIsAtLeastATick(t, c);
    SingleLineDocument(l, ActiveRates(t));
    SingleLineDocument(l', ActiveRates(t));
    var total, total' := MeasureOf(l, ActiveRates(t), LineTotal), MeasureOf(l', ActiveRates(t), LineTotal);
    assert total' <= total - 1.0;
    RoundIsNearest(total * 100.0);
    RoundIsNearest(total' * 100.0);
  }

  lemma ShareIsAtLeastATick(t: Table, c: TaxId)
    requires Chargeable(t, c) && Share(t, c, true) > 0.0
    ensures Share(t, c, true) >= 0.0001
    ensures PercentOf(1000000.0, Share(t, c, true)) >= 1.0
  {
    assert RowOk(t, t[c]);
    assert forall n: nat :: n > 0 ==> AsPercent(n) >= 0.0001;
  }

  lemma SingleLineDocument(l: LineInput, rates: Rates)
    requires LineFault(l, 0, rates).None? && 0.0 <= Net(l)
    ensures Calc([l], rates, Discount("", 0.0)).Ok?
    ensures Calc([l], rates, Discount("", 0.0)).value.grandTotal == ToCents(MeasureOf(l, rates, LineTotal))
  {
    PrefixStep([l], 0, rates);
    assert [l][..0] == [] && [l][..1] == [l];
    StoredAmountsAreExact(0);
  }

  /** A deactivated component: the compound is still charged, its components are refused. */
  lemma InactiveComponentShows(t: Table, c: TaxId) returns (lines: seq<LineInput>, lines': seq<LineInput>)
    requires Chargeable(t, c) && !Splittable(t, c)
    ensures SplitSomewhere(t, c, lines, lines')
    ensures Calc(lines, ActiveRates(t), Discount("", 0.0)).Ok? && Calc(lines', ActiveRates(t), Discount("", 0.0)).Err?
  {
    var l := SampleLine(c);
    var l' := Split(t, c, l, 0);
    lines, lines' := [l], [l'];
    assert SplitOrSame(t, c, lines[0], lines'[0]);
    SampleIsCharged(t, c);
    SingleLineDocument(l, ActiveRates(t));
    InactiveIsUnknown(t, c, l'.taxIds);
    UnknownIsRefused(l', ActiveRates(t));
  }

  lemma UnknownIsRefused(l: LineInput, rates: Rates)
    requires !TaxesKnown(l.taxIds, rates)
    ensures Calc([l], rates, Discount("", 0.0)).Err?
  {
    PrefixStep([l], 0, rates);
    assert [l][..0] == [] && [l][..1] == [l];
  }

  lemma InactiveIsUnknown(t: Table, c: TaxId, ids: seq<string>)
    requires Chargeable(t, c) && !Splittable(t, c)
    requires t[c].component1.Some? && t[c].component2.Some? && t[c].component1.value in ids && t[c].component2.value in ids
    ensures !TaxesKnown(ids, ActiveRates(t))
  {
    assert RowOk(t, t[c]);
    var id := if IsActive(t, t[c].component1) then t[c].component2.value else t[c].component1.value;
    assert id !in ActiveRates(t);
    var k :| 0 <= k < |ids| && ids[k] == id;
    TrimIsIdempotent(ids[k]);
  }

  /**
   Charging the compound and charging its two components give the same amounts on every
   document exactly when both components are active and none is an inclusive tax with a rate.
   */
  lemma CompoundIsItsComponentsExactlyWhen(t: Table, c: TaxId)
    requires Chargeable(t, c)
    ensures (forall lines, lines', d :: SplitSomewhere(t, c, lines, lines') ==>
               SameAmounts(Calc(lines, ActiveRates(t), d), Calc(lines', ActiveRates(t), d)))
       <==> IsActive(t, t[c].component1) && IsActive(t, t[c].component2) && Share(t, c, true) == 0.0
  {
    if !Splittable(t, c) {
      var lines, lines' := InactiveComponentShows(t, c);
    } else if Share(t, c, true) == 0.0 {
      forall lines, lines', d | SplitSomewhere(t, c, lines, lines')
        ensures SameAmounts(Calc(lines, ActiveRates(t), d), Calc(lines', ActiveRates(t), d))
      {
        SplittingIsHarmless(t, c, lines, lines', d);
      }
    } else {
      var lines, lines' := InclusiveShareShows(t, c);
    }
  }
}
