/**
 Money. A stored amount (`numeric(18,2)`) is a whole number of cents; an amount
 that has not been stored yet is a real number of currency units.
 */
module Money {

  type Cents = int

  /** math.Round: to the nearest integer, halves away from zero. */
  function Round(x: real): int {
    if x >= 0.0 then (x + 0.5).Floor else -(0.5 - x).Floor
  }

  function Units(c: Cents): real {
    c as real / 100.0
  }

  /** round2, and equally what a `numeric(18,2)` column keeps of v. */
  function ToCents(v: real): Cents {
    Round(v * 100.0)
  }

  /** What a `numeric(18,2)` column gives back for v. */
  function Quantize2(v: real): real {
    Units(ToCents(v))
  }

  /** What a `numeric(18,4)` column gives back for v. */
  function Quantize4(v: real): real {
    Round(v * 10000.0) as real / 10000.0
  }

  lemma RoundIsNearest(x: real)
    ensures -0.5 <= Round(x) as real - x <= 0.5
  {
  }

  /** Exactly between two integers, the one away from zero is taken. */
  lemma HalvesGoAwayFromZero(k: nat)
    ensures Round(k as real + 0.5) == k + 1 && Round(-(k as real + 0.5)) == -(k + 1)
  {
    FloorOf(k as real + 0.5 + 0.5, k + 1);
  }

  lemma RoundMonotone(x: real, y: real)
    requires x <= y
    ensures Round(x) <= Round(y)
  {
    RoundIsNearest(x);
    RoundIsNearest(y);
  }

  lemma RoundOfWhole(k: int)
    ensures Round(k as real) == k
  {
    if k >= 0 {
      FloorOf(k as real + 0.5, k);
    } else {
      FloorOf(0.5 - k as real, -k);
    }
  }

  lemma FloorOf(x: real, k: int)
    requires k as real <= x < (k + 1) as real
    ensures x.Floor == k
  {
  }

  /** Adding whole cents commutes with rounding, as long as nothing is negative. */
  lemma RoundShift(k: int, x: real)
    requires 0 <= k && 0.0 <= x
    ensures Round(k as real + x) == k + Round(x)
  {
    var f := (x + 0.5).Floor;
    FloorOf(k as real + x + 0.5, k + f);
  }

  lemma StoredAmountsAreExact(c: Cents)
    ensures ToCents(Units(c)) == c
    ensures Quantize2(Units(c)) == Units(c)
  {
    assert Units(c) * 100.0 == c as real;
    RoundOfWhole(c);
  }

  /** round2(stored + v) == stored + round2(v): no fraction of a cent is carried over. */
  lemma AddingToStored(c: Cents, v: real)
    requires 0 <= c && 0.0 <= v
    ensures ToCents(Units(c) + v) == c + ToCents(v)
  {
    assert (Units(c) + v) * 100.0 == c as real + v * 100.0;
    RoundShift(c, v * 100.0);
  }

  /** round2(a - b) of stored amounts is their exact difference. */
  lemma SubtractingStored(a: Cents, b: Cents)
    ensures ToCents(Units(a) - Units(b)) == a - b
  {
    assert Units(a) - Units(b) == Units(a - b);
    StoredAmountsAreExact(a - b);
  }

  lemma ToCentsMonotone(v: real, w: real)
    requires v <= w
    ensures ToCents(v) <= ToCents(w)
  {
    RoundMonotone(v * 100.0, w * 100.0);
  }

  /** An amount that fits into a stored balance still fits once it is stored. */
  lemma StoredFits(v: real, limit: Cents)
    requires v <= Units(limit)
    ensures ToCents(v) <= limit
  {
    ToCentsMonotone(v, Units(limit));
    StoredAmountsAreExact(limit);
  }

  lemma NonNegativeCents(v: real)
    requires 0.0 <= v
    ensures 0 <= ToCents(v)
  {
    ToCentsMonotone(0.0, v);
  }
}
