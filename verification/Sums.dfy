/** Row ids, and totals over a column of a table. */
module Sums {

  /** A row id. Only equality and one fixed order (the order of the id texts) matter. */
  type Id = nat

  ghost function Total(m: map<Id, int>): int {
    if m == map[] then 0 else var k :| k in m; m[k] + Total(m - {k})
  }

  lemma {:induction false} TotalWithout(m: map<Id, int>, k: Id)
    requires k in m
    ensures Total(m) == m[k] + Total(m - {k})
    decreases |m|
  {
    var j :| j in m && Total(m) == m[j] + Total(m - {j});
    if j != k {
      TotalWithout(m - {j}, k);
      TotalWithout(m - {k}, j);
      assert m - {j} - {k} == m - {k} - {j};
    }
  }

  /** Writing one row moves the total by the difference at that row. */
  lemma TotalSet(m: map<Id, int>, k: Id, v: int)
    ensures Total(m[k := v]) == Total(m) - (if k in m then m[k] else 0) + v
  {
    var m' := m[k := v];
    TotalWithout(m', k);
    assert m' - {k} == m - {k};
    if k in m {
      TotalWithout(m, k);
    } else {
      assert m - {k} == m;
    }
  }

  lemma {:induction false} TotalAtLeast(m: map<Id, int>, k: Id)
    requires forall j :: j in m ==> 0 <= m[j]
    ensures 0 <= Total(m)
    ensures k in m ==> m[k] <= Total(m)
    decreases |m|
  {
    if m != map[] {
      var j := if k in m then k else var j :| j in m; j;
      TotalWithout(m, j);
      TotalAtLeast(m - {j}, k);
    }
  }

  lemma {:induction false} TotalOfZeros(m: map<Id, int>)
    requires forall j :: j in m ==> m[j] == 0
    ensures Total(m) == 0
    decreases |m|
  {
    if m != map[] {
      var j :| j in m;
      TotalWithout(m, j);
      TotalOfZeros(m - {j});
    }
  }

  /** Totals add up column by column. */
  lemma {:induction false} TotalOfDifference(m: map<Id, int>, a: map<Id, int>, b: map<Id, int>)
    requires a.Keys == b.Keys == m.Keys
    requires forall j :: j in m ==> m[j] == a[j] - b[j]
    ensures Total(m) == Total(a) - Total(b)
    decreases |m|
  {
    if m == map[] {
      assert a == map[] && b == map[];
    } else {
      var j :| j in m;
      TotalWithout(m, j);
      TotalWithout(a, j);
      TotalWithout(b, j);
      TotalOfDifference(m - {j}, a - {j}, b - {j});
    }
  }

  lemma {:induction false} SubsetSize<T>(a: set<T>, b: set<T>)
    requires a <= b
    ensures |a| <= |b|
  {
    if x :| x in a {
      SubsetSize(a - {x}, b - {x});
    }
  }
}
