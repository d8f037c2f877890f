/** Vocabulary shared by the component models: optional columns, minima, and sums
    over the rows of a table. */
module Prelude {

  datatype Option<+T> = None | Some(value: T)

  function Min(a: nat, b: nat): nat { if a <= b then a else b }

  /** Sum of a weight over a table, taken from the last row down. */
  function Sum<T>(rows: seq<T>, weight: T -> int): int {
    if rows == [] then 0
    else Sum(rows[..|rows| - 1], weight) + weight(rows[|rows| - 1])
  }

  lemma SumAppend<T>(rows: seq<T>, row: T, weight: T -> int)
    ensures Sum(rows + [row], weight) == Sum(rows, weight) + weight(row)
  {
    assert (rows + [row])[..|rows|] == rows;
  }

  lemma {:induction false} SumUpdate<T>(rows: seq<T>, k: nat, row: T, weight: T -> int)
    requires k < |rows|
    ensures Sum(rows[k := row], weight) == Sum(rows, weight) - weight(rows[k]) + weight(row)
  {
    var last := |rows| - 1;
    if k == last {
      assert rows[k := row][..last] == rows[..last];
    } else {
      assert rows[k := row][..last] == rows[..last][k := row];
      SumUpdate(rows[..last], k, row, weight);
    }
  }

  lemma {:induction false} SumPointwise<T>(a: seq<T>, b: seq<T>, weight: T -> int)
    requires |a| == |b|
    requires forall i :: 0 <= i < |a| ==> weight(a[i]) == weight(b[i])
    ensures Sum(a, weight) == Sum(b, weight)
  {
    if a != [] {
      SumPointwise(a[..|a| - 1], b[..|b| - 1], weight);
    }
  }

  /** The numbers below `n` with a property. */
  function Below(n: nat, p: nat -> bool): set<nat> { set i | 0 <= i < n && p(i) }

  lemma BelowGrows(n: nat, p: nat -> bool)
    ensures |Below(n + 1, p)| == |Below(n, p)| + if p(n) then 1 else 0
  {
    assert Below(n + 1, p) == Below(n, p) + if p(n) then {n} else {};
  }
}
