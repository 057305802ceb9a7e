/** Tables of counters, one row per slot or thread, and their column sums. */
module Tables {
  /** All rows have the same number of bins. */
  predicate Rectangular(rows: seq<seq<nat>>, size: nat) {
    forall s :: 0 <= s < |rows| ==> |rows[s]| == size
  }

  /** The count of bin b in the first n rows. */
  function Column(rows: seq<seq<nat>>, b: nat, n: nat): nat
    requires n <= |rows| && forall s :: 0 <= s < |rows| ==> b < |rows[s]|
  {
    if n == 0 then 0 else Column(rows, b, n - 1) + rows[n - 1][b]
  }

  function SetCell(rows: seq<seq<nat>>, s: nat, i: nat, v: nat): seq<seq<nat>>
    requires s < |rows| && i < |rows[s]|
  {
    var row: seq<nat> := rows[s][i := v];
    rows[s := row]
  }

  lemma {:induction false} ColumnUpdate(rows: seq<seq<nat>>, size: nat, s: nat, i: nat, v: nat, b: nat, n: nat)
    requires Rectangular(rows, size) && s < |rows| && i < size && b < size && n <= |rows|
    ensures Rectangular(SetCell(rows, s, i, v), size)
    ensures Column(SetCell(rows, s, i, v), b, n)
         == if b == i && s < n then Column(rows, b, n) - rows[s][i] + v else Column(rows, b, n)
  {
    if n > 0 { ColumnUpdate(rows, size, s, i, v, b, n - 1); }
  }


  /** A table that grows in every cell grows in its column sums. */
  lemma {:induction false} ColumnMonotone(rows: seq<seq<nat>>, grown: seq<seq<nat>>, b: nat, n: nat)
    requires n <= |rows| == |grown|
    requires forall s :: 0 <= s < |rows| ==> b < |rows[s]| && b < |grown[s]| && rows[s][b] <= grown[s][b]
    ensures Column(rows, b, n) <= Column(grown, b, n)
  {
    if n > 0 { ColumnMonotone(rows, grown, b, n - 1); }
  }

  lemma {:induction false} ColumnOfZeros(rows: seq<seq<nat>>, b: nat, n: nat)
    requires n <= |rows| && forall s :: 0 <= s < |rows| ==> b < |rows[s]| && rows[s][b] == 0
    ensures Column(rows, b, n) == 0
  {
    if n > 0 { ColumnOfZeros(rows, b, n - 1); }
  }
}
