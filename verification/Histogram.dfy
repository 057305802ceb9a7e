/**
 The latency histogram as one thread sees it: counters spread over slots that
 are merged on demand, and the search for a percentile in the merged counters.
 */
module Histogram {
  import opened Tables

  const SB_HISTOGRAM_NSLOTS: nat := 128

  // ----- Sums over bins -----

  /** The number of events in the first n bins. */
  function SumTo(xs: seq<nat>, n: nat): nat
    requires n <= |xs|
  {
    if n == 0 then 0 else SumTo(xs, n - 1) + xs[n - 1]
  }

  function Sum(xs: seq<nat>): nat {
    SumTo(xs, |xs|)
  }

  lemma {:induction false} SumToSame(xs: seq<nat>, ys: seq<nat>, n: nat)
    requires n <= |xs| && n <= |ys| && xs[..n] == ys[..n]
    ensures SumTo(xs, n) == SumTo(ys, n)
  {
    if n > 0 {
      assert xs[..n - 1] == xs[..n][..n - 1] == ys[..n][..n - 1] == ys[..n - 1];
      assert xs[n - 1] == xs[..n][n - 1] == ys[..n][n - 1];
      SumToSame(xs, ys, n - 1);
    }
  }

  lemma {:induction false} SumToUpdate(xs: seq<nat>, b: nat, v: nat, n: nat)
    requires b < |xs| && n <= |xs|
    ensures SumTo(xs[b := v], n) == if b < n then SumTo(xs, n) - xs[b] + v else SumTo(xs, n)
  {
    if n > 0 { SumToUpdate(xs, b, v, n - 1); }
  }

  lemma {:induction false} SumToAdds(xs: seq<nat>, ys: seq<nat>, zs: seq<nat>, n: nat)
    requires n <= |xs| == |ys| == |zs|
    requires forall b :: 0 <= b < n ==> zs[b] == xs[b] + ys[b]
    ensures SumTo(zs, n) == SumTo(xs, n) + SumTo(ys, n)
  {
    if n > 0 { SumToAdds(xs, ys, zs, n - 1); }
  }

  lemma {:induction false} SumToGrows(xs: seq<nat>, i: nat, n: nat)
    requires i <= n <= |xs|
    ensures SumTo(xs, i) <= SumTo(xs, n)
    decreases n
  {
    if i < n { SumToGrows(xs, i, n - 1); }
  }

  lemma {:induction false} SumToZero(xs: seq<nat>, n: nat)
    requires n <= |xs| && forall b :: 0 <= b < n ==> xs[b] == 0
    ensures SumTo(xs, n) == 0
  {
    if n > 0 { SumToZero(xs, n - 1); }
  }

  // ----- The percentile search -----

  /** The number of events that a percentile has to cover, rounded half up. */
  function Target(nevents: nat, percentile: real): int {
    (nevents as real * percentile / 100.0 + 0.5).Floor
  }

  /** i is the first bin whose prefix count reaches nmax; |counts| if none does. */
  predicate FirstReaching(counts: seq<nat>, nmax: int, i: nat) {
    && i <= |counts|
    && (forall j :: 1 <= j <= i ==> SumTo(counts, j) < nmax)
    && (i < |counts| ==> SumTo(counts, i + 1) >= nmax)
  }

  /** The share of the events that a percentile stands for. */
  function Share(counts: seq<nat>, percentile: real): real {
    Sum(counts) as real * percentile / 100.0
  }

  /** The bins up to and with i hold more events than the percentile's share less one
      half, and no shorter row of bins does; |counts| if all bins do not. */
  ghost predicate IsPercentileBin(counts: seq<nat>, percentile: real, i: nat) {
    && i <= |counts|
    && (forall j :: 1 <= j <= i ==> SumTo(counts, j) as real <= Share(counts, percentile) - 0.5)
    && (i < |counts| ==> SumTo(counts, i + 1) as real > Share(counts, percentile) - 0.5)
  }

  lemma ReachesTarget(x: nat, n: nat, percentile: real)
    ensures x >= Target(n, percentile) <==> x as real > n as real * percentile / 100.0 - 0.5
  {
    var t := n as real * percentile / 100.0 + 0.5;
    assert t.Floor as real <= t < t.Floor as real + 1.0;
    assert x >= t.Floor <==> x as real >= t.Floor as real;
    assert x < t.Floor ==> x as real + 1.0 <= t.Floor as real;
  }

  /** The search for the rounded target finds that bin, and nothing else. */
  lemma PercentileBinByTarget(counts: seq<nat>, percentile: real, i: nat)
    ensures FirstReaching(counts, Target(Sum(counts), percentile), i) <==> IsPercentileBin(counts, percentile, i)
  {
    hide Target, Sum, SumTo;
    if i < |counts| { ReachesTarget(SumTo(counts, i + 1), Sum(counts), percentile); }
    forall j | 1 <= j <= i && i <= |counts|
      ensures SumTo(counts, j) < Target(Sum(counts), percentile)
        <==> SumTo(counts, j) as real <= Share(counts, percentile) - 0.5
    {
      ReachesTarget(SumTo(counts, j), Sum(counts), percentile);
    }
  }

  /** The search stays inside the array exactly when the target does not exceed
      the number of events; in particular for every percentile up to 100. */
  lemma PercentileBinInside(counts: seq<nat>, percentile: real, i: nat)
    requires |counts| > 0 && IsPercentileBin(counts, percentile, i)
    ensures i < |counts| <==> Target(Sum(counts), percentile) <= Sum(counts)
    ensures percentile <= 100.0 ==> i < |counts|
  {
    var n, nmax := Sum(counts), Target(Sum(counts), percentile);
    PercentileBinByTarget(counts, percentile, i);
    hide IsPercentileBin;
    if percentile <= 100.0 { TargetWithin(n, percentile); }
    if i < |counts| {
      SumToGrows(counts, i + 1, |counts|);
    } else {
      assert SumTo(counts, i) < nmax;
    }
  }

  lemma TargetWithin(n: nat, percentile: real)
    requires percentile <= 100.0
    ensures Target(n, percentile) <= n
  {
    ScaledDown(n as real, percentile);
    assert n as real * percentile / 100.0 + 0.5 < n as real + 1.0;
  }

  lemma ScaledDown(x: real, percentile: real)
    requires 0.0 <= x && percentile <= 100.0
    ensures x * percentile / 100.0 <= x
  {
    assert x * percentile <= x * 100.0;
  }

  /** The bin holds an event, unless the target rounds down to nothing: then the
      answer is bin 0, whatever it holds. */
  lemma PercentileBinHoldsEvent(counts: seq<nat>, percentile: real, i: nat)
    requires IsPercentileBin(counts, percentile, i) && i < |counts|
    ensures Target(Sum(counts), percentile) > 0 ==> counts[i] > 0
    ensures Target(Sum(counts), percentile) <= 0 ==> i == 0
  {
    var nmax := Target(Sum(counts), percentile);
    PercentileBinByTarget(counts, percentile, i);
    hide IsPercentileBin;
    assert SumTo(counts, i + 1) == SumTo(counts, i) + counts[i];
    if i > 0 { assert SumTo(counts, i) < nmax; }
  }

  /** A higher percentile never gives a lower bin; so there is only one answer. */
  lemma PercentileBinMonotone(counts: seq<nat>, p: real, i: nat, q: real, j: nat)
    requires IsPercentileBin(counts, p, i) && IsPercentileBin(counts, q, j) && p <= q
    ensures i <= j
  {
    TargetMonotone(Sum(counts), p, q);
    PercentileBinByTarget(counts, p, i);
    PercentileBinByTarget(counts, q, j);
    hide IsPercentileBin, Target;
  }

  lemma TargetMonotone(n: nat, p: real, q: real)
    requires p <= q
    ensures Target(n, p) <= Target(n, q)
  {
    Scale(n as real, p, q);
  }

  lemma Scale(x: real, p: real, q: real)
    requires 0.0 <= x && p <= q
    ensures x * p / 100.0 <= x * q / 100.0
  {
    assert x * p <= x * q;
  }

  // ----- The histogram object -----

  /** Keeps a bin number inside the array. */
  function Clamp(i: int, size: nat): (b: nat)
    requires size > 0
    ensures b < size
    ensures 0 <= i < size ==> b == i
    ensures i < 0 ==> b == 0
    ensures i >= size ==> b == size - 1
  {
    if i < 0 then 0 else if i >= size then size - 1 else i
  }

  class HistogramObject {
    const array_size: nat
    const interm_slots: array2<nat>
    const temp_array: array<nat>
    const cumulative_array: array<nat>
    var cumulative_nevents: nat

    predicate Valid()
      reads this, cumulative_array
    {
      && array_size > 0
      && interm_slots.Length0 == SB_HISTOGRAM_NSLOTS && interm_slots.Length1 == array_size
      && temp_array.Length == cumulative_array.Length == array_size
      && temp_array != cumulative_array
      && cumulative_nevents == Sum(cumulative_array[..])
    }

    /** The slots as a value. */
    ghost function Rows(): (rows: seq<seq<nat>>)
      reads interm_slots
      ensures |rows| == interm_slots.Length0 && Rectangular(rows, interm_slots.Length1)
      ensures forall s, i :: 0 <= s < |rows| && 0 <= i < interm_slots.Length1 ==> rows[s][i] == interm_slots[s, i]
    {
      seq(interm_slots.Length0, s requires 0 <= s < interm_slots.Length0 reads interm_slots =>
        seq(interm_slots.Length1, i requires 0 <= i < interm_slots.Length1 reads interm_slots => interm_slots[s, i]))
    }

    /** The events of bin b that no report has merged yet. */
    ghost function Fresh(b: nat): nat
      requires b < interm_slots.Length1
      reads interm_slots
    {
      Column(Rows(), b, |Rows()|)
    }

    constructor (size: nat)
      requires size > 0
      ensures Valid() && array_size == size
      ensures fresh(interm_slots) && fresh(temp_array) && fresh(cumulative_array)
      ensures forall b :: 0 <= b < size ==> cumulative_array[b] == 0 && Fresh(b) == 0
    {
      array_size := size;
      interm_slots := new nat[SB_HISTOGRAM_NSLOTS, size]((s, i) => 0);
      temp_array := new nat[size](i => 0);
      cumulative_array := new nat[size](i => 0);
      cumulative_nevents := 0;
      new;
      SumToZero(cumulative_array[..], size);
      forall b | 0 <= b < size ensures Fresh(b) == 0 {
        ColumnOfZeros(Rows(), b, |Rows()|);
      }
    }

    /** random picks the slot; i is the bin that the value's logarithm scales to. */
    method Update(random: nat, i: int)
      requires Valid()
      modifies interm_slots
      ensures Valid()
      ensures Fresh(Clamp(i, array_size)) == old(Fresh(Clamp(i, array_size))) + 1
      ensures forall b :: 0 <= b < array_size && b != Clamp(i, array_size) ==> Fresh(b) == old(Fresh(b))
    {
      var slot := random % SB_HISTOGRAM_NSLOTS;
      var bin := i;
      if bin < 0 {
        bin := 0;
      } else if bin >= array_size {
        bin := array_size - 1;
      }
      ghost var rows := Rows();
      interm_slots[slot, bin] := interm_slots[slot, bin] + 1;
      ghost var after := SetCell(rows, slot, bin, rows[slot][bin] + 1);
      assert forall s :: 0 <= s < |rows| ==> Rows()[s] == after[s];
      assert Rows() == after;
      forall b | 0 <= b < array_size
        ensures Fresh(b) == if b == bin then old(Fresh(b)) + 1 else old(Fresh(b))
      {
        ColumnUpdate(rows, array_size, slot, bin, rows[slot][bin] + 1, b, |rows|);
      }
    }

    method GetPctIntermediate(percentile: real) returns (bin: nat, ghost counts: seq<nat>)
      requires Valid()
      modifies this, interm_slots, temp_array, cumulative_array
      ensures Valid()
      ensures |counts| == array_size
      ensures forall b :: 0 <= b < array_size ==> counts[b] == old(Fresh(b)) && Fresh(b) == 0
      ensures IsPercentileBin(counts, percentile, bin)
      ensures forall b :: 0 <= b < array_size ==> cumulative_array[b] == old(cumulative_array[b]) + old(Fresh(b))
    {
      ghost var rows := Rows();
      var nevents := TakeFirst();
      forall b | 0 <= b < array_size ensures temp_array[b] == Column(rows, b, 1) {
        assert Column(rows, b, 0) == 0;
      }
      nevents := MergeSlots(1, temp_array, nevents, rows);
      counts := temp_array[..];
      bin := Search(temp_array, nevents, percentile);
      AddToCumulative(nevents);
      forall b | 0 <= b < array_size ensures Fresh(b) == 0 { ColumnOfZeros(Rows(), b, |Rows()|); }
    }

    /** The first loop: moves the first slot into temp_array. */
    method TakeFirst() returns (nevents: nat)
      requires Valid()
      modifies interm_slots, temp_array
      ensures Valid()
      ensures forall b :: 0 <= b < array_size ==> temp_array[b] == old(interm_slots[0, b]) && interm_slots[0, b] == 0
      ensures forall r, b :: 1 <= r < interm_slots.Length0 && 0 <= b < array_size ==>
        interm_slots[r, b] == old(interm_slots[r, b])
      ensures nevents == Sum(temp_array[..])
    {
      nevents := 0;
      var i := 0;
      while i < array_size
        invariant 0 <= i <= array_size && Valid()
        invariant forall b :: 0 <= b < i ==> temp_array[b] == old(interm_slots[0, b])
        invariant forall b :: 0 <= b < array_size ==> interm_slots[0, b] == if b < i then 0 else old(interm_slots[0, b])
        invariant forall r, b :: 1 <= r < interm_slots.Length0 && 0 <= b < array_size ==>
          interm_slots[r, b] == old(interm_slots[r, b])
        invariant nevents == SumTo(temp_array[..], i)
      {
        var t := interm_slots[0, i];
        interm_slots[0, i] := 0;
        ghost var before := temp_array[..];
        temp_array[i] := t;
        nevents := nevents + temp_array[i];
        SumToSame(before, temp_array[..], i);
        i := i + 1;
      }
    }

    /** The last loop: adds temp_array, which holds nevents events, to the cumulative array. */
    method AddToCumulative(nevents: nat)
      requires Valid() && nevents == Sum(temp_array[..])
      modifies this`cumulative_nevents, cumulative_array
      ensures Valid()
      ensures forall b :: 0 <= b < array_size ==> cumulative_array[b] == old(cumulative_array[b]) + temp_array[b]
    {
      ghost var cumulative, counts := cumulative_array[..], temp_array[..];
      var i := 0;
      while i < array_size
        invariant 0 <= i <= array_size
        invariant temp_array[..] == counts && cumulative_nevents == old(cumulative_nevents)
        invariant forall b :: 0 <= b < array_size ==>
          cumulative_array[b] == if b < i then cumulative[b] + counts[b] else cumulative[b]
      {
        cumulative_array[i] := cumulative_array[i] + temp_array[i];
        i := i + 1;
      }
      cumulative_nevents := cumulative_nevents + nevents;
      SumToAdds(cumulative, counts, cumulative_array[..], array_size);
    }

    /** Empties the slots from row first on into target, which already holds the
        rows before it (on top of base). */
    method MergeSlots(first: nat, target: array<nat>, nevents: nat, ghost rows: seq<seq<nat>>) returns (total: nat)
      requires interm_slots.Length0 == SB_HISTOGRAM_NSLOTS && interm_slots.Length1 == target.Length == array_size
      requires |rows| == SB_HISTOGRAM_NSLOTS && Rectangular(rows, array_size) && first <= |rows|
      requires forall r, b :: first <= r < |rows| && 0 <= b < array_size ==> interm_slots[r, b] == rows[r][b]
      requires forall r, b :: 0 <= r < first && 0 <= b < array_size ==> interm_slots[r, b] == 0
      requires nevents == Sum(target[..])
      modifies interm_slots, target
      ensures forall b :: 0 <= b < array_size ==>
        target[b] == old(target[b]) - Column(rows, b, first) + Column(rows, b, |rows|)
      ensures total == Sum(target[..])
      ensures forall r, b :: 0 <= r < |rows| && 0 <= b < array_size ==> interm_slots[r, b] == 0
    {
      total := nevents;
      var s := first;
      ghost var base := target[..];
      while s < SB_HISTOGRAM_NSLOTS
        invariant first <= s <= |rows|
        invariant forall b :: 0 <= b < array_size ==>
          target[b] == base[b] - Column(rows, b, first) + Column(rows, b, s)
        invariant forall r, b :: s <= r < |rows| && 0 <= b < array_size ==> interm_slots[r, b] == rows[r][b]
        invariant forall r, b :: 0 <= r < s && 0 <= b < array_size ==> interm_slots[r, b] == 0
        invariant total == Sum(target[..])
      {
        total := MergeSlot(s, target, total);
        s := s + 1;
      }
    }

    /** One pass of the inner loop: empties row s into target. */
    method MergeSlot(s: nat, target: array<nat>, nevents: nat) returns (total: nat)
      requires s < interm_slots.Length0 && interm_slots.Length1 == target.Length == array_size
      requires nevents == Sum(target[..])
      modifies interm_slots, target
      ensures forall b :: 0 <= b < array_size ==>
        target[b] == old(target[b]) + old(interm_slots[s, b]) && interm_slots[s, b] == 0
      ensures forall r, b :: 0 <= r < interm_slots.Length0 && 0 <= b < array_size && r != s ==>
        interm_slots[r, b] == old(interm_slots[r, b])
      ensures total == Sum(target[..])
    {
      total := nevents;
      var i := 0;
      while i < array_size
        invariant 0 <= i <= array_size
        invariant forall b :: 0 <= b < array_size ==>
          target[b] == old(target[b]) + if b < i then old(interm_slots[s, b]) else 0
        invariant forall b :: 0 <= b < array_size ==>
          interm_slots[s, b] == if b < i then 0 else old(interm_slots[s, b])
        invariant forall r, b :: 0 <= r < interm_slots.Length0 && 0 <= b < array_size && r != s ==>
          interm_slots[r, b] == old(interm_slots[r, b])
        invariant total == Sum(target[..])
      {
        var t := interm_slots[s, i];
        interm_slots[s, i] := 0;
        ghost var before := target[..];
        target[i] := target[i] + t;
        total := total + t;
        assert target[..] == before[i := before[i] + t];
        SumToUpdate(before, i, before[i] + t, array_size);
        i := i + 1;
      }
    }

    /** The loop that looks for the percentile's bin. */
    method Search(counts: array<nat>, nevents: nat, percentile: real) returns (i: nat)
      requires nevents == Sum(counts[..])
      ensures IsPercentileBin(counts[..], percentile, i)
    {
      var nmax := Target(nevents, percentile);
      hide Target;
      var ncur := 0;
      i := 0;
      while i < counts.Length
        invariant 0 <= i <= counts.Length
        invariant ncur == SumTo(counts[..], i)
        invariant forall j :: 1 <= j <= i ==> SumTo(counts[..], j) < nmax
      {
        ncur := ncur + counts[i];
        if ncur >= nmax { break; }
        i := i + 1;
      }
      PercentileBinByTarget(counts[..], percentile, i);
    }

    method MergeIntermediateIntoCumulative()
      requires Valid()
      modifies this, interm_slots, cumulative_array
      ensures Valid()
      ensures forall b :: 0 <= b < array_size ==> Fresh(b) == 0
      ensures forall b :: 0 <= b < array_size ==> cumulative_array[b] == old(cumulative_array[b]) + old(Fresh(b))
    {
      ghost var rows := Rows();
      cumulative_nevents := MergeSlots(0, cumulative_array, cumulative_nevents, rows);
      forall b | 0 <= b < array_size ensures Fresh(b) == 0 { ColumnOfZeros(Rows(), b, |Rows()|); }
    }

    method GetPctCumulative(percentile: real) returns (bin: nat)
      requires Valid()
      modifies this, interm_slots, cumulative_array
      ensures Valid()
      ensures forall b :: 0 <= b < array_size ==> Fresh(b) == 0
      ensures forall b :: 0 <= b < array_size ==> cumulative_array[b] == old(cumulative_array[b]) + old(Fresh(b))
      ensures IsPercentileBin(cumulative_array[..], percentile, bin)
    {
      MergeIntermediateIntoCumulative();
      bin := Search(cumulative_array, cumulative_nevents, percentile);
    }

    method GetPctCheckpoint(percentile: real) returns (bin: nat, ghost counts: seq<nat>)
      requires Valid()
      modifies this, interm_slots, cumulative_array
      ensures Valid() && |counts| == array_size
      ensures forall b :: 0 <= b < array_size ==> counts[b] == old(cumulative_array[b]) + old(Fresh(b))
      ensures forall b :: 0 <= b < array_size ==> Fresh(b) == 0 && cumulative_array[b] == 0
      ensures IsPercentileBin(counts, percentile, bin)
    {
      MergeIntermediateIntoCumulative();
      bin := Search(cumulative_array, cumulative_nevents, percentile);
      counts := cumulative_array[..];
      forall i | 0 <= i < array_size { cumulative_array[i] := 0; }
      cumulative_nevents := 0;
      SumToZero(cumulative_array[..], array_size);
    }
  }
}
