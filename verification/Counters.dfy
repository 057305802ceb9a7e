/**
 Statistics counters: one row per thread, written only by that thread, and two
 streams of reports that return what was counted since the stream's last report.
 */
module Counters {
  import opened Words64

  const SB_CNT_MAX: nat := 8

  // ----- The counters as one thread sees them -----

  class CounterTable {
    /** Rows 0 to threads - 1 belong to worker threads, row threads to background ones. */
    const threads: nat
    const sb_counters: array2<u64>
    const last_intermediate_counters: array<u64>
    const last_cumulative_counters: array<u64>

    ghost predicate Valid()
    {
      && sb_counters.Length0 == threads + 1 && sb_counters.Length1 == SB_CNT_MAX
      && last_intermediate_counters.Length == last_cumulative_counters.Length == SB_CNT_MAX
      && last_intermediate_counters != last_cumulative_counters
    }

    /** The sum of a counter over the first n threads. */
    ghost function Sum(t: nat, n: nat): nat
      requires Valid() && t < SB_CNT_MAX && n <= threads
      reads sb_counters
    {
      if n == 0 then 0 else Sum(t, n - 1) + sb_counters[n - 1, t]
    }

    constructor (n: nat)
      ensures Valid() && threads == n
      ensures fresh(sb_counters) && fresh(last_intermediate_counters) && fresh(last_cumulative_counters)
      ensures forall i, t :: 0 <= i <= n && 0 <= t < SB_CNT_MAX ==> sb_counters[i, t] == 0
      ensures forall t :: 0 <= t < SB_CNT_MAX ==> last_intermediate_counters[t] == 0 == last_cumulative_counters[t]
    {
      threads := n;
      sb_counters := new u64[n + 1, SB_CNT_MAX]((i, t) => 0);
      last_intermediate_counters := new u64[SB_CNT_MAX](t => 0);
      last_cumulative_counters := new u64[SB_CNT_MAX](t => 0);
    }

    method Add(thread_id: nat, t: nat, val: u64)
      requires Valid() && thread_id <= threads && t < SB_CNT_MAX
      modifies sb_counters
      ensures sb_counters[thread_id, t] == Plus(old(sb_counters[thread_id, t]), val)
      ensures forall i, u :: 0 <= i <= threads && 0 <= u < SB_CNT_MAX && (i != thread_id || u != t) ==>
        sb_counters[i, u] == old(sb_counters[i, u])
    {
      sb_counters[thread_id, t] := Plus(sb_counters[thread_id, t], val);
    }

    method Merge(dst: array<u64>)
      requires Valid() && dst.Length == SB_CNT_MAX
      modifies dst
      ensures forall t :: 0 <= t < SB_CNT_MAX ==> dst[t] == Plus(old(dst[t]), Wrap(Sum(t, threads)))
    {
      for t := 0 to SB_CNT_MAX
        invariant forall u :: 0 <= u < SB_CNT_MAX ==>
          dst[u] == if u < t then Plus(old(dst[u]), Wrap(Sum(u, threads))) else old(dst[u])
      {
        WrapZero();
        PlusAlgebra(dst[t], 0, 0);
        for i := 0 to threads
          invariant forall u :: 0 <= u < SB_CNT_MAX && u != t ==>
            dst[u] == if u < t then Plus(old(dst[u]), Wrap(Sum(u, threads))) else old(dst[u])
          invariant dst[t] == Plus(old(dst[t]), Wrap(Sum(t, i)))
        {
          PlusAlgebra(old(dst[t]), Wrap(Sum(t, i)), sb_counters[i, t]);
          PlusWraps(Sum(t, i), sb_counters[i, t]);
          dst[t] := Plus(dst[t], sb_counters[i, t]);
        }
      }
    }

    /** Turns totals into what was added since the totals in cp, and keeps the totals. */
    static method Checkpoint(dst: array<u64>, cp: array<u64>)
      requires dst.Length == cp.Length == SB_CNT_MAX && dst != cp
      modifies dst, cp
      ensures forall t :: 0 <= t < SB_CNT_MAX ==> cp[t] == old(dst[t]) && dst[t] == Minus(old(dst[t]), old(cp[t]))
    {
      for i := 0 to SB_CNT_MAX
        invariant forall t :: 0 <= t < i ==> cp[t] == old(dst[t]) && dst[t] == Minus(old(dst[t]), old(cp[t]))
        invariant forall t :: i <= t < SB_CNT_MAX ==> cp[t] == old(cp[t]) && dst[t] == old(dst[t])
      {
        var tmp := cp[i];
        cp[i] := dst[i];
        dst[i] := Minus(dst[i], tmp);
      }
    }

    /** A report of the stream whose last totals are in last. */
    method Aggregate(val: array<u64>, last: array<u64>)
      requires Valid() && val.Length == last.Length == SB_CNT_MAX && val != last
      modifies val, last
      ensures forall t :: 0 <= t < SB_CNT_MAX ==> last[t] == Wrap(Sum(t, threads))
      ensures forall t :: 0 <= t < SB_CNT_MAX ==> Plus(old(last[t]), val[t]) == last[t]
    {
      forall t | 0 <= t < SB_CNT_MAX { val[t] := 0; }
      Merge(val);
      ghost var totals, before := val[..], last[..];
      forall t | 0 <= t < SB_CNT_MAX ensures totals[t] == Wrap(Sum(t, threads)) {
        PlusAlgebra(Wrap(Sum(t, threads)), 0, 0);
      }
      Checkpoint(val, last);
      forall t | 0 <= t < SB_CNT_MAX ensures Plus(before[t], val[t]) == last[t] {
        MinusPlus(totals[t], before[t]);
      }
    }

    method AggIntermediate(val: array<u64>)
      requires Valid() && val.Length == SB_CNT_MAX
      requires val != last_intermediate_counters && val != last_cumulative_counters
      modifies val, last_intermediate_counters
      ensures forall t :: 0 <= t < SB_CNT_MAX ==> last_intermediate_counters[t] == Wrap(Sum(t, threads))
      ensures forall t :: 0 <= t < SB_CNT_MAX ==>
        Plus(old(last_intermediate_counters[t]), val[t]) == last_intermediate_counters[t]
    {
      Aggregate(val, last_intermediate_counters);
    }

    method AggCumulative(val: array<u64>)
      requires Valid() && val.Length == SB_CNT_MAX
      requires val != last_intermediate_counters && val != last_cumulative_counters
      modifies val, last_cumulative_counters
      ensures forall t :: 0 <= t < SB_CNT_MAX ==> last_cumulative_counters[t] == Wrap(Sum(t, threads))
      ensures forall t :: 0 <= t < SB_CNT_MAX ==>
        Plus(old(last_cumulative_counters[t]), val[t]) == last_cumulative_counters[t]
    {
      Aggregate(val, last_cumulative_counters);
    }
  }
}
