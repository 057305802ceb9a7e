/**
 The latency histogram under concurrency: any number of threads count events
 with atomic increments while reports, one at a time under the lock, fetch and
 clear the slots cell by cell with compare-and-swap loops.
 */
module HistogramRuns {
  import opened Histogram
  import opened Tables

  datatype Kind = Intermediate | Cumulative | Checkpoint

  /** What a report counted and the bin it answered; before and after are history:
      the updates made when it took and when it released the lock. */
  datatype Report = Report(kind: Kind, percentile: real, counts: seq<nat>, bin: nat, before: seq<nat>, after: seq<nat>)
  {
    predicate Shaped(size: nat) {
      |counts| == |before| == |after| == size
    }
  }

  datatype Loaded = Nothing | Value(v: nat)

  /** The report that holds the lock, if any. It works on cell (s, i) and may have
      loaded that cell's value for its next compare-and-swap. */
  datatype Holder = Free | Merging(
    kind: Kind, percentile: real, s: nat, i: nat, loaded: Loaded, nevents: nat, before: seq<nat>)

  /** updates and cleared are history: per bin, the updates made and the amounts
      that checkpoints cleared. */
  datatype Machine = Machine(
    slots: seq<seq<nat>>, temp: seq<nat>, cumulative: seq<nat>, nevents: nat,
    lock: Holder, updates: seq<nat>, cleared: seq<nat>, reports: seq<Report>)
  {
    ghost predicate Shaped() {
      && |slots| == SB_HISTOGRAM_NSLOTS && Rectangular(slots, |cumulative|)
      && |cumulative| == |temp| == |updates| == |cleared| > 0
      && (lock.Merging? ==>
            && lock.s <= |slots| && lock.i < |cumulative| && (lock.s == |slots| ==> lock.i == 0)
            && |lock.before| == |cumulative|)
      && AllShaped(reports, |cumulative|)
    }
  }

  ghost predicate AllShaped(reports: seq<Report>, size: nat) {
    forall k :: 0 <= k < |reports| ==> reports[k].Shaped(size)
  }

  ghost predicate Zeros(xs: seq<nat>) {
    forall b :: 0 <= b < |xs| ==> xs[b] == 0
  }

  ghost predicate Init(m: Machine) {
    && m.Shaped() && m.lock == Free && m.nevents == 0 && m.reports == []
    && Zeros(m.cumulative) && Zeros(m.updates) && Zeros(m.cleared)
    && forall s :: 0 <= s < |m.slots| ==> Zeros(m.slots[s])
  }

  // ----- Atomic steps -----

  function SetBin(xs: seq<nat>, b: nat, v: nat): seq<nat>
    requires b < |xs|
  {
    xs[b := v]
  }

  function Added(xs: seq<nat>, ys: seq<nat>): (zs: seq<nat>)
    requires |xs| == |ys|
    ensures |zs| == |xs| && forall b :: 0 <= b < |xs| ==> zs[b] == xs[b] + ys[b]
  {
    seq(|xs|, b requires 0 <= b < |xs| => xs[b] + ys[b])
  }

  /** An update's atomic increment. */
  ghost predicate Increment(m: Machine, m': Machine, slot: nat, b: nat)
    requires m.Shaped()
  {
    && slot < |m.slots| && b < |m.cumulative|
    && m' == m.(slots := SetCell(m.slots, slot, b, m.slots[slot][b] + 1),
                updates := SetBin(m.updates, b, m.updates[b] + 1))
  }

  ghost predicate TakeLock(m: Machine, m': Machine, kind: Kind, percentile: real) {
    && m.lock == Free
    && m' == m.(lock := Merging(kind, percentile, 0, 0, Nothing,
                                if kind.Intermediate? then 0 else m.nevents, m.updates))
  }

  /** The first, plain load of a fetch-and-store. */
  ghost predicate Load(m: Machine, m': Machine)
    requires m.Shaped()
  {
    && m.lock.Merging? && m.lock.s < |m.slots| && m.lock.loaded == Nothing
    && m' == m.(lock := m.lock.(loaded := Value(m.slots[m.lock.s][m.lock.i])))
  }

  function NextCell(lock: Holder, size: nat, v: nat): Holder
    requires lock.Merging?
  {
    if lock.i + 1 < size then lock.(i := lock.i + 1, loaded := Nothing, nevents := lock.nevents + v)
    else lock.(s := lock.s + 1, i := 0, loaded := Nothing, nevents := lock.nevents + v)
  }

  /** A compare-and-swap against 0: on failure it reloads and tries again; on
      success the fetched value goes to the merged array. */
  ghost predicate Swap(m: Machine, m': Machine)
    requires m.Shaped()
  {
    && m.lock.Merging? && m.lock.s < |m.slots| && m.lock.loaded.Value?
    && var (s, i, v) := (m.lock.s, m.lock.i, m.lock.loaded.v);
       if m.slots[s][i] != v then
         m' == m.(lock := m.lock.(loaded := Value(m.slots[s][i])))
       else if m.lock.kind.Intermediate? then
         m' == m.(slots := SetCell(m.slots, s, i, 0), lock := NextCell(m.lock, |m.cumulative|, v),
                  temp := SetBin(m.temp, i, if s == 0 then v else m.temp[i] + v))
       else
         m' == m.(slots := SetCell(m.slots, s, i, 0), lock := NextCell(m.lock, |m.cumulative|, v),
                  cumulative := SetBin(m.cumulative, i, m.cumulative[i] + v))
  }

  ghost function Counts(m: Machine): seq<nat>
    requires m.lock.Merging?
  {
    if m.lock.kind.Intermediate? then m.temp else m.cumulative
  }

  ghost function ReportOf(m: Machine, bin: nat): Report
    requires m.lock.Merging?
  {
    Report(m.lock.kind, m.lock.percentile, Counts(m), bin, m.lock.before, m.updates)
  }

  /** The rest of the critical section touches only what the lock protects. */
  ghost predicate Finish(m: Machine, m': Machine, bin: nat)
    requires m.Shaped()
  {
    && m.lock.Merging? && m.lock.s == |m.slots|
    && FirstReaching(Counts(m), Target(m.lock.nevents, m.lock.percentile), bin)
    && var done := m.(lock := Free, reports := m.reports + [ReportOf(m, bin)]);
       match m.lock.kind
       case Intermediate =>
         m' == done.(cumulative := Added(m.cumulative, m.temp), nevents := m.nevents + m.lock.nevents)
       case Cumulative =>
         m' == done.(nevents := m.lock.nevents)
       case Checkpoint =>
         && m'.cumulative == seq(|m.cumulative|, b => 0)
         && m' == done.(cumulative := m'.cumulative, nevents := 0, cleared := Added(m.cleared, m.cumulative))
  }

  datatype Action =
    | DoIncrement(slot: nat, b: nat)
    | DoTakeLock(kind: Kind, percentile: real)
    | DoLoad
    | DoSwap
    | DoFinish(bin: nat)

  ghost predicate Step(m: Machine, m': Machine, a: Action) {
    && m.Shaped()
    && match a
       case DoIncrement(slot, b) => Increment(m, m', slot, b)
       case DoTakeLock(kind, percentile) => TakeLock(m, m', kind, percentile)
       case DoLoad => Load(m, m')
       case DoSwap => Swap(m, m')
       case DoFinish(bin) => Finish(m, m', bin)
  }

  ghost predicate Next(m: Machine, m': Machine) {
    exists a :: Step(m, m', a)
  }

  ghost predicate Run(run: seq<Machine>) {
    && |run| > 0 && Init(run[0])
    && forall i :: 0 < i < |run| ==> Next(run[i - 1], run[i])
  }

  ghost predicate Reachable(m: Machine) {
    exists run :: Run(run) && run[|run| - 1] == m
  }

  // ----- What the reports say -----

  /** What the checkpoint reports counted of bin b, all together. */
  ghost function CheckpointTotal(reports: seq<Report>, b: nat): nat
    requires forall k :: 0 <= k < |reports| ==> b < |reports[k].counts|
  {
    if reports == [] then 0
    else
      var last := reports[|reports| - 1];
      CheckpointTotal(reports[..|reports| - 1], b) + if last.kind.Checkpoint? then last.counts[b] else 0
  }

  /** What the reports together claim to have counted of bin b: an intermediate
      report adds to what was counted before, the others count everything since
      the last checkpoint. */
  ghost function CountedBy(reports: seq<Report>, b: nat): nat
    requires forall k :: 0 <= k < |reports| ==> b < |reports[k].counts|
  {
    if reports == [] then 0
    else
      var prefix, last := reports[..|reports| - 1], reports[|reports| - 1];
      last.counts[b] + if last.kind.Intermediate? then CountedBy(prefix, b) else CheckpointTotal(prefix, b)
  }

  // ----- The invariant -----

  /** What the report in progress has merged into temp for bin b. */
  ghost function Pending(m: Machine, b: nat): nat
    requires m.Shaped() && b < |m.cumulative|
  {
    if m.lock.Merging? && m.lock.kind.Intermediate? && (m.lock.s > 0 || b < m.lock.i) then m.temp[b] else 0
  }

  /** The events of bin b that no report has merged yet. */
  ghost function Fresh(m: Machine, b: nat): nat
    requires m.Shaped() && b < |m.cumulative|
  {
    Column(m.slots, b, |m.slots|)
  }

  /** The rows that the report in progress has emptied at bin b. */
  ghost function Swept(m: Machine, b: nat): nat
    requires m.Shaped() && b < |m.cumulative| && m.lock.Merging?
    ensures Swept(m, b) <= |m.slots|
  {
    if b < m.lock.i then m.lock.s + 1 else m.lock.s
  }

  ghost predicate Conserved(m: Machine, b: nat)
    requires m.Shaped() && b < |m.cumulative|
  {
    && m.updates[b] == m.cumulative[b] + m.cleared[b] + Pending(m, b) + Fresh(m, b)
    && m.cleared[b] == CheckpointTotal(m.reports, b)
    && (m.lock.Free? || m.lock.kind.Intermediate? ==> m.cumulative[b] + m.cleared[b] == CountedBy(m.reports, b))
    && (m.lock.Merging? ==> m.lock.before[b] + Column(m.slots, b, Swept(m, b)) <= m.updates[b])
  }

  ghost predicate Totals(m: Machine)
    requires m.Shaped()
  {
    && (m.lock.Free? || m.lock.kind.Intermediate? ==> m.nevents == Sum(m.cumulative))
    && (m.lock.Merging? ==>
          m.lock.nevents == if !m.lock.kind.Intermediate? then Sum(m.cumulative)
                            else if m.lock.s == 0 then SumTo(m.temp, m.lock.i) else Sum(m.temp))
  }

  ghost predicate Complete(reports: seq<Report>, size: nat, k: nat)
    requires AllShaped(reports, size) && k < |reports|
  {
    && IsPercentileBin(reports[k].counts, reports[k].percentile, reports[k].bin)
    && forall b :: 0 <= b < size ==>
         reports[k].before[b] <= CountedBy(reports[..k + 1], b) <= reports[k].after[b]
  }

  ghost predicate Invariant(m: Machine) {
    && m.Shaped()
    && (forall b :: 0 <= b < |m.cumulative| ==> Conserved(m, b))
    && Totals(m)
    && forall k :: 0 <= k < |m.reports| ==> Complete(m.reports, |m.cumulative|, k)
  }

  lemma InitInvariant(m: Machine)
    requires Init(m)
    ensures Invariant(m)
  {
    SumToZero(m.cumulative, |m.cumulative|);
    forall b | 0 <= b < |m.cumulative| ensures Conserved(m, b) {
      ColumnOfZeros(m.slots, b, |m.slots|);
    }
  }

  lemma IncrementKeepsInvariant(m: Machine, m': Machine, slot: nat, b: nat)
    requires Invariant(m) && Increment(m, m', slot, b)
    ensures Invariant(m')
  {
    forall c | 0 <= c < |m.cumulative|
      ensures Rectangular(m'.slots, |m.cumulative|) && m'.Shaped() && Conserved(m', c) {
      assert Conserved(m, c);
      ColumnUpdate(m.slots, |m.cumulative|, slot, b, m.slots[slot][b] + 1, c, |m.slots|);
      if m.lock.Merging? {
        ColumnUpdate(m.slots, |m.cumulative|, slot, b, m.slots[slot][b] + 1, c, Swept(m, c));
      }
    }
    ReportsKept(m, m');
  }

  lemma ReportsKept(m: Machine, m': Machine)
    requires Invariant(m) && m'.reports == m.reports && |m'.cumulative| == |m.cumulative|
    ensures forall k :: 0 <= k < |m'.reports| ==> Complete(m'.reports, |m'.cumulative|, k)
  {
  }

  lemma TakeLockKeepsInvariant(m: Machine, m': Machine, kind: Kind, percentile: real)
    requires Invariant(m) && TakeLock(m, m', kind, percentile)
    ensures Invariant(m')
  {
    forall c | 0 <= c < |m.cumulative| ensures Conserved(m', c) {
      assert Conserved(m, c);
      assert Column(m'.slots, c, 0) == 0;
    }
    ReportsKept(m, m');
  }

  lemma ReloadKeepsInvariant(m: Machine, m': Machine, v: nat)
    requires Invariant(m) && m.lock.Merging? && m' == m.(lock := m.lock.(loaded := Value(v)))
    ensures Invariant(m')
  {
    forall c | 0 <= c < |m.cumulative| ensures Conserved(m', c) {
      assert Conserved(m, c);
    }
    ReportsKept(m, m');
  }

  lemma FetchKeepsShape(m: Machine, m': Machine)
    requires Invariant(m) && Swap(m, m') && m.slots[m.lock.s][m.lock.i] == m.lock.loaded.v
    ensures m'.Shaped()
  {
    ColumnUpdate(m.slots, |m.cumulative|, m.lock.s, m.lock.i, 0, 0, |m.slots|);
  }

  lemma FetchKeepsConserved(m: Machine, m': Machine, c: nat)
    requires Invariant(m) && Swap(m, m') && m.slots[m.lock.s][m.lock.i] == m.lock.loaded.v
    requires c < |m.cumulative| && m'.Shaped()
    ensures Conserved(m', c)
  {
    var s, i := m.lock.s, m.lock.i;
    assert Conserved(m, c);
    ColumnUpdate(m.slots, |m.cumulative|, s, i, 0, c, |m.slots|);
    ColumnUpdate(m.slots, |m.cumulative|, s, i, 0, c, Swept(m', c));
    assert Column(m.slots, c, s + 1) == Column(m.slots, c, s) + m.slots[s][c];
  }

  lemma FetchKeepsTotals(m: Machine, m': Machine)
    requires Invariant(m) && Swap(m, m') && m.slots[m.lock.s][m.lock.i] == m.lock.loaded.v
    requires m'.Shaped()
    ensures Totals(m')
  {
    var s, i, v, size := m.lock.s, m.lock.i, m.lock.loaded.v, |m.cumulative|;
    if !m.lock.kind.Intermediate? {
      SumToUpdate(m.cumulative, i, m.cumulative[i] + v, size);
    } else if s == 0 {
      SumToUpdate(m.temp, i, v, i);
      assert SumTo(m'.temp, i + 1) == SumTo(m'.temp, i) + m'.temp[i];
    } else {
      SumToUpdate(m.temp, i, m.temp[i] + v, size);
    }
  }

  lemma SwapKeepsInvariant(m: Machine, m': Machine)
    requires Invariant(m) && Swap(m, m')
    ensures Invariant(m')
  {
    if m.slots[m.lock.s][m.lock.i] != m.lock.loaded.v {
      ReloadKeepsInvariant(m, m', m.slots[m.lock.s][m.lock.i]);
    } else {
      FetchKeepsShape(m, m');
      forall c | 0 <= c < |m.cumulative| ensures Conserved(m', c) { FetchKeepsConserved(m, m', c); }
      FetchKeepsTotals(m, m');
      ReportsKept(m, m');
    }
  }

  /** What the new report says about bin c. */
  lemma FinishedReport(m: Machine, m': Machine, bin: nat, c: nat)
    requires Invariant(m) && Finish(m, m', bin) && c < |m.cumulative|
    ensures m'.Shaped()
    ensures CountedBy(m'.reports, c) == m.cumulative[c] + m.cleared[c] + Pending(m, c)
    ensures CheckpointTotal(m'.reports, c)
         == m.cleared[c] + if m.lock.kind.Checkpoint? then m.cumulative[c] else 0
  {
    assert Conserved(m, c);
    assert m'.reports[..|m'.reports| - 1] == m.reports;
  }

  lemma FinishKeepsConserved(m: Machine, m': Machine, bin: nat, c: nat)
    requires Invariant(m) && Finish(m, m', bin) && c < |m.cumulative|
    ensures m'.Shaped() && Conserved(m', c)
    ensures m.lock.before[c] <= CountedBy(m'.reports, c) <= m.updates[c]
  {
    FinishedReport(m, m', bin, c);
    assert Conserved(m, c);
  }

  lemma FinishKeepsTotals(m: Machine, m': Machine, bin: nat)
    requires Invariant(m) && Finish(m, m', bin) && m'.Shaped()
    ensures Totals(m') && m.lock.nevents == Sum(Counts(m))
  {
    match m.lock.kind
    case Intermediate => SumToAdds(m.cumulative, m.temp, m'.cumulative, |m.cumulative|);
    case Cumulative =>
    case Checkpoint => SumToZero(m'.cumulative, |m.cumulative|);
  }

  /** The bin is that of the percentile among the events counted. */
  lemma FinishFindsBin(m: Machine, m': Machine, bin: nat)
    requires Invariant(m) && Finish(m, m', bin)
    ensures m'.reports == m.reports + [ReportOf(m, bin)]
    ensures IsPercentileBin(Counts(m), m.lock.percentile, bin)
  {
    hide Target, FirstReaching, IsPercentileBin;
    PercentileBinByTarget(Counts(m), m.lock.percentile, bin);
  }

  lemma FinishKeepsInvariant(m: Machine, m': Machine, bin: nat)
    requires Invariant(m) && Finish(m, m', bin)
    ensures Invariant(m')
  {
    FinishFindsBin(m, m', bin);
    hide Target, FirstReaching, IsPercentileBin;
    forall c | 0 <= c < |m.cumulative|
      ensures m'.Shaped() && Conserved(m', c)
      ensures m.lock.before[c] <= CountedBy(m'.reports, c) <= m.updates[c]
    {
      FinishKeepsConserved(m, m', bin, c);
    }
    FinishKeepsTotals(m, m', bin);
    var n := |m.reports|;
    forall k | 0 <= k < |m'.reports| ensures Complete(m'.reports, |m.cumulative|, k) {
      if k < n {
        assert m'.reports[..k + 1] == m.reports[..k + 1];
        assert Complete(m.reports, |m.cumulative|, k);
      } else {
        assert m'.reports[..k + 1] == m'.reports;
      }
    }
  }

  lemma StepKeepsInvariant(m: Machine, m': Machine, a: Action)
    requires Invariant(m) && Step(m, m', a)
    ensures Invariant(m')
  {
    hide IsPercentileBin, FirstReaching, Target;
    match a
    case DoIncrement(slot, b) => IncrementKeepsInvariant(m, m', slot, b);
    case DoTakeLock(kind, percentile) => TakeLockKeepsInvariant(m, m', kind, percentile);
    case DoLoad => ReloadKeepsInvariant(m, m', m.slots[m.lock.s][m.lock.i]);
    case DoSwap => SwapKeepsInvariant(m, m');
    case DoFinish(bin) => FinishKeepsInvariant(m, m', bin);
  }

  lemma {:induction false} RunInvariant(run: seq<Machine>)
    requires Run(run)
    ensures Invariant(run[|run| - 1])
  {
    hide Step, Invariant, Init;
    if |run| == 1 {
      InitInvariant(run[0]);
    } else {
      var prefix := run[..|run| - 1];
      assert forall i :: 0 < i < |prefix| ==> Next(prefix[i - 1], prefix[i]);
      RunInvariant(prefix);
      var m, m' := run[|run| - 2], run[|run| - 1];
      assert Next(m, m');
      var a :| Step(m, m', a);
      StepKeepsInvariant(m, m', a);
    }
  }

  lemma Holds(m: Machine)
    requires Reachable(m)
    ensures Invariant(m)
  {
    var run :| Run(run) && run[|run| - 1] == m;
    RunInvariant(run);
  }

  // ----- What is guaranteed -----

  /** No update is lost or counted twice: when no report is in progress, the
      updates of a bin are what is still in the slots, what has been merged, and
      what the checkpoint reports counted. */
  lemma UpdatesAreConserved(m: Machine, b: nat)
    requires Reachable(m) && m.lock.Free? && b < |m.cumulative|
    ensures m.Shaped()
    ensures m.updates[b] == Fresh(m, b) + m.cumulative[b] + CheckpointTotal(m.reports, b)
    ensures m.nevents == Sum(m.cumulative)
  {
    Holds(m);
    assert Conserved(m, b);
  }

  /** A report covers every update made before it took the lock and none made
      after it released it: with earlier reports, nothing is missing or repeated. */
  lemma ReportIsComplete(m: Machine, k: nat, b: nat)
    requires Reachable(m) && k < |m.reports| && b < |m.cumulative|
    ensures m.Shaped()
    ensures m.reports[k].before[b] <= CountedBy(m.reports[..k + 1], b) <= m.reports[k].after[b]
    ensures IsPercentileBin(m.reports[k].counts, m.reports[k].percentile, m.reports[k].bin)
    ensures m.reports[k].percentile <= 100.0 ==> m.reports[k].bin < |m.cumulative|
  {
    Holds(m);
    assert Complete(m.reports, |m.cumulative|, k);
    PercentileBinInside(m.reports[k].counts, m.reports[k].percentile, m.reports[k].bin);
  }

  /** Intermediate reports do not disturb the others: with no update under way, a
      cumulative or checkpoint report counts exactly the updates since the last
      checkpoint, however many intermediate reports came in between. */
  lemma IntermediateReportsDoNotDisturb(m: Machine, k: nat, b: nat)
    requires Reachable(m) && k < |m.reports| && b < |m.cumulative| && m.Shaped()
    requires !m.reports[k].kind.Intermediate? && m.reports[k].before == m.reports[k].after
    ensures m.reports[k].before[b] == CheckpointTotal(m.reports[..k], b) + m.reports[k].counts[b]
  {
    ReportIsComplete(m, k, b);
    assert m.reports[..k + 1][..k] == m.reports[..k];
  }

  /** Two successive quiet reports, the second intermediate: it counts exactly the
      updates made between them. */
  lemma IntermediateReportCountsInterval(m: Machine, k: nat, b: nat)
    requires Reachable(m) && 0 < k < |m.reports| && b < |m.cumulative| && m.Shaped()
    requires m.reports[k].kind.Intermediate?
    requires m.reports[k - 1].before == m.reports[k - 1].after && m.reports[k].before == m.reports[k].after
    ensures m.reports[k].before[b] == m.reports[k - 1].before[b] + m.reports[k].counts[b]
  {
    ReportIsComplete(m, k - 1, b);
    ReportIsComplete(m, k, b);
    assert m.reports[..k + 1][..k] == m.reports[..k];
    assert k - 1 + 1 == k;
  }
}
