/**
 The counters under concurrency: threads add to their own rows with a load and a
 store, while any number of report streams read all rows cell by cell.
 */
module CounterRuns {
  import opened Counters
  import opened Tables
  import opened Words64

  datatype Writer = Idle | Adding(t: nat, val: u64, loaded: nat)

  /** What a report returned; merged, before and after are history: the exact sums it
      read, and the exact counts when it began and when it ended. */
  datatype Report = Report(values: seq<u64>, merged: seq<nat>, before: seq<seq<nat>>, after: seq<seq<nat>>)

  /** A merge in progress is about to read counter t of thread i. */
  datatype Reader = AtRest | Merging(t: nat, i: nat, dst: seq<u64>, exact: seq<nat>, before: seq<seq<nat>>)

  datatype Stream = Stream(reader: Reader, last: seq<u64>, reports: seq<Report>)

  /** added is history: the exact counts behind the 64-bit slots. */
  datatype Machine = Machine(
    threads: nat, slots: seq<seq<nat>>, added: seq<seq<nat>>, writers: seq<Writer>, streams: seq<Stream>)

  ghost predicate Table(rows: seq<seq<nat>>, threads: nat) {
    |rows| == threads + 1 && Rectangular(rows, SB_CNT_MAX)
  }

  ghost predicate ReportShaped(r: Report, threads: nat) {
    |r.values| == |r.merged| == SB_CNT_MAX && Table(r.before, threads) && Table(r.after, threads)
  }

  ghost predicate ReportsShaped(reports: seq<Report>, threads: nat) {
    forall k :: 0 <= k < |reports| ==> ReportShaped(reports[k], threads)
  }

  ghost predicate StreamShaped(s: Stream, threads: nat) {
    && |s.last| == SB_CNT_MAX && ReportsShaped(s.reports, threads)
    && (s.reader.Merging? ==>
          && s.reader.t <= SB_CNT_MAX && s.reader.i <= threads && (s.reader.t == SB_CNT_MAX ==> s.reader.i == 0)
          && |s.reader.dst| == |s.reader.exact| == SB_CNT_MAX && Table(s.reader.before, threads))
  }

  ghost predicate Shaped(m: Machine) {
    && Table(m.slots, m.threads) && Table(m.added, m.threads) && |m.writers| == m.threads + 1
    && (forall i :: 0 <= i <= m.threads && m.writers[i].Adding? ==> m.writers[i].t < SB_CNT_MAX)
    && (forall a :: 0 <= a < |m.streams| ==> StreamShaped(m.streams[a], m.threads))
  }

  ghost predicate Zeros(rows: seq<seq<nat>>) {
    forall i, t :: 0 <= i < |rows| && 0 <= t < |rows[i]| ==> rows[i][t] == 0
  }

  function Zero(): seq<u64> {
    seq(SB_CNT_MAX, t => 0)
  }

  ghost predicate Init(m: Machine) {
    && Shaped(m) && Zeros(m.slots) && Zeros(m.added)
    && (forall i :: 0 <= i <= m.threads ==> m.writers[i] == Idle)
    && (forall a :: 0 <= a < |m.streams| ==> m.streams[a] == Stream(AtRest, Zero(), []))
  }

  // ----- Atomic steps -----

  datatype Action =
    | BeginAdd(i: nat, t: nat, val: u64)
    | EndAdd(i: nat)
    | BeginMerge(a: nat)
    | Read(a: nat)
    | Finish(a: nat)

  ghost predicate WriterStep(m: Machine, m': Machine, i: nat, writer: Writer) {
    && |m.writers| == m.threads + 1 && i <= m.threads
    && m'.writers == m.writers[i := writer] && m'.threads == m.threads && m'.streams == m.streams
  }

  ghost predicate Load(m: Machine, m': Machine, i: nat, t: nat, val: u64)
    requires Shaped(m)
  {
    && i <= m.threads && t < SB_CNT_MAX && m.writers[i] == Idle
    && WriterStep(m, m', i, Adding(t, val, m.slots[i][t])) && m'.slots == m.slots && m'.added == m.added
  }

  ghost predicate Store(m: Machine, m': Machine, i: nat)
    requires Shaped(m)
  {
    && i <= m.threads && m.writers[i].Adding? && WriterStep(m, m', i, Idle)
    && var w := m.writers[i];
       && m'.slots == SetCell(m.slots, i, w.t, Wrap(w.loaded + w.val))
       && m'.added == SetCell(m.added, i, w.t, m.added[i][w.t] + w.val)
  }

  /** A stream's steps. */
  ghost function Started(s: Stream, m: Machine): Stream {
    s.(reader := Merging(0, 0, Zero(), Zero(), m.added))
  }

  ghost function AfterRead(s: Stream, m: Machine): Stream
    requires Shaped(m) && StreamShaped(s, m.threads) && s.reader.Merging? && s.reader.t < SB_CNT_MAX
  {
    var (t, i) := (s.reader.t, s.reader.i);
    if i == m.threads then s.(reader := s.reader.(t := t + 1, i := 0))
    else
      s.(reader := s.reader.(i := i + 1,
          dst := s.reader.dst[t := Wrap(s.reader.dst[t] + m.slots[i][t])],
          exact := SetNat(s.reader.exact, t, s.reader.exact[t] + m.added[i][t])))
  }

  function SetNat(xs: seq<nat>, t: nat, v: nat): seq<nat>
    requires t < |xs|
  {
    xs[t := v]
  }

  function Differences(dst: seq<u64>, last: seq<u64>): (values: seq<u64>)
    requires |dst| == |last|
    ensures |values| == |dst| && forall t :: 0 <= t < |dst| ==> values[t] == Minus(dst[t], last[t])
  {
    seq(|dst|, t requires 0 <= t < |dst| => Minus(dst[t], last[t]))
  }

  ghost function Finished(s: Stream, m: Machine): Stream
    requires StreamShaped(s, m.threads) && s.reader.Merging?
  {
    Stream(AtRest, s.reader.dst,
           s.reports + [Report(Differences(s.reader.dst, s.last), s.reader.exact, s.reader.before, m.added)])
  }

  ghost predicate StreamStep(m: Machine, m': Machine, a: nat, s: Stream)
    requires a < |m.streams|
  {
    m' == m.(streams := m.streams[a := s])
  }

  ghost predicate Step(m: Machine, m': Machine, action: Action) {
    && Shaped(m)
    && match action
       case BeginAdd(i, t, val) => Load(m, m', i, t, val)
       case EndAdd(i) => Store(m, m', i)
       case BeginMerge(a) =>
         a < |m.streams| && m.streams[a].reader.AtRest? && StreamStep(m, m', a, Started(m.streams[a], m))
       case Read(a) =>
         && a < |m.streams| && m.streams[a].reader.Merging? && m.streams[a].reader.t < SB_CNT_MAX
         && StreamStep(m, m', a, AfterRead(m.streams[a], m))
       case Finish(a) =>
         && a < |m.streams| && m.streams[a].reader.Merging? && m.streams[a].reader.t == SB_CNT_MAX
         && StreamStep(m, m', a, Finished(m.streams[a], m))
  }

  ghost predicate Next(m: Machine, m': Machine) {
    exists action :: Step(m, m', action)
  }

  ghost predicate Run(run: seq<Machine>) {
    && |run| > 0 && Init(run[0])
    && forall k :: 0 < k < |run| ==> Next(run[k - 1], run[k])
  }

  ghost predicate Reachable(m: Machine) {
    exists run :: Run(run) && run[|run| - 1] == m
  }

  // ----- The invariant -----

  /** The sum of all values that a stream ever reported for a counter. */
  ghost function Reported(reports: seq<Report>, t: nat): nat
    requires forall k :: 0 <= k < |reports| ==> t < |reports[k].values|
  {
    if reports == [] then 0 else Reported(reports[..|reports| - 1], t) + reports[|reports| - 1].values[t]
  }

  /** How many threads the merge has read for counter t. */
  ghost function ReadRows(r: Reader, threads: nat, t: nat): (n: nat)
    requires r.Merging? && r.i <= threads
    ensures n <= threads
  {
    if t < r.t then threads else if t == r.t then r.i else 0
  }

  ghost predicate Smaller(rows: seq<seq<nat>>, grown: seq<seq<nat>>, threads: nat)
    requires Table(rows, threads) && Table(grown, threads)
  {
    forall i, t :: 0 <= i <= threads && 0 <= t < SB_CNT_MAX ==> rows[i][t] <= grown[i][t]
  }

  ghost predicate MergeHolds(r: Reader, m: Machine, t: nat)
    requires Shaped(m) && t < SB_CNT_MAX && r.Merging? && r.i <= m.threads
    requires |r.dst| == |r.exact| == SB_CNT_MAX && Table(r.before, m.threads)
  {
    && r.dst[t] == Wrap(r.exact[t])
    && Column(r.before, t, ReadRows(r, m.threads, t)) <= r.exact[t] <= Column(m.added, t, ReadRows(r, m.threads, t))
  }

  ghost predicate ReportHolds(reports: seq<Report>, threads: nat, k: nat, t: nat)
    requires ReportsShaped(reports, threads) && k < |reports| && t < SB_CNT_MAX
  {
    && Wrap(Reported(reports[..k + 1], t)) == Wrap(reports[k].merged[t])
    && Column(reports[k].before, t, threads) <= reports[k].merged[t] <= Column(reports[k].after, t, threads)
  }

  ghost predicate StreamHolds(s: Stream, m: Machine)
    requires Shaped(m) && StreamShaped(s, m.threads)
  {
    && (forall t :: 0 <= t < SB_CNT_MAX ==> Wrap(Reported(s.reports, t)) == s.last[t])
    && (forall k, t :: 0 <= k < |s.reports| && 0 <= t < SB_CNT_MAX ==> ReportHolds(s.reports, m.threads, k, t))
    && (s.reader.Merging? ==>
          && Smaller(s.reader.before, m.added, m.threads)
          && forall t :: 0 <= t < SB_CNT_MAX ==> MergeHolds(s.reader, m, t))
  }

  ghost predicate SlotsHold(m: Machine)
    requires Shaped(m)
  {
    && (forall i, t :: 0 <= i <= m.threads && 0 <= t < SB_CNT_MAX ==> m.slots[i][t] == Wrap(m.added[i][t]))
    && (forall i :: 0 <= i <= m.threads && m.writers[i].Adding? ==>
          m.writers[i].loaded == m.slots[i][m.writers[i].t])
  }

  ghost predicate Invariant(m: Machine) {
    && Shaped(m) && SlotsHold(m)
    && forall a :: 0 <= a < |m.streams| ==> StreamHolds(m.streams[a], m)
  }

  lemma InitInvariant(m: Machine)
    requires Init(m)
    ensures Invariant(m)
  {
    WrapZero();
  }

  lemma LoadKeepsInvariant(m: Machine, m': Machine, i: nat, t: nat, val: u64)
    requires Invariant(m) && Load(m, m', i, t, val)
    ensures Invariant(m')
  {
    forall a | 0 <= a < |m.streams| ensures StreamHolds(m'.streams[a], m') {
      assert StreamHolds(m.streams[a], m);
      SameAddedKeepsStream(m.streams[a], m, m');
    }
  }

  lemma SameAddedKeepsStream(s: Stream, m: Machine, m': Machine)
    requires Shaped(m) && Shaped(m') && m'.added == m.added && m'.threads == m.threads
    requires StreamShaped(s, m.threads) && StreamHolds(s, m)
    ensures StreamHolds(s, m')
  {
    if s.reader.Merging? {
      forall t | 0 <= t < SB_CNT_MAX ensures MergeHolds(s.reader, m', t) { assert MergeHolds(s.reader, m, t); }
    }
  }

  lemma StoreKeepsShape(m: Machine, m': Machine, i: nat)
    requires Invariant(m) && Store(m, m', i)
    ensures Shaped(m')
  {
    var w := m.writers[i];
    ColumnUpdate(m.slots, SB_CNT_MAX, i, w.t, Wrap(w.loaded + w.val), 0, 0);
    ColumnUpdate(m.added, SB_CNT_MAX, i, w.t, m.added[i][w.t] + w.val, 0, 0);
  }

  lemma StoreKeepsSlots(m: Machine, m': Machine, i: nat)
    requires Invariant(m) && Store(m, m', i) && Shaped(m')
    ensures SlotsHold(m')
  {
    var w := m.writers[i];
    PlusWraps(m.added[i][w.t], w.val);
    hide Wrap;
  }

  lemma StoreKeepsStream(m: Machine, m': Machine, i: nat, s: Stream)
    requires Invariant(m) && Store(m, m', i) && Shaped(m')
    requires StreamShaped(s, m.threads) && StreamHolds(s, m)
    ensures StreamHolds(s, m')
  {
    if s.reader.Merging? {
      assert Smaller(s.reader.before, m'.added, m.threads);
      forall t | 0 <= t < SB_CNT_MAX ensures MergeHolds(s.reader, m', t) {
        assert MergeHolds(s.reader, m, t);
        ColumnMonotone(m.added, m'.added, t, ReadRows(s.reader, m.threads, t));
      }
    }
  }

  lemma StoreKeepsInvariant(m: Machine, m': Machine, i: nat)
    requires Invariant(m) && Store(m, m', i)
    ensures Invariant(m')
  {
    StoreKeepsShape(m, m', i);
    StoreKeepsSlots(m, m', i);
    forall a | 0 <= a < |m.streams| ensures StreamHolds(m'.streams[a], m') {
      StoreKeepsStream(m, m', i, m.streams[a]);
    }
  }

  lemma StartKeepsStream(m: Machine, s: Stream)
    requires Shaped(m) && StreamShaped(s, m.threads) && StreamHolds(s, m) && s.reader.AtRest?
    ensures StreamShaped(Started(s, m), m.threads) && StreamHolds(Started(s, m), m)
  {
    WrapZero();
    var s' := Started(s, m);
    forall t | 0 <= t < SB_CNT_MAX ensures MergeHolds(s'.reader, m, t) {
      assert Column(m.added, t, 0) == 0;
    }
  }

  lemma ReadKeepsStream(m: Machine, s: Stream)
    requires Invariant(m) && StreamShaped(s, m.threads) && StreamHolds(s, m)
    requires s.reader.Merging? && s.reader.t < SB_CNT_MAX
    ensures StreamShaped(AfterRead(s, m), m.threads) && StreamHolds(AfterRead(s, m), m)
  {
    var s', r := AfterRead(s, m), s.reader;
    forall t | 0 <= t < SB_CNT_MAX ensures MergeHolds(s'.reader, m, t) {
      assert MergeHolds(r, m, t);
      if r.i < m.threads && t == r.t {
        assert m.slots[r.i][t] == Wrap(m.added[r.i][t]) && r.before[r.i][t] <= m.added[r.i][t];
        WrapAdd(r.exact[t], m.added[r.i][t]);
      } else if t == r.t + 1 && r.i == m.threads {
        assert Column(m.added, t, 0) == 0 == Column(r.before, t, 0);
      }
    }
  }

  lemma FinishKeepsStream(m: Machine, s: Stream)
    requires Invariant(m) && StreamShaped(s, m.threads) && StreamHolds(s, m)
    requires s.reader.Merging? && s.reader.t == SB_CNT_MAX
    ensures StreamShaped(Finished(s, m), m.threads) && StreamHolds(Finished(s, m), m)
  {
    var s', n := Finished(s, m), |s.reports|;
    assert s'.reports[..n] == s.reports;
    forall t | 0 <= t < SB_CNT_MAX
      ensures Wrap(Reported(s'.reports, t)) == s'.last[t] && ReportHolds(s'.reports, m.threads, n, t)
    {
      assert MergeHolds(s.reader, m, t);
      assert s'.reports[..n + 1] == s'.reports;
      ReportAdds(Reported(s.reports, t), s.last[t], s.reader.dst[t]);
    }
    forall k, t | 0 <= k < |s'.reports| && 0 <= t < SB_CNT_MAX ensures ReportHolds(s'.reports, m.threads, k, t) {
      if k < n {
        assert s'.reports[..k + 1] == s.reports[..k + 1];
        assert ReportHolds(s.reports, m.threads, k, t);
      }
    }
  }

  lemma ReportAdds(reported: nat, last: u64, dst: u64)
    requires Wrap(reported) == last
    ensures Wrap(reported + Minus(dst, last)) == dst
  {
    PlusWraps(reported, Minus(dst, last));
    MinusPlus(dst, last);
    hide Wrap, Minus, Plus;
  }

  lemma StreamStepKeepsInvariant(m: Machine, m': Machine, a: nat, s: Stream)
    requires Invariant(m) && a < |m.streams| && StreamStep(m, m', a, s)
    requires StreamShaped(s, m.threads) && StreamHolds(s, m)
    ensures Invariant(m')
  {
    forall b | 0 <= b < |m'.streams| ensures StreamHolds(m'.streams[b], m') {
      SameAddedKeepsStream(m'.streams[b], m, m');
    }
  }

  lemma StepKeepsInvariant(m: Machine, m': Machine, action: Action)
    requires Invariant(m) && Step(m, m', action)
    ensures Invariant(m')
  {
    match action
    case BeginAdd(i, t, val) => LoadKeepsInvariant(m, m', i, t, val);
    case EndAdd(i) => StoreKeepsInvariant(m, m', i);
    case BeginMerge(a) =>
      StartKeepsStream(m, m.streams[a]);
      StreamStepKeepsInvariant(m, m', a, Started(m.streams[a], m));
    case Read(a) =>
      ReadKeepsStream(m, m.streams[a]);
      StreamStepKeepsInvariant(m, m', a, AfterRead(m.streams[a], m));
    case Finish(a) =>
      FinishKeepsStream(m, m.streams[a]);
      StreamStepKeepsInvariant(m, m', a, Finished(m.streams[a], m));
  }

  lemma {:induction false} RunInvariant(run: seq<Machine>)
    requires Run(run)
    ensures Invariant(run[|run| - 1])
  {
    hide Invariant, Step, Init;
    if |run| == 1 {
      InitInvariant(run[0]);
    } else {
      var prefix := run[..|run| - 1];
      assert forall k :: 0 < k < |prefix| ==> Next(prefix[k - 1], prefix[k]);
      RunInvariant(prefix);
      var m, m' := run[|run| - 2], run[|run| - 1];
      assert Next(m, m');
      var action :| Step(m, m', action);
      StepKeepsInvariant(m, m', action);
    }
  }

  /** Whatever the threads and the other streams do in between: the values that a
      stream has reported add up, modulo 2^64, to the total it merged last; and that
      total counts every addition made before the report began and none made after it
      ended. The background row has no part in it. */
  lemma ReportsAddUp(m: Machine, a: nat, k: nat, t: nat)
    requires Reachable(m) && Shaped(m) && a < |m.streams| && k < |m.streams[a].reports| && t < SB_CNT_MAX
    ensures var reports := m.streams[a].reports;
      && Wrap(Reported(reports[..k + 1], t)) == Wrap(reports[k].merged[t])
      && Column(reports[k].before, t, m.threads) <= reports[k].merged[t] <= Column(reports[k].after, t, m.threads)
  {
    var run :| Run(run) && run[|run| - 1] == m;
    RunInvariant(run);
    assert StreamHolds(m.streams[a], m);
    assert ReportHolds(m.streams[a].reports, m.threads, k, t);
  }

  /** Single writers lose nothing: every slot is what was added to it, modulo 2^64. */
  lemma NoAdditionIsLost(m: Machine, i: nat, t: nat)
    requires Reachable(m) && Shaped(m) && i <= m.threads && t < SB_CNT_MAX
    ensures m.slots[i][t] == Wrap(m.added[i][t])
  {
    var run :| Run(run) && run[|run| - 1] == m;
    RunInvariant(run);
  }
}
