/**
 Per-thread timers: what is recorded when an event stops, what a checkpoint takes
 away, and how the copies of all threads are merged for a report.
 */
module Timers {
  import opened Words64

  const NS_PER_SEC: nat := 1_000_000_000

  // ----- Clock readings -----

  datatype Timespec = Timespec(tv_sec: int, tv_nsec: int)

  function Nanoseconds(t: Timespec): int {
    t.tv_sec * NS_PER_SEC + t.tv_nsec
  }

  /** The difference of two clock readings, as the macro computes it. */
  function Diff(a: Timespec, b: Timespec): u64 {
    Wrap(Wrap(Wrap(a.tv_sec - b.tv_sec) * NS_PER_SEC) + Wrap(a.tv_nsec - b.tv_nsec))
  }

  /** The macro is right modulo 2^64, whatever borrow the nanoseconds need. */
  lemma DiffIsExact(a: Timespec, b: Timespec)
    ensures Diff(a, b) == Wrap(Nanoseconds(a) - Nanoseconds(b))
  {
    var s, n := a.tv_sec - b.tv_sec, a.tv_nsec - b.tv_nsec;
    WrapPeriod(Wrap(s) * NS_PER_SEC, s / TWO_64 * NS_PER_SEC);
    assert s == TWO_64 * (s / TWO_64) + Wrap(s);
    hide Wrap;
    assert Wrap(Wrap(s) * NS_PER_SEC) == Wrap(s * NS_PER_SEC);
    WrapAdd(s * NS_PER_SEC, n);
    assert s * NS_PER_SEC + n == Nanoseconds(a) - Nanoseconds(b);
  }

  // ----- What a timer accumulates -----

  datatype Stats = Stats(events: u64, sum: u64, min: u64, max: u64)

  const EMPTY := Stats(0, 0, UINT64_MAX, 0)

  function Recorded(s: Stats, elapsed: u64): Stats {
    Stats(Plus(s.events, 1), Plus(s.sum, elapsed),
          if elapsed < s.min then elapsed else s.min, if elapsed > s.max then elapsed else s.max)
  }

  function Merged(s: Stats, t: Stats): Stats {
    Stats(Plus(s.events, t.events), Plus(s.sum, t.sum),
          if s.min < t.min then s.min else t.min, if s.max > t.max then s.max else t.max)
  }

  function Average(s: Stats): u64 {
    if s.events == 0 then 0 else s.sum / s.events
  }

  /** What a timer holds after the given elapsed times. */
  function Summary(xs: seq<u64>): Stats {
    if xs == [] then EMPTY else Recorded(Summary(xs[..|xs| - 1]), xs[|xs| - 1])
  }

  function Total(xs: seq<u64>): nat {
    if xs == [] then 0 else Total(xs[..|xs| - 1]) + xs[|xs| - 1]
  }

  /** The number, the sum and the extremes of the elapsed times; the number and the sum
      modulo 2^64. */
  lemma {:induction false} SummaryIsTrue(xs: seq<u64>)
    ensures Summary(xs).events == Wrap(|xs|) && Summary(xs).sum == Wrap(Total(xs))
    ensures forall x :: x in xs ==> Summary(xs).min <= x <= Summary(xs).max
    ensures xs != [] ==> Summary(xs).min in xs && Summary(xs).max in xs
  {
    hide Plus, Wrap;
    if xs == [] {
      WrapZero();
    } else {
      var before, last := xs[..|xs| - 1], xs[|xs| - 1];
      SummaryIsTrue(before);
      PlusWraps(|before|, 1);
      PlusWraps(Total(before), last);
      assert xs == before + [last];
      assert last in xs && forall x :: x in before ==> x in xs;
      assert before != [] ==> Summary(before).min in before && Summary(before).max in before;
    }
  }

  lemma {:induction false} TotalBounds(xs: seq<u64>, low: nat, high: nat)
    requires forall x :: x in xs ==> low <= x <= high
    ensures |xs| * low <= Total(xs) <= |xs| * high
  {
    if xs != [] {
      var before, last := xs[..|xs| - 1], xs[|xs| - 1];
      assert last in xs && forall x :: x in before ==> x in xs;
      TotalBounds(before, low, high);
      assert |xs| * low == |before| * low + low && |xs| * high == |before| * high + high;
    }
  }

  lemma QuotientBounds(sum: nat, n: nat, low: nat, high: nat)
    requires n > 0 && n * low <= sum <= n * high
    ensures low <= sum / n <= high
  {
    var q := sum / n;
    Division(sum, n);
    if q < low { ScaledStep(n, q, low); }
    if q > high { ScaledStep(n, high, q); }
  }

  lemma Division(sum: nat, n: nat)
    requires n > 0
    ensures n * (sum / n) <= sum < n * (sum / n) + n
  {
    assert sum == n * (sum / n) + sum % n;
  }

  lemma ScaledStep(n: nat, a: int, b: int)
    requires a < b
    ensures n * a + n <= n * b
  {
    assert n * (b - a - 1) >= 0;
  }

  lemma QuotientSmall(sum: nat, n: nat)
    requires n > 0
    ensures 0 <= sum / n <= sum
  {
    Division(sum, n);
    AtLeast(n, sum / n);
  }

  lemma AtLeast(n: nat, q: int)
    requires n > 0
    ensures q >= 0 ==> n * q >= q
    ensures q < 0 ==> n * q + n <= 0
  {
    if q >= 0 {
      assert (n - 1) * q >= 0;
    } else {
      assert n * (-q - 1) >= 0;
    }
  }

  /** The average lies between the extremes, as long as neither the number nor the sum
      of the events overflows. */
  lemma AverageBetweenExtremes(xs: seq<u64>)
    requires xs != [] && |xs| < TWO_64 && Total(xs) < TWO_64
    ensures Summary(xs).min <= Average(Summary(xs)) <= Summary(xs).max
  {
    SummaryIsTrue(xs);
    WrapSmall(|xs|);
    WrapSmall(Total(xs));
    hide Summary, Total, Wrap;
    TotalBounds(xs, Summary(xs).min, Summary(xs).max);
    QuotientBounds(Total(xs), |xs|, Summary(xs).min, Summary(xs).max);
  }

  /** q is the whole part of a sum divided among n events. */
  predicate IsQuotient(q: nat, sum: nat, n: nat) {
    q * n <= sum < (q + 1) * n
  }

  lemma QuotientIs(sum: nat, n: nat)
    requires n > 0
    ensures 0 <= sum / n && IsQuotient(sum / n, sum, n)
  {
    QuotientSmall(sum, n);
    Division(sum, n);
    var q := sum / n;
    assert (q + 1) * n == n * q + n;
  }

  /** The average is the total of the times divided by their number, rounded down, as long
      as neither overflows; without events it is 0. */
  lemma AverageIsQuotient(xs: seq<u64>)
    requires |xs| < TWO_64 && Total(xs) < TWO_64
    ensures xs == [] ==> Average(Summary(xs)) == 0
    ensures xs != [] ==> IsQuotient(Average(Summary(xs)), Total(xs), |xs|)
  {
    SummaryIsTrue(xs);
    WrapSmall(|xs|);
    WrapSmall(Total(xs));
    hide Summary, Total, Wrap, IsQuotient;
    if xs != [] { QuotientIs(Total(xs), |xs|); }
  }

  // ----- Merging -----

  lemma MergedAlgebra(s: Stats, t: Stats, u: Stats)
    ensures Merged(EMPTY, s) == s
    ensures Merged(s, t) == Merged(t, s)
    ensures Merged(Merged(s, t), u) == Merged(s, Merged(t, u))
  {
    PlusAlgebra(s.events, t.events, u.events);
    PlusAlgebra(s.sum, t.sum, u.sum);
    hide Plus;
  }

  lemma MergedRecorded(s: Stats, t: Stats, elapsed: u64)
    ensures Merged(s, Recorded(t, elapsed)) == Recorded(Merged(s, t), elapsed)
  {
    PlusAlgebra(s.events, t.events, 1);
    PlusAlgebra(s.sum, t.sum, elapsed);
    hide Plus;
  }

  /** Merging two timers is the same as recording all their events in one. */
  lemma {:induction false} SummaryAdd(xs: seq<u64>, ys: seq<u64>)
    ensures Summary(xs + ys) == Merged(Summary(xs), Summary(ys))
  {
    if ys == [] {
      assert xs + ys == xs;
      MergedAlgebra(Summary(xs), EMPTY, EMPTY);
    } else {
      var before := ys[..|ys| - 1];
      assert (xs + ys)[..|xs + ys| - 1] == xs + before;
      SummaryAdd(xs, before);
      MergedRecorded(Summary(xs), Summary(before), ys[|ys| - 1]);
    }
  }

  /** The fold over all threads, from a new timer. */
  function MergeAll(ts: seq<Stats>): Stats {
    if ts == [] then EMPTY else Merged(MergeAll(ts[..|ts| - 1]), ts[|ts| - 1])
  }

  function Flat(xss: seq<seq<u64>>): seq<u64> {
    if xss == [] then [] else Flat(xss[..|xss| - 1]) + xss[|xss| - 1]
  }

  function Summaries(xss: seq<seq<u64>>): (ts: seq<Stats>)
    ensures |ts| == |xss| && forall i :: 0 <= i < |xss| ==> ts[i] == Summary(xss[i])
  {
    seq(|xss|, i requires 0 <= i < |xss| => Summary(xss[i]))
  }

  /** The merged timer is the one that would have recorded every event of every thread. */
  lemma {:induction false} MergeAllIsSummary(xss: seq<seq<u64>>)
    ensures MergeAll(Summaries(xss)) == Summary(Flat(xss))
  {
    if xss != [] {
      var before, last := xss[..|xss| - 1], xss[|xss| - 1];
      MergeAllIsSummary(before);
      assert Summaries(xss)[..|xss| - 1] == Summaries(before);
      SummaryAdd(Flat(before), last);
    }
  }

  function WithoutAt(ts: seq<Stats>, i: nat): seq<Stats>
    requires i < |ts|
  {
    ts[..i] + ts[i + 1..]
  }

  /** Any thread can be taken out of the fold and merged last. */
  lemma {:induction false} MergeAllTakesOut(ts: seq<Stats>, i: nat)
    requires i < |ts|
    ensures MergeAll(ts) == Merged(MergeAll(WithoutAt(ts, i)), ts[i])
  {
    var n := |ts| - 1;
    if i == n {
      assert WithoutAt(ts, i) == ts[..n];
    } else {
      var rest := WithoutAt(ts, i);
      MergeAllTakesOut(ts[..n], i);
      assert rest[..n - 1] == WithoutAt(ts[..n], i) && rest[n - 1] == ts[n];
      MergedAlgebra(MergeAll(WithoutAt(ts[..n], i)), ts[i], ts[n]);
      MergedAlgebra(ts[i], ts[n], EMPTY);
      MergedAlgebra(MergeAll(WithoutAt(ts[..n], i)), ts[n], ts[i]);
    }
  }

  /** The order of the threads does not matter. */
  lemma {:induction false} MergeOrderIrrelevant(ts: seq<Stats>, us: seq<Stats>)
    requires multiset(ts) == multiset(us)
    ensures MergeAll(ts) == MergeAll(us)
    decreases |us|
  {
    hide Merged, WithoutAt;
    SameLength(ts, us);
    if us != [] {
      var n := |us| - 1;
      assert us == us[..n] + [us[n]];
      assert us[n] in multiset(ts);
      var i :| 0 <= i < |ts| && ts[i] == us[n];
      WithoutElements(ts, i);
      assert multiset(us[..n]) == multiset(us) - multiset{us[n]};
      MergeAllTakesOut(ts, i);
      MergeOrderIrrelevant(WithoutAt(ts, i), us[..n]);
    }
  }

  lemma WithoutElements(ts: seq<Stats>, i: nat)
    requires i < |ts|
    ensures multiset(WithoutAt(ts, i)) == multiset(ts) - multiset{ts[i]}
  {
    assert ts == ts[..i] + [ts[i]] + ts[i + 1..];
  }

  lemma SameLength(ts: seq<Stats>, us: seq<Stats>)
    requires multiset(ts) == multiset(us)
    ensures |ts| == |us|
  {
    assert |multiset(ts)| == |ts| && |multiset(us)| == |us|;
  }

  // ----- The timer object -----

  datatype TimerState = TimerState(start: Timespec, queue: u64, stats: Stats)

  function Elapsed(t: TimerState, now: Timespec): u64 {
    Plus(Diff(now, t.start), t.queue)
  }

  class Timer {
    var time_start: Timespec
    var time_end: Timespec
    var events: u64
    var queue_time: u64
    var min_time: u64
    var max_time: u64
    var sum_time: u64

    function Value(): TimerState
      reads this
    {
      TimerState(time_start, queue_time, Stats(events, sum_time, min_time, max_time))
    }

    constructor ()
      ensures Value() == TimerState(Timespec(0, 0), 0, EMPTY)
    {
      time_start := Timespec(0, 0);
      time_end := Timespec(0, 0);
      min_time := UINT64_MAX;
      max_time, sum_time, events, queue_time := 0, 0, 0, 0;
    }

    method Reset()
      modifies this
      ensures Value() == old(Value()).(queue := 0, stats := EMPTY)
    {
      min_time := UINT64_MAX;
      max_time := 0;
      sum_time := 0;
      events := 0;
      queue_time := 0;
    }

    method Start(now: Timespec)
      modifies this
      ensures Value() == old(Value()).(start := now)
    {
      time_start := now;
    }

    method Stop(now: Timespec) returns (elapsed: u64)
      modifies this
      ensures elapsed == Elapsed(old(Value()), now)
      ensures Value() == old(Value()).(stats := Recorded(old(Value()).stats, elapsed))
    {
      time_end := now;
      elapsed := Plus(Diff(time_end, time_start), queue_time);
      events := Plus(events, 1);
      sum_time := Plus(sum_time, elapsed);
      if elapsed < min_time {
        min_time := elapsed;
      }
      if elapsed > max_time {
        max_time := elapsed;
      }
    }

    method Checkpoint(copy: Timer)
      requires copy != this
      modifies this, copy
      ensures copy.Value() == old(Value())
      ensures Value() == old(Value()).(queue := 0, stats := EMPTY)
    {
      copy.time_start, copy.time_end := time_start, time_end;
      copy.events, copy.queue_time := events, queue_time;
      copy.min_time, copy.max_time, copy.sum_time := min_time, max_time, sum_time;
      Reset();
    }

    method Avg() returns (avg: u64)
      ensures avg == Average(Value().stats)
      ensures if events == 0 then avg == 0 else IsQuotient(avg, sum_time, events)
    {
      if events == 0 {
        return 0;
      }
      QuotientSmall(sum_time, events);
      QuotientIs(sum_time, events);
      hide IsQuotient;
      return sum_time / events;
    }

    static method Merge(t1: Timer, t2: Timer) returns (t: Timer)
      ensures fresh(t) && t.Value().stats == Merged(t1.Value().stats, t2.Value().stats)
    {
      t := new Timer();
      t.sum_time := Plus(t1.sum_time, t2.sum_time);
      t.events := Plus(t1.events, t2.events);
      t.max_time := if t1.max_time > t2.max_time then t1.max_time else t2.max_time;
      t.min_time := if t1.min_time < t2.min_time then t1.min_time else t2.min_time;
    }
  }

  // ----- Whole runs of one timer -----

  /** What happens to a timer, each under its lock: the thread queues, starts and stops
      an event; a report takes a checkpoint. */
  datatype Event = Queued(wait: u64) | Started(now: Timespec) | Stopped(now: Timespec) | Checkpointed

  function Apply(t: TimerState, e: Event): TimerState {
    match e
    case Queued(wait) => t.(queue := wait)
    case Started(now) => t.(start := now)
    case Stopped(now) => t.(stats := Recorded(t.stats, Elapsed(t, now)))
    case Checkpointed => t.(queue := 0, stats := EMPTY)
  }

  function After(events: seq<Event>): TimerState {
    if events == [] then TimerState(Timespec(0, 0), 0, EMPTY)
    else Apply(After(events[..|events| - 1]), events[|events| - 1])
  }

  /** The copies that the checkpoints took, in order. */
  function Copies(events: seq<Event>): seq<Stats> {
    if events == [] then []
    else
      var before := events[..|events| - 1];
      Copies(before) + if events[|events| - 1].Checkpointed? then [After(before).stats] else []
  }

  /** The elapsed times that stops recorded, in order. */
  function Times(events: seq<Event>): seq<u64> {
    if events == [] then []
    else
      var before, e := events[..|events| - 1], events[|events| - 1];
      Times(before) + if e.Stopped? then [Elapsed(After(before), e.now)] else []
  }

  /** The elapsed times recorded since the last checkpoint. */
  function Live(events: seq<Event>): seq<u64> {
    if events == [] then []
    else
      var before, e := events[..|events| - 1], events[|events| - 1];
      match e
      case Checkpointed => []
      case Stopped(now) => Live(before) + [Elapsed(After(before), now)]
      case _ => Live(before)
  }

  /** The elapsed times between checkpoints. */
  function Intervals(events: seq<Event>): seq<seq<u64>> {
    if events == [] then []
    else
      var before := events[..|events| - 1];
      Intervals(before) + if events[|events| - 1].Checkpointed? then [Live(before)] else []
  }

  /** Every recorded time is in exactly one checkpoint copy or still in the timer, and
      each copy is what its interval's times give. */
  lemma {:induction false} EveryTimeReportedOnce(events: seq<Event>)
    ensures Flat(Intervals(events)) + Live(events) == Times(events)
    ensures After(events).stats == Summary(Live(events))
    ensures Copies(events) == Summaries(Intervals(events))
  {
    hide Summary, Elapsed, Plus, Recorded, Flat;
    NothingYet();
    if events != [] {
      var before, e := events[..|events| - 1], events[|events| - 1];
      EveryTimeReportedOnce(before);
      match e {
        case Checkpointed =>
          FlatAppend(Intervals(before), Live(before));
          assert Summaries(Intervals(before) + [Live(before)])
              == Summaries(Intervals(before)) + [Summary(Live(before))];
        case Stopped(now) =>
          RecordLive(before, now);
          assert Copies(before) + [] == Copies(before) && Intervals(before) + [] == Intervals(before);
        case _ =>
          assert Copies(before) + [] == Copies(before) && Intervals(before) + [] == Intervals(before);
          assert Times(before) + [] == Times(before);
      }
    }
  }

  lemma NothingYet()
    ensures Summary([]) == EMPTY && Flat([]) == []
  {
  }

  lemma FlatAppend(xss: seq<seq<u64>>, xs: seq<u64>)
    ensures Flat(xss + [xs]) == Flat(xss) + xs
  {
    assert (xss + [xs])[..|xss|] == xss;
  }

  lemma RecordLive(before: seq<Event>, now: Timespec)
    requires After(before).stats == Summary(Live(before))
    ensures Summary(Live(before) + [Elapsed(After(before), now)])
            == Recorded(After(before).stats, Elapsed(After(before), now))
  {
    var live, x := Live(before), Elapsed(After(before), now);
    assert (live + [x])[..|live|] == live;
  }

  /** The r-th copy of each thread, and the times of its r-th interval. */
  function CopiesAt(threads: seq<seq<Event>>, r: nat): (ts: seq<Stats>)
    requires forall i :: 0 <= i < |threads| ==> r < |Copies(threads[i])|
    ensures |ts| == |threads| && forall i :: 0 <= i < |threads| ==> ts[i] == Copies(threads[i])[r]
  {
    seq(|threads|, i requires 0 <= i < |threads| => Copies(threads[i])[r])
  }

  function IntervalsAt(threads: seq<seq<Event>>, r: nat): (xss: seq<seq<u64>>)
    requires forall i :: 0 <= i < |threads| ==> r < |Intervals(threads[i])|
    ensures |xss| == |threads| && forall i :: 0 <= i < |threads| ==> xss[i] == Intervals(threads[i])[r]
  {
    seq(|threads|, i requires 0 <= i < |threads| => Intervals(threads[i])[r])
  }

  /** A cumulative report merges one copy of each thread: the result counts all events
      of the threads' intervals, and its average is their total divided by their number. */
  lemma ReportIsTrue(threads: seq<seq<Event>>, r: nat)
    requires forall i :: 0 <= i < |threads| ==> r < |Copies(threads[i])|
    ensures forall i :: 0 <= i < |threads| ==> r < |Intervals(threads[i])|
    ensures MergeAll(CopiesAt(threads, r)) == Summary(Flat(IntervalsAt(threads, r)))
    ensures var times := Flat(IntervalsAt(threads, r));
      |times| < TWO_64 && Total(times) < TWO_64 ==>
        var avg := Average(MergeAll(CopiesAt(threads, r)));
        && (if times == [] then avg == 0 else IsQuotient(avg, Total(times), |times|))
        && (times != [] ==> Summary(times).min <= avg <= Summary(times).max)
  {
    forall i | 0 <= i < |threads|
      ensures Copies(threads[i]) == Summaries(Intervals(threads[i])) && r < |Intervals(threads[i])|
    {
      EveryTimeReportedOnce(threads[i]);
    }
    var xss := IntervalsAt(threads, r);
    assert CopiesAt(threads, r) == Summaries(xss);
    MergeAllIsSummary(xss);
    var times := Flat(xss);
    hide Average, IsQuotient, Summary, Total, MergeAll;
    if |times| < TWO_64 && Total(times) < TWO_64 {
      AverageIsQuotient(times);
      if times != [] { AverageBetweenExtremes(times); }
    }
  }

  /** A queue time stays in the timer until a checkpoint resets it. */
  lemma {:induction false} QueueTimeSurvives(events: seq<Event>, wait: u64, during: seq<Event>)
    requires forall e :: e in during ==> e.Started? || e.Checkpointed?
    ensures After(events + [Queued(wait)] + during).queue == if Checkpointed in during then 0 else wait
  {
    var all := events + [Queued(wait)] + during;
    if during == [] {
      assert all[..|all| - 1] == events && all[|all| - 1] == Queued(wait);
    } else {
      var before, e := during[..|during| - 1], during[|during| - 1];
      assert all[..|all| - 1] == events + [Queued(wait)] + before && all[|all| - 1] == e;
      assert during == before + [e] && e in during;
      assert forall x :: x in before ==> x in during;
      QueueTimeSurvives(events, wait, before);
    }
  }

  /** Between start and stop, a checkpoint leaves the start alone and resets the queue time. */
  lemma {:induction false} StartSurvives(events: seq<Event>, s: Timespec, during: seq<Event>)
    requires forall e :: e in during ==> e.Checkpointed?
    ensures After(events + [Started(s)] + during).start == s
    ensures After(events + [Started(s)] + during).queue == if during == [] then After(events).queue else 0
  {
    var all := events + [Started(s)] + during;
    if during == [] {
      assert all[..|all| - 1] == events && all[|all| - 1] == Started(s);
    } else {
      var before, e := during[..|during| - 1], during[|during| - 1];
      assert all[..|all| - 1] == events + [Started(s)] + before && all[|all| - 1] == e;
      assert e in during && forall x :: x in before ==> x in during;
      StartSurvives(events, s, before);
    }
  }

  /** The time recorded for an event: from its start to its stop in nanoseconds, and the
      time it waited before, unless a checkpoint came in between. */
  lemma ElapsedExactly(events: seq<Event>, s: Timespec, during: seq<Event>, now: Timespec)
    requires forall e :: e in during ==> e.Checkpointed?
    ensures var t := After(events + [Started(s)] + during);
      Elapsed(t, now) ==
        (Nanoseconds(now) - Nanoseconds(s) + if during == [] then After(events).queue else 0) % TWO_64
  {
    StartSurvives(events, s, during);
    DiffIsExact(now, s);
    var t := After(events + [Started(s)] + during);
    WrapSmall(t.queue);
    WrapAdd(Nanoseconds(now) - Nanoseconds(s), t.queue);
    assert Wrap(Nanoseconds(now) - Nanoseconds(s) + t.queue)
        == (Nanoseconds(now) - Nanoseconds(s) + t.queue) % TWO_64;
    hide Diff, Wrap, After, Nanoseconds;
  }

  lemma PlusTellsApart(d: u64, a: u64, b: u64)
    ensures Plus(d, a) == Plus(d, b) <==> a == b
  {
  }

  /** The time an event waited in the queue is part of the elapsed time that its stop
      records if and only if no checkpoint came between queueing and stopping, or it
      was 0 anyway. */
  lemma QueueTimeRecordedExactly(events: seq<Event>, wait: u64, during: seq<Event>, now: Timespec)
    requires forall e :: e in during ==> e.Started? || e.Checkpointed?
    ensures var all := events + [Queued(wait)] + during;
      var t := After(all);
      && After(all + [Stopped(now)]).stats == Recorded(t.stats, Elapsed(t, now))
      && (Elapsed(t, now) == Plus(Diff(now, t.start), wait) <==> Checkpointed !in during || wait == 0)
  {
    var all := events + [Queued(wait)] + during;
    var t := After(all);
    QueueTimeSurvives(events, wait, during);
    PlusTellsApart(Diff(now, t.start), t.queue, wait);
    assert (all + [Stopped(now)])[..|all|] == all;
    hide Plus, Diff, Recorded;
  }
}
