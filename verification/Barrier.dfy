/**
 The reusable thread barrier: its critical sections, updated in place, and any
 number of threads going through them in any order, with spurious wake-ups.
 */
module Barrier {
  import opened FiniteSets
  import opened Words32

  const SB_BARRIER_SERIAL_THREAD: int := 1

  // ----- The two critical sections of a wait -----

  /** The fields that the mutex protects. */
  datatype Fields = Fields(count: u32, init_count: u32, serial: u32, error: bool)

  datatype Entry = Return(res: int) | Wait(serial: u32)

  function FieldsAfterEntry(b: Fields, callbackFails: bool): Fields {
    if (b.count - 1) % TWO_32 == 0 then
      Fields(b.init_count, b.init_count, (b.serial + 1) % TWO_32, b.error || callbackFails)
    else
      b.(count := (b.count - 1) % TWO_32)
  }

  /** What the entering thread does: the last one returns, the others wait. */
  function EntryOf(b: Fields, callbackFails: bool): Entry {
    if (b.count - 1) % TWO_32 == 0 then Return(if callbackFails then -1 else SB_BARRIER_SERIAL_THREAD)
    else Wait(b.serial)
  }

  datatype Decision = Sleep | Leave(res: int)

  /** What a woken thread that waits for the serial number to change does. */
  function RecheckOf(b: Fields, mine: u32): Decision {
    if mine == b.serial then Sleep else Leave(if b.error then -1 else 0)
  }

  class BarrierObject {
    var count: u32
    var init_count: u32
    var serial: u32
    var error: bool

    function Value(): Fields
      reads this
    {
      Fields(count, init_count, serial, error)
    }

    constructor ()
    {
    }

    method Init(n: u32) returns (rc: int)
      modifies this
      ensures rc == if n == 0 then 1 else 0
      ensures Value() == if n == 0 then old(Value()) else Fields(n, n, 0, false)
    {
      if n == 0 {
        return 1;
      }
      init_count := n;
      count := n;
      serial := 0;
      error := false;
      return 0;
    }

    /** From taking the mutex to either returning or starting to wait. */
    method Enter(callbackFails: bool) returns (e: Entry)
      modifies this
      ensures Value() == FieldsAfterEntry(old(Value()), callbackFails)
      ensures e == EntryOf(old(Value()), callbackFails)
    {
      count := (count - 1) % TWO_32;
      if count == 0 {
        serial := (serial + 1) % TWO_32;
        count := init_count;
        var res := SB_BARRIER_SERIAL_THREAD;
        if callbackFails {
          error := true;
          res := -1;
        }
        e := Return(res);
      } else {
        e := Wait(serial);
      }
    }

    /** After a wake-up, with the mutex held again: the condition of the waiting loop. */
    method Recheck(mine: u32) returns (d: Decision)
      ensures d == RecheckOf(Value(), mine)
    {
      if mine == serial {
        return Sleep;
      }
      var res := if error then -1 else 0;
      return Leave(res);
    }
  }

  // ----- Threads going through the barrier again and again -----

  /** A waiting thread sleeps on the condition variable until it is signalled. */
  datatype Thread = Outside | Waiting(serial: u32, signalled: bool)

  /** A broadcast signals all that wait. */
  function Broadcast(threads: seq<Thread>): (r: seq<Thread>)
    ensures |r| == |threads|
    ensures forall i :: 0 <= i < |r| ==> r[i] == if threads[i].Waiting? then threads[i].(signalled := true) else Outside
  {
    seq(|threads|, i requires 0 <= i < |threads| =>
      if threads[i].Waiting? then threads[i].(signalled := true) else Outside)
  }

  /** calls[t] and results[t]: the waits that thread t started, and the results of
      those it finished. For each generation that completed, failed says whether
      its callback failed and leader which thread completed it. */
  datatype Machine = Machine(
    b: Fields, threads: seq<Thread>, calls: seq<nat>, results: seq<seq<int>>,
    failed: seq<bool>, leader: seq<nat>)
  {
    ghost predicate Shaped() {
      && |threads| == |calls| == |results| == b.init_count > 0
      && |failed| == |leader|
    }
  }

  ghost predicate Init(m: Machine) {
    && m.Shaped()
    && m.b == Fields(|m.threads|, |m.threads|, 0, false)
    && (forall t :: 0 <= t < |m.threads| ==> m.threads[t] == Outside && m.calls[t] == 0 && m.results[t] == [])
    && m.failed == [] && m.leader == []
  }

  ghost predicate Enter(m: Machine, m': Machine, t: nat, callbackFails: bool)
    requires m.Shaped()
  {
    && t < |m.threads| && m.threads[t] == Outside
    && match EntryOf(m.b, callbackFails)
       case Wait(serial) =>
         m' == m.(b := FieldsAfterEntry(m.b, callbackFails),
                  threads := m.threads[t := Waiting(serial, false)], calls := m.calls[t := m.calls[t] + 1])
       case Return(res) =>
         m' == m.(b := FieldsAfterEntry(m.b, callbackFails), threads := Broadcast(m.threads),
                  calls := m.calls[t := m.calls[t] + 1], results := m.results[t := m.results[t] + [res]],
                  failed := m.failed + [callbackFails], leader := m.leader + [t])
  }

  /** A signalled thread gets the mutex again and re-checks. */
  ghost predicate Wake(m: Machine, m': Machine, t: nat)
    requires m.Shaped()
  {
    && t < |m.threads| && m.threads[t].Waiting? && m.threads[t].signalled
    && match RecheckOf(m.b, m.threads[t].serial)
       case Sleep => m' == m.(threads := m.threads[t := m.threads[t].(signalled := false)])
       case Leave(res) => m' == m.(threads := m.threads[t := Outside], results := m.results[t := m.results[t] + [res]])
  }

  /** A thread may be signalled without a broadcast. */
  ghost predicate SpuriousSignal(m: Machine, m': Machine, t: nat) {
    && t < |m.threads| && m.threads[t].Waiting?
    && m' == m.(threads := m.threads[t := m.threads[t].(signalled := true)])
  }

  ghost predicate Step(m: Machine, m': Machine, t: nat, callbackFails: bool) {
    m.Shaped() && (Enter(m, m', t, callbackFails) || Wake(m, m', t) || SpuriousSignal(m, m', t))
  }

  ghost predicate Next(m: Machine, m': Machine) {
    exists t: nat, fails: bool :: Step(m, m', t, fails)
  }

  ghost predicate Run(run: seq<Machine>) {
    && |run| > 0 && Init(run[0])
    && forall i :: 0 < i < |run| ==> Next(run[i - 1], run[i])
  }

  ghost predicate Reachable(m: Machine) {
    exists run :: Run(run) && run[|run| - 1] == m
  }

  // ----- The invariant -----

  /** Whether one of the first k callbacks failed. */
  predicate FailedBy(failed: seq<bool>, k: nat)
    requires k <= |failed|
  {
    exists j :: 0 <= j < k && failed[j]
  }

  /** The serial number of generation g, which wraps around. */
  function SerialOf(g: nat): u32 {
    g % TWO_32
  }

  /** What thread t gets from generation k. */
  function ResultOf(m: Machine, t: nat, k: nat): int
    requires k < |m.failed| == |m.leader|
  {
    if m.leader[k] == t then (if m.failed[k] then -1 else SB_BARRIER_SERIAL_THREAD)
    else if FailedBy(m.failed, k + 1) then -1 else 0
  }

  /** Threads waiting for the generation in progress. */
  ghost function Waiters(m: Machine): set<int>
    requires m.Shaped()
  {
    set t | t in Below(|m.threads|) && m.threads[t].Waiting? && m.calls[t] == |m.failed| + 1
  }

  ghost predicate ThreadInvariant(m: Machine, t: nat)
    requires m.Shaped() && t < |m.threads|
  {
    var g := |m.failed|;
    match m.threads[t]
    case Outside => m.calls[t] == |m.results[t]| == g
    case Waiting(serial, signalled) =>
      && m.calls[t] == |m.results[t]| + 1
      && (m.calls[t] == g + 1 || (m.calls[t] == g && m.leader[g - 1] != t && signalled))
      && serial == SerialOf(m.calls[t] - 1)
  }

  ghost predicate ResultsInvariant(m: Machine, t: nat)
    requires m.Shaped() && t < |m.threads|
  {
    && |m.results[t]| <= |m.failed|
    && forall k :: 0 <= k < |m.results[t]| ==> m.results[t][k] == ResultOf(m, t, k)
  }

  ghost predicate Invariant(m: Machine) {
    && m.Shaped()
    && m.b.serial == SerialOf(|m.failed|)
    && m.b.error == FailedBy(m.failed, |m.failed|)
    && m.b.count == m.b.init_count - |Waiters(m)| > 0
    && (forall t :: 0 <= t < |m.threads| ==> ThreadInvariant(m, t))
    && (forall t :: 0 <= t < |m.threads| ==> ResultsInvariant(m, t))
    && (forall k :: 0 <= k < |m.leader| ==> m.leader[k] < |m.threads|)
  }

  lemma InitInvariant(m: Machine)
    requires Init(m)
    ensures Invariant(m)
  {
    assert Waiters(m) == {};
  }

  lemma WakeKeepsInvariant(m: Machine, m': Machine, t: nat)
    requires Invariant(m) && Wake(m, m', t)
    ensures Invariant(m')
  {
    assert ThreadInvariant(m, t);
    SerialsDiffer(m.calls[t] - 1);
    hide SerialOf, FailedBy;
    assert Waiters(m') == Waiters(m);
    forall u | 0 <= u < |m'.threads| ensures ThreadInvariant(m', u) && ResultsInvariant(m', u) {
      assert ThreadInvariant(m, u) && ResultsInvariant(m, u);
    }
  }

  lemma SignalKeepsInvariant(m: Machine, m': Machine, t: nat)
    requires Invariant(m) && SpuriousSignal(m, m', t)
    ensures Invariant(m')
  {
    hide SerialOf;
    assert Waiters(m') == Waiters(m);
    forall u | 0 <= u < |m'.threads| ensures ThreadInvariant(m', u) && ResultsInvariant(m', u) {
      assert ThreadInvariant(m, u) && ResultsInvariant(m, u);
    }
  }

  lemma SerialsDiffer(g: nat)
    ensures SerialOf(g) != SerialOf(g + 1)
  {
  }

  lemma EnterKeepsInvariant(m: Machine, m': Machine, t: nat, fails: bool)
    requires Invariant(m) && Enter(m, m', t, fails)
    ensures Invariant(m')
  {
    if m.b.count > 1 {
      EarlyEntryKeepsInvariant(m, m', t, fails);
    } else {
      LastEntryKeepsInvariant(m, m', t, fails);
    }
  }

  lemma EarlyEntry(b: Fields, fails: bool)
    requires b.count > 1
    ensures EntryOf(b, fails) == Wait(b.serial) && FieldsAfterEntry(b, fails) == b.(count := b.count - 1)
  {
    assert (b.count - 1) % TWO_32 == b.count - 1;
  }

  lemma LastEntry(b: Fields, fails: bool, g: nat)
    requires b.count == 1 && b.serial == SerialOf(g)
    ensures EntryOf(b, fails) == Return(if fails then -1 else SB_BARRIER_SERIAL_THREAD)
    ensures FieldsAfterEntry(b, fails) == Fields(b.init_count, b.init_count, SerialOf(g + 1), b.error || fails)
  {
    NextSerial(g);
  }

  lemma OneMoreWaiter(m: Machine, m': Machine, t: nat, fails: bool)
    requires Invariant(m) && Enter(m, m', t, fails) && m.b.count > 1
    ensures |Waiters(m')| == |Waiters(m)| + 1
  {
    EarlyEntry(m.b, fails);
    hide SerialOf, EntryOf, FieldsAfterEntry, ResultsInvariant, FailedBy;
    assert ThreadInvariant(m, t);
    assert Waiters(m') == Waiters(m) + {t};
  }

  lemma EarlyEntryKeepsInvariant(m: Machine, m': Machine, t: nat, fails: bool)
    requires Invariant(m) && Enter(m, m', t, fails) && m.b.count > 1
    ensures Invariant(m')
  {
    EarlyEntry(m.b, fails);
    OneMoreWaiter(m, m', t, fails);
    hide SerialOf, EntryOf, FieldsAfterEntry, Waiters, FailedBy;
    forall u | 0 <= u < |m'.threads| ensures ThreadInvariant(m', u) && ResultsInvariant(m', u) {
      assert ThreadInvariant(m, u) && ResultsInvariant(m, u);
    }
  }

  lemma LastEntryKeepsInvariant(m: Machine, m': Machine, t: nat, fails: bool)
    requires Invariant(m) && Enter(m, m', t, fails) && m.b.count == 1
    ensures Invariant(m')
  {
    LastEntry(m.b, fails, |m.failed|);
    hide SerialOf, EntryOf, FieldsAfterEntry;
    assert ThreadInvariant(m, t);
    LastEntryFindsAllWaiting(m, t);
    LastEntryEmptiesGeneration(m, m', t, fails);
    FailedByGrows(m.failed, fails);
    forall u | 0 <= u < |m'.threads| ensures ThreadInvariant(m', u) && ResultsInvariant(m', u) {
      assert ThreadInvariant(m, u) && ResultsInvariant(m, u);
      assert u != t ==> u in Waiters(m);
      forall k | 0 <= k < |m'.results[u]| ensures m'.results[u][k] == ResultOf(m', u, k) {
        if k < |m.failed| { OldResultStands(m, m', u, k, t, fails); }
      }
    }
  }

  lemma LastEntryEmptiesGeneration(m: Machine, m': Machine, t: nat, fails: bool)
    requires Invariant(m) && Enter(m, m', t, fails) && m.b.count == 1
    ensures m'.Shaped() && Waiters(m') == {}
  {
    LastEntry(m.b, fails, |m.failed|);
    hide SerialOf, EntryOf, FieldsAfterEntry;
    assert ThreadInvariant(m, t);
    forall u | 0 <= u < |m.threads| ensures u !in Waiters(m') {
      assert ThreadInvariant(m, u);
    }
  }

  lemma OldResultStands(m: Machine, m': Machine, u: nat, k: nat, t: nat, fails: bool)
    requires k < |m.failed| == |m.leader|
    requires m'.failed == m.failed + [fails] && m'.leader == m.leader + [t]
    ensures ResultOf(m', u, k) == ResultOf(m, u, k)
  {
    assert forall j :: 0 <= j < k + 1 ==> m'.failed[j] == m.failed[j];
  }

  lemma FailedByGrows(failed: seq<bool>, fails: bool)
    ensures FailedBy(failed + [fails], |failed| + 1) <==> FailedBy(failed, |failed|) || fails
  {
    assert (failed + [fails])[|failed|] == fails;
    if FailedBy(failed, |failed|) {
      var j :| 0 <= j < |failed| && failed[j];
      assert (failed + [fails])[j];
    }
  }

  lemma NextSerial(g: nat)
    ensures (SerialOf(g) + 1) % TWO_32 == SerialOf(g + 1)
  {
  }

  lemma LastEntryFindsAllWaiting(m: Machine, t: nat)
    requires Invariant(m) && m.b.count == 1 && t < |m.threads| && m.threads[t] == Outside
    ensures forall u :: 0 <= u < |m.threads| && u != t ==> u in Waiters(m)
  {
    SubsetOfSameSize(Waiters(m), Below(|m.threads|) - {t});
  }

  lemma {:induction false} ReachableInvariant(run: seq<Machine>)
    requires Run(run)
    ensures Invariant(run[|run| - 1])
  {
    hide Invariant, Enter, Wake, SpuriousSignal, Init;
    if |run| == 1 {
      InitInvariant(run[0]);
    } else {
      var prefix := run[..|run| - 1];
      assert forall i :: 0 < i < |prefix| ==> Next(prefix[i - 1], prefix[i]);
      ReachableInvariant(prefix);
      var m, m' := run[|run| - 2], run[|run| - 1];
      assert Next(m, m');
      var t: nat, fails: bool :| Step(m, m', t, fails);
      if Enter(m, m', t, fails) {
        EnterKeepsInvariant(m, m', t, fails);
      } else if Wake(m, m', t) {
        WakeKeepsInvariant(m, m', t);
      } else {
        SignalKeepsInvariant(m, m', t);
      }
    }
  }

  lemma Holds(m: Machine)
    requires Reachable(m)
    ensures Invariant(m)
  {
    var run :| Run(run) && run[|run| - 1] == m;
    ReachableInvariant(run);
  }

  // ----- What the barrier guarantees -----

  /** Nobody finishes its k-th wait before everybody has started its k-th wait. */
  lemma NobodyLeavesEarly(m: Machine, t: nat, u: nat)
    requires Reachable(m) && t < |m.threads| && u < |m.threads|
    ensures m.Shaped() && |m.results[t]| <= m.calls[u]
  {
    Holds(m);
    assert ThreadInvariant(m, t) && ThreadInvariant(m, u);
  }

  /** A waiting thread that compares serial numbers learns exactly whether its
      generation is complete, although serial numbers wrap around. */
  lemma SerialTellsGeneration(m: Machine, t: nat)
    requires Reachable(m) && t < |m.threads| && m.threads[t].Waiting?
    ensures m.Shaped() && m.calls[t] > 0
    ensures m.threads[t].serial != m.b.serial <==> m.calls[t] - 1 < |m.failed|
  {
    Holds(m);
    assert ThreadInvariant(m, t);
    SerialsDiffer(m.calls[t] - 1);
  }

  /** What a re-check decides: a thread leaves exactly when its generation is complete,
      with the result that the generation has for it. */
  lemma RecheckDecides(m: Machine, t: nat)
    requires Reachable(m) && t < |m.threads| && m.threads[t].Waiting?
    ensures m.Shaped() && m.calls[t] > 0
    ensures RecheckOf(m.b, m.threads[t].serial) ==
      if m.calls[t] - 1 < |m.failed| then Leave(ResultOf(m, t, m.calls[t] - 1)) else Sleep
  {
    Holds(m);
    assert ThreadInvariant(m, t);
    SerialTellsGeneration(m, t);
    hide SerialOf, FailedBy;
  }

  /** Every waiting thread whose generation is complete has been signalled. */
  lemma CompleteIsSignalled(m: Machine, t: nat)
    requires Reachable(m) && t < |m.threads| && m.threads[t].Waiting?
    ensures m.Shaped() && (m.calls[t] <= |m.failed| ==> m.threads[t].signalled)
  {
    Holds(m);
    assert ThreadInvariant(m, t);
  }

  /** Without counting on spurious signals, some thread can always move on: one is
      outside, or one that waits has been signalled and will leave. */
  lemma NoDeadlock(m: Machine) returns (t: nat)
    requires Reachable(m)
    ensures t < |m.threads|
    ensures m.threads[t].Waiting? ==> m.threads[t].signalled && RecheckOf(m.b, m.threads[t].serial).Leave?
  {
    Holds(m);
    var idle := Below(|m.threads|) - Waiters(m);
    assert Below(|m.threads|) == idle + Waiters(m);
    assert idle != {};
    t :| t in idle;
    assert ThreadInvariant(m, t);
    SerialsDiffer(m.calls[t]);
    if m.threads[t].Waiting? {
      SerialTellsGeneration(m, t);
      CompleteIsSignalled(m, t);
    }
  }

  /** Everybody has left generation k. */
  ghost predicate AllLeft(m: Machine, k: nat) {
    m.Shaped() && forall t :: 0 <= t < |m.threads| ==> k < |m.results[t]|
  }

  /** Either all callers got a negative value, or exactly one got
      SB_BARRIER_SERIAL_THREAD and all others got 0. */
  ghost predicate Agreement(m: Machine, k: nat)
    requires AllLeft(m, k)
  {
    || (forall t :: 0 <= t < |m.threads| ==> m.results[t][k] < 0)
    || (exists l :: 0 <= l < |m.threads| && m.results[l][k] == SB_BARRIER_SERIAL_THREAD
          && forall t :: 0 <= t < |m.threads| && t != l ==> m.results[t][k] == 0)
  }

  /** The callers of a generation agree if and only if its own callback failed, or
      no earlier one did, or there is only one thread: the error flag is never
      cleared, so after a failure the waiting threads keep reporting it. */
  lemma AgreementExactly(m: Machine, k: nat)
    requires Reachable(m) && AllLeft(m, k)
    ensures k < |m.failed|
    ensures Agreement(m, k) <==> m.failed[k] || !FailedBy(m.failed, k) || |m.threads| == 1
  {
    Holds(m);
    forall t | 0 <= t < |m.threads| ensures k < |m.failed| && m.results[t][k] == ResultOf(m, t, k) {
      assert ResultsInvariant(m, t);
    }
    assert ResultsInvariant(m, 0);
    var l := m.leader[k];
    assert FailedBy(m.failed, k + 1) <==> FailedBy(m.failed, k) || m.failed[k];
    if m.failed[k] {
      assert Agreement(m, k);
    } else if !FailedBy(m.failed, k) || |m.threads| == 1 {
      assert m.results[l][k] == SB_BARRIER_SERIAL_THREAD;
      assert Agreement(m, k);
    } else {
      var other := if l == 0 then 1 else 0;
      assert m.results[other][k] == -1 && m.results[l][k] == SB_BARRIER_SERIAL_THREAD;
    }
  }

  /** Up to and including the first failing callback, the documented contract:
      a failure reaches every caller, and success singles out one of them. */
  lemma ContractUpToFirstFailure(m: Machine, k: nat, t: nat)
    requires Reachable(m) && m.Shaped() && t < |m.threads| && k < |m.results[t]|
    requires k <= |m.failed| ==> !FailedBy(m.failed, k)
    ensures k < |m.failed| == |m.leader|
    ensures m.results[t][k] ==
            if m.failed[k] then -1 else if t == m.leader[k] then SB_BARRIER_SERIAL_THREAD else 0
  {
    Holds(m);
    assert ResultsInvariant(m, t);
    assert FailedBy(m.failed, k + 1) <==> FailedBy(m.failed, k) || m.failed[k];
  }

  // ----- A disagreement -----

  const APART0 := Machine(Fields(2, 2, 0, false), [Outside, Outside], [0, 0], [[], []], [], [])
  const APART1 := Machine(Fields(1, 2, 0, false), [Waiting(0, false), Outside], [1, 0], [[], []], [], [])
  const APART2 := Machine(Fields(2, 2, 1, true), [Waiting(0, true), Outside], [1, 1], [[], [-1]], [true], [1])
  const APART3 := Machine(Fields(2, 2, 1, true), [Outside, Outside], [1, 1], [[-1], [-1]], [true], [1])
  const APART4 := Machine(Fields(1, 2, 1, true), [Waiting(1, false), Outside], [2, 1], [[-1], [-1]], [true], [1])
  const APART5 :=
    Machine(Fields(2, 2, 2, true), [Waiting(1, true), Outside], [2, 2], [[-1], [-1, 1]], [true, false], [1, 1])
  const APART6 := Machine(Fields(2, 2, 2, true), [Outside, Outside], [2, 2], [[-1, -1], [-1, 1]], [true, false], [1, 1])

  lemma FirstGenerationApart()
    ensures Init(APART0) && Step(APART0, APART1, 0, false)
    ensures Step(APART1, APART2, 1, true)
  {
    assert APART0.calls[0 := 1] == [1, 0] && APART0.threads[0 := Waiting(0, false)] == APART1.threads;
    assert Broadcast(APART1.threads) == APART2.threads && APART1.calls[1 := 1] == [1, 1];
    var none: seq<int> := [];
    assert none + [-1] == [-1] && APART1.results[1 := [-1]] == [[], [-1]];
  }

  lemma FirstLeaves()
    ensures Step(APART2, APART3, 0, false)
  {
    var none: seq<int> := [];
    assert none + [-1] == [-1] && APART2.results[0 := [-1]] == [[-1], [-1]];
    assert APART2.threads[0 := Outside] == [Outside, Outside];
  }

  lemma SecondGenerationApart()
    ensures Step(APART3, APART4, 0, false)
    ensures Step(APART4, APART5, 1, false)
  {
    assert APART3.calls[0 := 2] == [2, 1] && APART3.threads[0 := Waiting(1, false)] == APART4.threads;
    assert Broadcast(APART4.threads) == APART5.threads && APART4.calls[1 := 2] == [2, 2];
    assert [-1] + [1] == [-1, 1] && APART4.results[1 := [-1, 1]] == [[-1], [-1, 1]];
  }

  lemma SecondLeaves()
    ensures Step(APART5, APART6, 0, false)
  {
    assert [-1] + [-1] == [-1, -1] && APART5.results[0 := [-1, -1]] == [[-1, -1], [-1, 1]];
    assert APART5.threads[0 := Outside] == [Outside, Outside];
  }

  lemma RunApart()
    ensures Run([APART0, APART1, APART2, APART3, APART4, APART5, APART6])
  {
    FirstGenerationApart();
    FirstLeaves();
    SecondGenerationApart();
    SecondLeaves();
    hide Step, Init;
    var run := [APART0, APART1, APART2, APART3, APART4, APART5, APART6];
    forall i | 0 < i < |run| ensures Next(run[i - 1], run[i]) {
      if i == 1 {} else if i == 2 {} else if i == 3 {} else if i == 4 {} else if i == 5 {} else {}
    }
  }

  lemma ResultsApart()
    ensures AllLeft(APART6, 1) && !Agreement(APART6, 1)
  {
    var r := [[-1, -1], [-1, 1]];
    assert APART6.results == r && r[0][1] == -1 && r[1][1] == 1;
    assert APART6.results[0][1] == -1 && APART6.results[1][1] == 1;
  }

  /** Two threads: the callback of generation 0 fails, that of generation 1 does not, and
      the callers of generation 1 get -1 and SB_BARRIER_SERIAL_THREAD. */
  lemma Disagreement()
    ensures Reachable(APART6) && AllLeft(APART6, 1) && !Agreement(APART6, 1)
  {
    RunApart();
    ResultsApart();
    hide Run, AllLeft, Agreement;
    var run := [APART0, APART1, APART2, APART3, APART4, APART5, APART6];
    assert run[|run| - 1] == APART6;
  }
}
