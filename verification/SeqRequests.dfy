/**
 The sequential file I/O test: the generator of read, write and fsync requests,
 which keeps its place in a few counters, and the run-time check on its output.
 */
module SeqRequests {
  import NumberTheory
  import opened Words32

  datatype Operation = NULL | READ | WRITE | FSYNC

  datatype Request = Request(file_id: int, pos: int, size: int, operation: Operation)

  const NO_REQUEST := Request(0, 0, 0, NULL)

  /** The modes of the sequential test. */
  datatype Mode = MODE_READ | MODE_WRITE | MODE_REWRITE

  /** The options, as the argument parser lets them through. */
  datatype Config = Config(
    num_files: nat, total_size: nat, request_size: nat, fsync_freq: nat, test_mode: Mode, validate: bool)
  {
    predicate Writing() {
      test_mode == MODE_WRITE || test_mode == MODE_REWRITE
    }

    predicate Valid() {
      0 < num_files < TWO_32 && total_size > 0 && request_size > 0 && fsync_freq < 0x8000_0000
    }

    function FileSize(): nat
      requires num_files > 0
    {
      total_size / num_files
    }

    function DataOperation(): Operation {
      if Writing() then WRITE else READ
    }
  }

  // ----- The generator -----

  datatype State = State(
    position: int, current_file: int, fsynced_file: int, is_dirty: bool, req_performed: int, prev_req: Request)

  datatype Warning = None | FileDifference | PositionDifference | FileSwitch

  datatype Outcome = Outcome(state: State, request: Request, warning: Warning)

  function Initial(): State {
    State(0, 0, 0, false, 0, NO_REQUEST)
  }

  function Min(a: int, b: int): int {
    if a < b then a else b
  }

  /** The check of a request against the one before; file numbers are unsigned. */
  function Check(c: Config, prev: Request, r: Request): Warning
    requires c.Valid()
  {
    if r.operation in {FSYNC, NULL} || prev.operation == NULL then None
    else if (r.file_id - prev.file_id) % TWO_32 > 1 && !(r.file_id == 0 && prev.file_id == c.num_files - 1) then
      FileDifference
    else if r.file_id == prev.file_id then
      if r.pos - prev.pos != prev.size then PositionDifference else None
    else if prev.pos + prev.size != c.FileSize() || r.pos != 0 then FileSwitch
    else None
  }

  predicate FsyncDue(c: Config, s: State) {
    c.fsync_freq != 0 && c.Writing() && s.is_dirty && s.req_performed % c.fsync_freq == 0
  }

  function FsyncOutcome(c: Config, s: State): Outcome {
    var last := s.fsynced_file + 1 == c.num_files;
    Outcome(s.(fsynced_file := if last then 0 else s.fsynced_file + 1, is_dirty := s.is_dirty && !last),
            Request(s.fsynced_file, 0, 0, FSYNC), None)
  }

  function DataOutcome(c: Config, s: State): Outcome
    requires c.Valid()
  {
    var rewind := s.current_file == c.num_files;
    var file := if rewind then 0 else s.current_file;
    var start := if rewind then 0 else s.position;
    var r := Request(file, start, Min(c.request_size, c.FileSize() - start), c.DataOperation());
    var complete := start + r.size == c.FileSize();
    Outcome(
      State(if complete then 0 else start + r.size, if complete then file + 1 else file, s.fsynced_file,
            s.is_dirty || c.Writing(), (s.req_performed + 1) % TWO_32, if c.validate then r else s.prev_req),
      r,
      if c.validate then Check(c, s.prev_req, r) else None)
  }

  function Next(c: Config, s: State): Outcome
    requires c.Valid()
  {
    if FsyncDue(c, s) then FsyncOutcome(c, s) else DataOutcome(c, s)
  }

  class Generator {
    const config: Config
    var position: int
    var current_file: int
    var fsynced_file: int
    var is_dirty: bool
    var req_performed: int
    var prev_req: Request

    function Value(): State
      reads this
    {
      State(position, current_file, fsynced_file, is_dirty, req_performed, prev_req)
    }

    constructor (c: Config)
      requires c.Valid()
      ensures config == c && Value() == Initial()
    {
      config := c;
      position := 0;
      current_file := 0;
      fsynced_file := 0;
      req_performed := 0;
      is_dirty := false;
      prev_req := NO_REQUEST;
    }

    method GetSeqRequest() returns (r: Request, warning: Warning)
      requires config.Valid()
      modifies this
      ensures Outcome(Value(), r, warning) == Next(config, old(Value()))
    {
      hide Check;
      warning := None;
      var operation := if config.test_mode == MODE_WRITE || config.test_mode == MODE_REWRITE then WRITE else READ;
      if config.fsync_freq != 0 && operation == WRITE && is_dirty && req_performed % config.fsync_freq == 0 {
        r := Request(fsynced_file, 0, 0, FSYNC);
        fsynced_file := fsynced_file + 1;
        if fsynced_file == config.num_files {
          fsynced_file := 0;
          is_dirty := false;
        }
        return;
      }
      req_performed := (req_performed + 1) % TWO_32;
      if operation == WRITE {
        is_dirty := true;
      }
      if current_file == config.num_files {
        position := 0;
        current_file := 0;
      }
      var size := Min(config.request_size, config.FileSize() - position);
      r := Request(current_file, position, size, operation);
      position := position + size;
      if position == config.FileSize() {
        current_file := current_file + 1;
        position := 0;
      }
      if config.validate {
        warning := CheckSeqReq(prev_req, r);
        prev_req := r;
      }
    }

    method CheckSeqReq(prev: Request, r: Request) returns (warning: Warning)
      requires config.Valid()
      ensures warning == Check(config, prev, r)
    {
      if r.operation == FSYNC || r.operation == NULL {
        return None;
      }
      if prev.operation == NULL {
        return None;
      }
      if (r.file_id - prev.file_id) % TWO_32 > 1 && !(r.file_id == 0 && prev.file_id == config.num_files - 1) {
        return FileDifference;
      }
      if r.file_id == prev.file_id {
        if r.pos - prev.pos != prev.size {
          return PositionDifference;
        }
      } else if prev.pos + prev.size != config.FileSize() || r.pos != 0 {
        return FileSwitch;
      }
      return None;
    }
  }

  /** The state before call m, and what call m gives, counting from 0. */
  function StateAt(c: Config, m: nat): State
    requires c.Valid()
  {
    if m == 0 then Initial() else Next(c, StateAt(c, m - 1)).state
  }

  function EventAt(c: Config, m: nat): Outcome
    requires c.Valid()
  {
    Next(c, StateAt(c, m))
  }

  // ----- The closed form -----

  /** How many requests it takes to go through a file. An empty file takes one. */
  function RequestsPerFile(c: Config): (k: nat)
    requires c.Valid()
    ensures k > 0
  {
    if c.FileSize() == 0 then 1 else 1 + (c.FileSize() - 1) / c.request_size
  }

  /** The part of a file that its i-th request covers. */
  function Start(c: Config, i: nat): nat {
    i * c.request_size
  }

  function Piece(c: Config, i: nat): int
    requires c.Valid()
  {
    Min(c.request_size, c.FileSize() - Start(c, i))
  }

  /** The n-th read or write request. */
  function DataRequest(c: Config, n: nat): Request
    requires c.Valid()
  {
    var k := RequestsPerFile(c);
    Request(FileOf(n / k, c.num_files), Start(c, n % k), Piece(c, n % k), c.DataOperation())
  }

  function FileOf(visit: nat, num_files: nat): nat
    requires num_files > 0
  {
    visit % num_files
  }

  /** The period of the cadence: the writes of a round and its fsyncs. */
  function Period(c: Config): (p: nat)
    requires c.Valid()
    ensures p > 0
  {
    c.fsync_freq + c.num_files
  }

  /** Request m of a cadence is request Slot of round Round. */
  function Round(c: Config, m: nat): nat
    requires c.Valid()
  {
    m / Period(c)
  }

  function Slot(c: Config, m: nat): (r: nat)
    requires c.Valid()
    ensures r < Period(c)
  {
    m % Period(c)
  }

  lemma NextSlot(c: Config, m: nat)
    requires c.Valid()
    ensures Slot(c, m) + 1 < Period(c) ==> Round(c, m + 1) == Round(c, m) && Slot(c, m + 1) == Slot(c, m) + 1
    ensures Slot(c, m) + 1 == Period(c) ==> Round(c, m + 1) == Round(c, m) + 1 && Slot(c, m + 1) == 0
  {
    DivModStep(m, Period(c));
  }

  /** Request m as a regular cadence would have it: after every fsync_freq writes,
      one fsync for each file. */
  function Cadence(c: Config, m: nat): Request
    requires c.Valid()
  {
    if !c.Writing() || c.fsync_freq == 0 then DataRequest(c, m)
    else CadenceAt(c, Round(c, m), Slot(c, m))
  }

  /** The r-th request of round q. */
  function CadenceAt(c: Config, q: nat, r: nat): Request
    requires c.Valid()
  {
    if r < c.fsync_freq then DataRequest(c, Written(c, q, r))
    else Request(r - c.fsync_freq, 0, 0, FSYNC)
  }

  /** The writes made before the r-th request of round q. */
  function Written(c: Config, q: nat, r: nat): nat {
    q * c.fsync_freq + Min(r, c.fsync_freq)
  }

  // ----- Division -----

  lemma DivModStep(n: nat, k: nat)
    requires k > 0
    ensures n % k + 1 < k ==> (n + 1) / k == n / k && (n + 1) % k == n % k + 1
    ensures n % k + 1 == k ==> (n + 1) / k == n / k + 1 && (n + 1) % k == 0
  {
    if n % k + 1 < k {
      NumberTheory.DivisionIsUnique(n + 1, k, n / k, n % k + 1);
    } else {
      assert n + 1 == (n / k + 1) * k + 0;
      NumberTheory.DivisionIsUnique(n + 1, k, n / k + 1, 0);
    }
  }

  /** The k requests of a file follow each other and end at the end of the file. */
  lemma Pieces(c: Config, i: nat)
    requires c.Valid() && i < RequestsPerFile(c)
    ensures Start(c, 0) == 0
    ensures 0 <= Piece(c, i)
    ensures Start(c, i) + Piece(c, i) == if i + 1 < RequestsPerFile(c) then Start(c, i + 1) else c.FileSize()
    ensures i + 1 < RequestsPerFile(c) ==> Start(c, i + 1) < c.FileSize()
  {
    var size, rs, k := c.FileSize(), c.request_size, RequestsPerFile(c);
    if size > 0 {
      assert (k - 1) * rs <= size - 1 < k * rs;
      if i + 1 < k { MultiplyMonotone(i + 1, k - 1, rs); }
      assert (i + 1) * rs == i * rs + rs;
    }
  }

  lemma MultiplyMonotone(a: nat, b: nat, x: nat)
    requires a <= b
    ensures a * x <= b * x
  {
  }

  // ----- The generator follows the closed form -----

  /** The place kept after n read or write requests: going back to the first file
      is put off until the next request. */
  ghost predicate AtData(c: Config, s: State, n: nat)
    requires c.Valid()
  {
    var k := RequestsPerFile(c);
    && s.position == Start(c, n % k)
    && (s.current_file == FileOf(n / k, c.num_files)
        || (s.current_file == c.num_files && FileOf(n / k, c.num_files) == 0 && n % k == 0))
    && (n > 0 ==> c.validate ==> s.prev_req == DataRequest(c, n - 1))
    && (n == 0 ==> s.prev_req == NO_REQUEST)
  }

  lemma DataFollows(c: Config, s: State, n: nat)
    requires c.Valid() && AtData(c, s, n)
    ensures DataOutcome(c, s).request == DataRequest(c, n)
    ensures AtData(c, DataOutcome(c, s).state, n + 1)
    ensures DataOutcome(c, s).warning ==
            if c.validate && n > 0 then Check(c, DataRequest(c, n - 1), DataRequest(c, n)) else None
  {
    var k := RequestsPerFile(c);
    Pieces(c, n % k);
    DivModStep(n, k);
    DivModStep(n / k, c.num_files);
  }

  /** Where the generator stands before the r-th request of round q. */
  ghost predicate InRound(c: Config, s: State, q: nat, r: nat)
    requires c.Valid()
  {
    && AtData(c, s, Written(c, q, r))
    && s.req_performed == Written(c, q, r) % TWO_32
    && s.is_dirty == (r > 0)
    && s.fsynced_file == (if r <= c.fsync_freq then 0 else r - c.fsync_freq)
  }

  /** The counter of requests wraps around harmlessly. */
  ghost predicate Unwrapped(c: Config, written: nat) {
    c.fsync_freq > 0 && (written < TWO_32 || TWO_32 % c.fsync_freq == 0)
  }

  lemma RemainderOfWritten(c: Config, q: nat, r: nat)
    requires Unwrapped(c, Written(c, q, r))
    ensures Written(c, q, r) % TWO_32 % c.fsync_freq == (if r < c.fsync_freq then r else 0)
  {
    var n, f := Written(c, q, r), c.fsync_freq;
    if r < f {
      NumberTheory.DivisionIsUnique(n, f, q, r);
    } else {
      assert n == (q + 1) * f + 0;
      NumberTheory.DivisionIsUnique(n, f, q + 1, 0);
    }
    if n >= TWO_32 { RemainderOfRemainder(n, TWO_32, f); }
  }

  lemma RemainderOfRemainder(n: nat, a: nat, f: nat)
    requires f > 0 && a > 0 && a % f == 0
    ensures n % a % f == n % f
  {
    var t := n % a;
    assert n == (n / a) * a + t;
    assert a == (a / f) * f;
    assert t == (t / f) * f + t % f;
    Regroup(n / a, a / f, f);
    assert n == ((n / a) * (a / f) + t / f) * f + t % f;
    NumberTheory.DivisionIsUnique(n, f, (n / a) * (a / f) + t / f, t % f);
  }

  lemma Regroup(x: nat, y: nat, f: nat)
    ensures x * (y * f) == (x * y) * f
  {
  }

  lemma RoundStep(c: Config, s: State, q: nat, r: nat)
    requires c.Valid() && c.Writing() && InRound(c, s, q, r) && r < Period(c)
    requires Unwrapped(c, Written(c, q, r))
    ensures Next(c, s).request == CadenceAt(c, q, r)
    ensures if r + 1 < Period(c) then InRound(c, Next(c, s).state, q, r + 1)
            else InRound(c, Next(c, s).state, q + 1, 0)
  {
    var n, f := Written(c, q, r), c.fsync_freq;
    RemainderOfWritten(c, q, r);
    assert FsyncDue(c, s) <==> r >= f;
    if r < f {
      DataFollows(c, s, n);
      assert Written(c, q, r + 1) == n + 1;
      Counts(n);
    } else {
      assert (q + 1) * f == q * f + f;
      assert Written(c, q + 1, 0) == Written(c, q, r + 1) == n;
    }
  }

  lemma Counts(n: nat)
    ensures (n % TWO_32 + 1) % TWO_32 == (n + 1) % TWO_32
  {
  }

  // ----- Whole runs -----

  /** The read or write requests among the first m. */
  function DataBefore(c: Config, m: nat): nat
    requires c.Valid()
  {
    if m == 0 then 0
    else DataBefore(c, m - 1) + if EventAt(c, m - 1).request.operation == FSYNC then 0 else 1
  }

  lemma {:induction false} PlaceAt(c: Config, m: nat)
    requires c.Valid()
    ensures AtData(c, StateAt(c, m), DataBefore(c, m))
  {
    if m == 0 {
      assert Start(c, 0) == 0;
    } else {
      PlaceAt(c, m - 1);
      var s := StateAt(c, m - 1);
      if !FsyncDue(c, s) { DataFollows(c, s, DataBefore(c, m - 1)); }
    }
  }

  /** Whatever the fsyncs in between, and for ever, the read or write requests are
      those of the closed form, in order. */
  lemma DataInOrder(c: Config, m: nat)
    requires c.Valid() && EventAt(c, m).request.operation != FSYNC
    ensures EventAt(c, m).request == DataRequest(c, DataBefore(c, m))
  {
    PlaceAt(c, m);
    DataFollows(c, StateAt(c, m), DataBefore(c, m));
  }

  /** The writes among the first m requests of the cadence. */
  function WrittenBefore(c: Config, m: nat): nat
    requires c.Valid()
  {
    Written(c, Round(c, m), Slot(c, m))
  }

  lemma WrittenGrows(c: Config, m: nat)
    requires c.Valid()
    ensures WrittenBefore(c, m) <= WrittenBefore(c, m + 1)
  {
    var q := Round(c, m);
    NextSlot(c, m);
    assert (q + 1) * c.fsync_freq == q * c.fsync_freq + c.fsync_freq;
  }

  ghost predicate RoundAt(c: Config, m: nat)
    requires c.Valid()
  {
    InRound(c, StateAt(c, m), Round(c, m), Slot(c, m))
  }

  lemma RoundAtStart(c: Config)
    requires c.Valid()
    ensures RoundAt(c, 0)
  {
    assert Start(c, 0) == 0;
    assert Round(c, 0) == 0 == Slot(c, 0);
    assert Written(c, 0, 0) == 0;
  }

  lemma RoundAtNext(c: Config, m: nat)
    requires c.Valid() && c.Writing() && Unwrapped(c, WrittenBefore(c, m)) && RoundAt(c, m)
    ensures EventAt(c, m).request == Cadence(c, m)
    ensures RoundAt(c, m + 1)
  {
    hide InRound, CadenceAt, Next, Period, Written, FsyncDue, Round, Slot;
    NextSlot(c, m);
    RoundStep(c, StateAt(c, m), Round(c, m), Slot(c, m));
    assert StateAt(c, m + 1) == Next(c, StateAt(c, m)).state;
  }

  lemma {:induction false} RoundRun(c: Config, m: nat)
    requires c.Valid() && c.Writing() && (m > 0 ==> Unwrapped(c, WrittenBefore(c, m - 1)))
    ensures RoundAt(c, m)
  {
    if m == 0 {
      RoundAtStart(c);
    } else {
      hide RoundAt, WrittenBefore;
      if m > 1 { WrittenGrows(c, m - 2); }
      RoundRun(c, m - 1);
      RoundAtNext(c, m - 1);
    }
  }

  /** Request m is the one of the regular cadence: without fsyncs always; with
      fsyncs for the first 2^32 writes, and always if fsync_freq divides 2^32. */
  lemma CadenceHolds(c: Config, m: nat)
    requires c.Valid()
    requires c.Writing() && c.fsync_freq > 0 ==> Unwrapped(c, WrittenBefore(c, m))
    ensures EventAt(c, m).request == Cadence(c, m)
  {
    if c.Writing() && c.fsync_freq > 0 {
      if m > 0 { WrittenGrows(c, m - 1); }
      RoundRun(c, m);
      RoundAtNext(c, m);
    } else {
      NoFsyncs(c, m);
      DataInOrder(c, m);
    }
  }

  lemma {:induction false} NoFsyncs(c: Config, m: nat)
    requires c.Valid() && !(c.Writing() && c.fsync_freq > 0)
    ensures DataBefore(c, m) == m
  {
    if m > 0 { NoFsyncs(c, m - 1); }
  }

  /** The request at which a wrapped counter brings the fsyncs forward. */
  function FirstIrregular(c: Config): nat
    requires c.Valid() && c.fsync_freq > 0
  {
    TWO_32 / c.fsync_freq * Period(c) + TWO_32 % c.fsync_freq
  }

  lemma CadenceBreaks(c: Config)
    requires c.Valid() && c.Writing() && c.fsync_freq > 0 && TWO_32 % c.fsync_freq != 0
    ensures WrittenBefore(c, FirstIrregular(c)) == TWO_32
    ensures EventAt(c, FirstIrregular(c)).request == Request(0, 0, 0, FSYNC) != Cadence(c, FirstIrregular(c))
  {
    IrregularIndex(c);
    hide FirstIrregular, Period, DataRequest, AtData, Round, Slot;
    RoundRun(c, FirstIrregular(c));
  }

  lemma IrregularIndex(c: Config)
    requires c.Valid() && c.fsync_freq > 0 && TWO_32 % c.fsync_freq != 0
    ensures var (m, q, r) := (FirstIrregular(c), TWO_32 / c.fsync_freq, TWO_32 % c.fsync_freq);
      && m > 0 && Round(c, m) == q && Slot(c, m) == r
      && WrittenBefore(c, m) == TWO_32 && WrittenBefore(c, m - 1) == TWO_32 - 1
  {
    var m, q, r := FirstIrregular(c), TWO_32 / c.fsync_freq, TWO_32 % c.fsync_freq;
    assert TWO_32 == q * c.fsync_freq + r;
    NumberTheory.DivisionIsUnique(m, Period(c), q, r);
    NumberTheory.DivisionIsUnique(m - 1, Period(c), q, r - 1);
  }

  /** The cadence is regular for ever if and only if fsync_freq divides 2^32. */
  lemma CadenceRegularExactly(c: Config)
    requires c.Valid() && c.Writing() && c.fsync_freq > 0
    ensures (forall m: nat :: EventAt(c, m).request == Cadence(c, m)) <==> TWO_32 % c.fsync_freq == 0
  {
    if TWO_32 % c.fsync_freq == 0 {
      forall m: nat ensures EventAt(c, m).request == Cadence(c, m) { CadenceHolds(c, m); }
    } else {
      CadenceBreaks(c);
    }
  }

  /** What a test asks for: one that reads only reads; one that writes writes or syncs, and
      syncs only if there is a frequency; each sync is for one whole file. */
  lemma OperationsExactly(c: Config, m: nat)
    requires c.Valid()
    ensures var r := EventAt(c, m).request;
      && (c.test_mode == MODE_READ <==> r.operation == READ)
      && (c.test_mode != MODE_READ <==> r.operation == WRITE || r.operation == FSYNC)
      && (r.operation == FSYNC ==> c.fsync_freq > 0 && r.pos == 0 && r.size == 0)
  {
    hide StateAt, Check;
  }

  // ----- The run-time check -----

  /** Request r goes on where prev ended: in the same file, or at the start of the next one
      when prev ended at the end of its file; after the last file comes the first. */
  predicate GoesOn(c: Config, prev: Request, r: Request)
    requires c.Valid()
  {
    if r.file_id == prev.file_id then r.pos == prev.pos + prev.size
    else NextFile(c, prev, r) && prev.pos + prev.size == c.FileSize() && r.pos == 0
  }

  predicate NextFile(c: Config, prev: Request, r: Request) {
    r.file_id == (prev.file_id + 1) % TWO_32 || (r.file_id == 0 && prev.file_id == c.num_files - 1)
  }

  /** The check lets pass exactly the requests that go on where the one before ended, and
      fsyncs, and whatever comes first. Otherwise the warning tells what is wrong. */
  lemma CheckAcceptsExactly(c: Config, prev: Request, r: Request)
    requires c.Valid() && 0 <= prev.file_id < TWO_32 && 0 <= r.file_id < TWO_32
    ensures Check(c, prev, r) == None
      <==> r.operation in {FSYNC, NULL} || prev.operation == NULL || GoesOn(c, prev, r)
    ensures Check(c, prev, r) != None ==>
      Check(c, prev, r) == if r.file_id == prev.file_id then PositionDifference
                           else if NextFile(c, prev, r) then FileSwitch else FileDifference
  {
    var d := r.file_id - prev.file_id;
    assert d % TWO_32 == if d >= 0 then d else d + TWO_32;
    assert (prev.file_id + 1) % TWO_32 == if prev.file_id + 1 == TWO_32 then 0 else prev.file_id + 1;
  }

  /** Successive requests of the closed form pass the check, except that a single
      file is reported whenever the test starts it again. */
  lemma CheckOfSuccessive(c: Config, n: nat)
    requires c.Valid() && n > 0
    ensures Check(c, DataRequest(c, n - 1), DataRequest(c, n))
         == if c.num_files == 1 && n % RequestsPerFile(c) == 0 then PositionDifference else None
  {
    var k := RequestsPerFile(c);
    DivModStep(n - 1, k);
    DivModStep((n - 1) / k, c.num_files);
    Pieces(c, (n - 1) % k);
    if c.num_files == 1 { SingleFile(c); }
    hide RequestsPerFile, Start;
  }

  lemma SingleFile(c: Config)
    requires c.Valid() && c.num_files == 1
    ensures c.FileSize() > 0
  {
    assert c.total_size / 1 == c.total_size;
  }

  /** When a request makes the check complain: exactly when there is one file and
      the request starts it again. So with two files or more it never does. */
  lemma WarnsExactly(c: Config, m: nat)
    requires c.Valid()
    ensures EventAt(c, m).warning != None <==>
            && c.validate && EventAt(c, m).request.operation != FSYNC && c.num_files == 1
            && DataBefore(c, m) > 0 && DataBefore(c, m) % RequestsPerFile(c) == 0
  {
    var s, n := StateAt(c, m), DataBefore(c, m);
    PlaceAt(c, m);
    if !FsyncDue(c, s) {
      DataFollows(c, s, n);
      if n > 0 { CheckOfSuccessive(c, n); }
    }
    hide DataOutcome, AtData, RequestsPerFile, DataRequest, Check;
  }

  // ----- Every pass covers every file -----

  predicate Covers(r: Request, file: nat, x: nat) {
    r.file_id == file && r.pos <= x < r.pos + r.size
  }

  /** The requests of pass a, numbered among the read or write requests. */
  predicate InPass(c: Config, a: nat, n: nat)
    requires c.Valid()
  {
    a * c.num_files <= n / RequestsPerFile(c) < (a + 1) * c.num_files
  }

  /** The request of pass a that covers byte x of a file. */
  function Covering(c: Config, a: nat, file: nat, x: nat): nat
    requires c.Valid()
  {
    Place(a, c.num_files, file, RequestsPerFile(c)) + x / c.request_size
  }

  function Place(a: nat, files: nat, file: nat, k: nat): nat {
    (a * files + file) * k
  }

  /** Each pass covers each byte of each file by exactly one request. */
  lemma PassCoversOnce(c: Config, a: nat, file: nat, x: nat, n: nat)
    requires c.Valid() && file < c.num_files && x < c.FileSize()
    ensures InPass(c, a, Covering(c, a, file, x))
    ensures InPass(c, a, n) ==> (Covers(DataRequest(c, n), file, x) <==> n == Covering(c, a, file, x))
  {
    var k, nf := RequestsPerFile(c), c.num_files;
    Quotient(c, x);
    NumberTheory.DivisionIsUnique(Covering(c, a, file, x), k, a * nf + file, x / c.request_size);
    assert (a + 1) * nf == a * nf + nf;
    if InPass(c, a, n) {
      var visit, i := n / k, n % k;
      assert n == visit * k + i;
      NumberTheory.DivisionIsUnique(visit, nf, a, visit - a * nf);
      PieceCovers(c, i, x);
    }
  }

  lemma Quotient(c: Config, x: nat)
    requires c.Valid() && x < c.FileSize()
    ensures x / c.request_size < RequestsPerFile(c)
  {
    var rs, y := c.request_size, c.FileSize() - 1;
    if x / rs > y / rs { MultiplyMonotone(y / rs + 1, x / rs, rs); }
  }

  lemma PieceCovers(c: Config, i: nat, x: nat)
    requires c.Valid() && x < c.FileSize()
    ensures Start(c, i) <= x < Start(c, i) + Piece(c, i) <==> i == x / c.request_size
  {
    var rs := c.request_size;
    if Start(c, i) <= x < Start(c, i) + rs {
      NumberTheory.DivisionIsUnique(x, rs, i, x - Start(c, i));
    } else {
      assert x == (x / rs) * rs + x % rs;
    }
  }
}
