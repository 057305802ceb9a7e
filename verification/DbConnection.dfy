/**
 A database connection as the driver-independent layer sees it: connection
 states, the one result set, statistics, and the calls that change them. What
 the driver answers to each call is an input.
 */
module DbConnection {
  datatype ConnState = READY | RESULT_SET | INVALID
  datatype DbError = NONE | IGNORABLE | FATAL
  datatype Counter = OTHER | READ | WRITE | EVENT | ERROR | RECONNECT

  /** What a driver call returns, and the counter it leaves in the result set. */
  datatype Answer = Answer(error: DbError, counter: Counter)

  /** A statement that was passed to the driver. */
  datatype Sent = Sent(sql: string, ok: bool)

  /** History: result sets that the driver opened and was asked to free, driver
      calls that may produce a result set, reconnects, counter increments, queries. */
  datatype History = History(
    resultsOpened: nat, resultsFreed: nat, asked: nat, reconnects: nat, counts: multiset<Counter>, sent: seq<Sent>)

  /** The multi-row insert in progress: buffer contents, length of the statement's
      fixed part, rows in the buffer, rows executed since the last commit. */
  datatype Bulk = NoBuffer | Buffer(text: string, values: nat, cnt: nat, commit_cnt: nat, commit_max: nat)

  datatype Conn = Conn(state: ConnState, error: DbError, bulk: Bulk, h: History)

  function Connected(): Conn {
    Conn(READY, NONE, NoBuffer, History(0, 0, 0, 0, multiset{}, []))
  }

  // ----- Calls -----

  function Freed(c: Conn): Conn {
    c.(state := READY, h := c.h.(resultsFreed := c.h.resultsFreed + 1))
  }

  /** Whether a call that first frees the previous result set gets past that. */
  predicate Proceeds(c: Conn, freeRc: int) {
    c.state == READY || (c.state == RESULT_SET && freeRc == 0)
  }

  /** The connection after the previous result set, if any, was freed. */
  function Cleared(c: Conn): Conn {
    if c.state == RESULT_SET then Freed(c) else c
  }

  /** The connection after a driver call that may produce a result set. */
  function Answered(c: Conn, a: Answer): Conn {
    var h := c.h.(asked := c.h.asked + 1, counts := c.h.counts + multiset{a.counter});
    if a.error != NONE then c.(error := a.error, h := h)
    else if a.counter == READ then c.(error := NONE, state := RESULT_SET, h := h.(resultsOpened := h.resultsOpened + 1))
    else c.(error := NONE, state := READY, h := h)
  }

  function QueryOf(c: Conn, sql: string, freeRc: int, a: Answer): Conn {
    if !Proceeds(c, freeRc) then Cleared(c).(error := FATAL)
    else
      var c' := Answered(Cleared(c), a);
      c'.(h := c'.h.(sent := c'.h.sent + [Sent(sql, a.error == NONE)]))
  }

  /** Prepared statements do not report a failure to free the previous result. */
  function ExecuteOf(c: Conn, freeRc: int, a: Answer): Conn {
    if !Proceeds(c, freeRc) then Cleared(c) else Answered(Cleared(c), a)
  }

  function NextResultOf(c: Conn, freeRc: int, supported: bool, a: Answer): Conn {
    if !Proceeds(c, freeRc) then Cleared(c).(error := FATAL)
    else if !supported then Cleared(c).(error := NONE)
    else Answered(Cleared(c), a)
  }

  function StmtNextResultOf(c: Conn, freeRc: int, supported: bool, a: Answer): Conn {
    if !Proceeds(c, freeRc) then Cleared(c)
    else if !supported then Cleared(c).(error := NONE)
    else Answered(Cleared(c), a)
  }

  function CloseOf(c: Conn): Conn {
    Cleared(c).(state := INVALID)
  }

  function ReconnectOf(c: Conn, supported: bool, rc: DbError): Conn {
    if !supported || c.state == INVALID then c
    else
      var c' := Cleared(c);
      var count := if rc == FATAL then ERROR else RECONNECT;
      c'.(state := if rc == FATAL then INVALID else READY,
          h := c'.h.(reconnects := c'.h.reconnects + 1, counts := c'.h.counts + multiset{count}))
  }

  /** A new statement that the driver refuses leaves an error. */
  function PrepareOf(c: Conn, driverRc: int): Conn {
    if c.state != INVALID && driverRc != 0 then c.(error := FATAL) else c
  }

  // ----- Multi-row inserts -----

  const BULK_PACKET_SIZE: nat := 512 * 1024
  const ROWS_BEFORE_COMMIT: nat := 1000

  /** What the driver answers during a flush: to the INSERT and to the COMMIT, each
      with the outcome of freeing a result set before it. */
  datatype Answers = Answers(insertFree: int, insert: Answer, commitFree: int, commit: Answer)

  function BulkInitOf(c: Conn, query: string, freeRc: int, describeRc: int, needsCommit: bool): Conn {
    if !Proceeds(c, freeRc) || describeRc != 0 || |query| + 1 > BULK_PACKET_SIZE then Cleared(c)
    else
      Cleared(c).(bulk := Buffer(query, |query|, 0, 0, if needsCommit then ROWS_BEFORE_COMMIT else 0))
  }

  datatype Flushed = Flushed(conn: Conn, rc: int)

  /** Sends the buffered rows, and a COMMIT if it is due. */
  function FlushOf(c: Conn, isLast: bool, a: Answers): Flushed {
    if c.bulk.NoBuffer? || c.bulk.cnt == 0 then Flushed(c, 0)
    else
      var c' := QueryOf(c, c.bulk.text, a.insertFree, a.insert);
      if c'.error != NONE then Flushed(c', 1)
      else if c.bulk.commit_max == 0 then Flushed(Emptied(c'), 0)
      else CommitOf(Counted(c'), isLast, a)
  }

  /** The buffered rows become rows to commit. */
  function Counted(c: Conn): Conn
    requires c.bulk.Buffer?
  {
    c.(bulk := c.bulk.(commit_cnt := c.bulk.commit_cnt + c.bulk.cnt))
  }

  function CommitOf(c: Conn, isLast: bool, a: Answers): Flushed
    requires c.bulk.Buffer?
  {
    if !isLast && c.bulk.commit_cnt < c.bulk.commit_max then Flushed(Emptied(c), 0)
    else
      var c' := QueryOf(c, "COMMIT", a.commitFree, a.commit);
      if c'.error != NONE then Flushed(c', 1)
      else Flushed(Emptied(c'.(bulk := c'.bulk.(commit_cnt := 0))), 0)
  }

  /** Only the fixed part of the statement stays in the buffer. */
  function Emptied(c: Conn): Conn
    requires c.bulk.Buffer?
  {
    var kept := if c.bulk.values <= |c.bulk.text| then c.bulk.values else |c.bulk.text|;
    c.(bulk := c.bulk.(text := c.bulk.text[..kept], cnt := 0))
  }

  /** A row does not fit behind the buffered ones, with its comma and the final NUL. */
  predicate Full(b: Bulk, row: string)
    requires b.Buffer?
  {
    |b.text| + |row| + 1 + (if b.cnt > 0 then 1 else 0) > BULK_PACKET_SIZE
  }

  function Appended(b: Bulk, row: string): Bulk
    requires b.Buffer?
  {
    b.(text := b.text + (if b.cnt > 0 then "," else "") + row, cnt := b.cnt + 1)
  }

  function BulkNextOf(c: Conn, row: string, freeRc: int, a: Answers): Flushed {
    if !Proceeds(c, freeRc) then Flushed(Cleared(c), 0)
    else
      var c' := Cleared(c);
      if c'.bulk.NoBuffer? then Flushed(c', 1)
      else if !Full(c'.bulk, row) then Flushed(c'.(bulk := Appended(c'.bulk, row)), 0)
      else if c'.bulk.cnt == 0 then Flushed(c', 1)
      else
        var f := FlushOf(c', false, a);
        if f.rc != 0 then f else Flushed(f.conn.(bulk := Appended(f.conn.bulk, row)), 0)
  }

  function BulkDoneOf(c: Conn, a: Answers): Flushed {
    var f := FlushOf(c, true, a);
    if f.rc != 0 then f else Flushed(f.conn.(bulk := NoBuffer), 0)
  }

  /** After a flush makes room, the row has to fit behind the fixed part: the code
      does not look again. A row that comes first and does not fit is refused. */
  predicate FitsAfterFlush(c: Conn, row: string) {
    c.bulk.Buffer? && c.bulk.cnt > 0 && Full(c.bulk, row) ==> c.bulk.values + |row| + 1 <= BULK_PACKET_SIZE
  }

  /** A flush that succeeds leaves room for a row that fits at all. */
  lemma FlushMakesRoom(c: Conn, row: string, a: Answers)
    requires c.bulk.Buffer? && c.bulk.cnt > 0 && c.bulk.values <= |c.bulk.text| && FitsAfterFlush(c, row)
    requires Full(c.bulk, row)
    requires FlushOf(c, false, a).rc == 0
    ensures FlushOf(c, false, a).conn.bulk.Buffer? && !Full(FlushOf(c, false, a).conn.bulk, row)
  {
    var c' := QueryOf(c, c.bulk.text, a.insertFree, a.insert);
    assert c'.bulk == c.bulk;
    assert QueryOf(Counted(c'), "COMMIT", a.commitFree, a.commit).bulk == Counted(c').bulk;
    hide QueryOf;
  }

  // ----- Any sequence of calls -----

  datatype Call =
    | Query(sql: string, freeRc: int, answer: Answer)
    | Execute(freeRc: int, answer: Answer)
    | NextResult(freeRc: int, supported: bool, answer: Answer)
    | StmtNextResult(freeRc: int, supported: bool, answer: Answer)
    | FreeResults
    | CloseStatement
    | Prepare(driverRc: int)
    | Reconnect(supported: bool, rc: DbError)
    | Close
    | BulkInit(query: string, freeRc: int, describeRc: int, needsCommit: bool)
    | BulkNext(row: string, freeRc: int, answers: Answers)
    | BulkDone(answers: Answers)

  function After(c: Conn, call: Call): Conn {
    match call
    case Query(sql, freeRc, a) => QueryOf(c, sql, freeRc, a)
    case Execute(freeRc, a) => ExecuteOf(c, freeRc, a)
    case NextResult(freeRc, supported, a) => NextResultOf(c, freeRc, supported, a)
    case StmtNextResult(freeRc, supported, a) => StmtNextResultOf(c, freeRc, supported, a)
    case FreeResults => Cleared(c)
    case CloseStatement => Cleared(c)
    case Prepare(driverRc) => PrepareOf(c, driverRc)
    case Reconnect(supported, rc) => ReconnectOf(c, supported, rc)
    case Close => CloseOf(c)
    case BulkInit(query, freeRc, describeRc, needsCommit) => BulkInitOf(c, query, freeRc, describeRc, needsCommit)
    case BulkNext(row, freeRc, answers) => BulkNextOf(c, row, freeRc, answers).conn
    case BulkDone(answers) => BulkDoneOf(c, answers).conn
  }

  function AfterAll(c: Conn, calls: seq<Call>): Conn {
    if calls == [] then c else After(AfterAll(c, calls[..|calls| - 1]), calls[|calls| - 1])
  }

  ghost predicate Balanced(c: Conn) {
    && c.h.resultsOpened == c.h.resultsFreed + (if c.state == RESULT_SET then 1 else 0)
    && |c.h.counts| == c.h.asked + c.h.reconnects
  }

  lemma ClearedKeepsBalance(c: Conn)
    requires Balanced(c)
    ensures Balanced(Cleared(c))
    ensures Cleared(c).state == if c.state == RESULT_SET then READY else c.state
  {
  }

  lemma AnsweredKeepsBalance(c: Conn, a: Answer)
    requires Balanced(c) && c.state == READY
    ensures Balanced(Answered(c, a)) && Answered(c, a).state != INVALID
  {
  }

  lemma QueryKeepsBalance(c: Conn, sql: string, freeRc: int, a: Answer)
    requires Balanced(c)
    ensures Balanced(QueryOf(c, sql, freeRc, a))
    ensures c.state == INVALID <==> QueryOf(c, sql, freeRc, a).state == INVALID
  {
    ClearedKeepsBalance(c);
    if Proceeds(c, freeRc) { AnsweredKeepsBalance(Cleared(c), a); }
    hide Answered, Cleared;
  }

  lemma CommitKeepsBalance(c: Conn, isLast: bool, a: Answers)
    requires c.bulk.Buffer? && Balanced(c)
    ensures Balanced(CommitOf(c, isLast, a).conn)
    ensures c.state == INVALID <==> CommitOf(c, isLast, a).conn.state == INVALID
  {
    QueryKeepsBalance(c, "COMMIT", a.commitFree, a.commit);
    hide QueryOf;
  }

  lemma FlushKeepsBalance(c: Conn, isLast: bool, a: Answers)
    requires Balanced(c)
    ensures Balanced(FlushOf(c, isLast, a).conn)
    ensures c.state == INVALID <==> FlushOf(c, isLast, a).conn.state == INVALID
  {
    if c.bulk.Buffer? && c.bulk.cnt > 0 {
      var c' := QueryOf(c, c.bulk.text, a.insertFree, a.insert);
      assert c'.bulk == c.bulk;
      hide QueryOf, CommitOf;
      QueryKeepsBalance(c, c.bulk.text, a.insertFree, a.insert);
      CommitKeepsBalance(Counted(c'), isLast, a);
    }
  }

  lemma ReconnectKeepsBalance(c: Conn, supported: bool, rc: DbError)
    requires Balanced(c)
    ensures Balanced(ReconnectOf(c, supported, rc))
    ensures c.state == INVALID ==> ReconnectOf(c, supported, rc).state == INVALID
  {
    ClearedKeepsBalance(c);
    hide Cleared;
  }

  lemma AnswerKeepsBalance(c: Conn, freeRc: int, supported: bool, a: Answer)
    requires Balanced(c)
    ensures Balanced(ExecuteOf(c, freeRc, a)) && Balanced(NextResultOf(c, freeRc, supported, a))
    ensures Balanced(StmtNextResultOf(c, freeRc, supported, a))
    ensures c.state == INVALID ==> ExecuteOf(c, freeRc, a).state == INVALID
    ensures c.state == INVALID ==> NextResultOf(c, freeRc, supported, a).state == INVALID
    ensures c.state == INVALID ==> StmtNextResultOf(c, freeRc, supported, a).state == INVALID
  {
    ClearedKeepsBalance(c);
    if Proceeds(c, freeRc) { AnsweredKeepsBalance(Cleared(c), a); }
    hide Answered, Cleared;
  }

  lemma BulkKeepsBalance(c: Conn, row: string, freeRc: int, a: Answers)
    requires Balanced(c)
    ensures Balanced(BulkNextOf(c, row, freeRc, a).conn) && Balanced(BulkDoneOf(c, a).conn)
    ensures c.state == INVALID ==>
      BulkNextOf(c, row, freeRc, a).conn.state == INVALID && BulkDoneOf(c, a).conn.state == INVALID
  {
    ClearedKeepsBalance(c);
    FlushKeepsBalance(Cleared(c), false, a);
    FlushKeepsBalance(c, true, a);
    hide Cleared, FlushOf, Full, Appended;
  }

  lemma CallKeepsBalance(c: Conn, call: Call)
    requires Balanced(c)
    ensures Balanced(After(c, call))
    ensures c.state == INVALID ==> After(c, call).state == INVALID
  {
    ClearedKeepsBalance(c);
    hide Cleared, QueryOf, ExecuteOf, NextResultOf, StmtNextResultOf, ReconnectOf, BulkNextOf, BulkDoneOf;
    match call
    case Query(sql, freeRc, a) => QueryKeepsBalance(c, sql, freeRc, a);
    case Execute(freeRc, a) => AnswerKeepsBalance(c, freeRc, true, a);
    case NextResult(freeRc, supported, a) => AnswerKeepsBalance(c, freeRc, supported, a);
    case StmtNextResult(freeRc, supported, a) => AnswerKeepsBalance(c, freeRc, supported, a);
    case Reconnect(supported, rc) => ReconnectKeepsBalance(c, supported, rc);
    case BulkNext(row, freeRc, answers) => BulkKeepsBalance(c, row, freeRc, answers);
    case BulkDone(answers) => BulkKeepsBalance(c, "", 0, answers);
    case _ =>
  }

  /** Over every sequence of calls on a new connection: exactly one result set is
      open while the state is RESULT_SET and none otherwise, and each driver call
      that may produce one, and each reconnect, bumped exactly one counter. */
  lemma {:induction false} AlwaysBalanced(calls: seq<Call>)
    ensures Balanced(AfterAll(Connected(), calls))
  {
    if calls != [] {
      hide After, Balanced;
      AlwaysBalanced(calls[..|calls| - 1]);
      CallKeepsBalance(AfterAll(Connected(), calls[..|calls| - 1]), calls[|calls| - 1]);
    }
  }

  /** A closed connection stays closed, whatever is called. */
  lemma {:induction false} InvalidIsFinal(calls: seq<Call>, more: seq<Call>)
    requires AfterAll(Connected(), calls).state == INVALID
    ensures AfterAll(Connected(), calls + more).state == INVALID
  {
    if more == [] {
      assert calls + more == calls;
    } else {
      hide After, Balanced;
      var all, n := calls + more, |calls + more| - 1;
      assert all[..n] == calls + more[..|more| - 1];
      InvalidIsFinal(calls, more[..|more| - 1]);
      AlwaysBalanced(all[..n]);
      CallKeepsBalance(AfterAll(Connected(), all[..n]), all[n]);
    }
  }

  // ----- When a connection is closed -----

  /** A close, or a reconnect that fails. */
  predicate Closes(call: Call) {
    call.Close? || (call.Reconnect? && call.supported && call.rc == FATAL)
  }

  lemma QueryLeavesOpen(c: Conn, sql: string, freeRc: int, a: Answer)
    ensures QueryOf(c, sql, freeRc, a).state == INVALID <==> c.state == INVALID
  {
  }

  lemma FlushLeavesOpen(c: Conn, isLast: bool, a: Answers)
    ensures FlushOf(c, isLast, a).conn.state == INVALID <==> c.state == INVALID
  {
    if c.bulk.Buffer? {
      var c' := QueryOf(c, c.bulk.text, a.insertFree, a.insert);
      assert c'.bulk == c.bulk;
      QueryLeavesOpen(c, c.bulk.text, a.insertFree, a.insert);
      QueryLeavesOpen(Counted(c'), "COMMIT", a.commitFree, a.commit);
      hide QueryOf;
    }
  }

  lemma BulkNextLeavesOpen(c: Conn, row: string, freeRc: int, a: Answers)
    ensures BulkNextOf(c, row, freeRc, a).conn.state == INVALID <==> c.state == INVALID
  {
    FlushLeavesOpen(Cleared(c), false, a);
    hide FlushOf, Full, Appended;
  }

  lemma BulkDoneLeavesOpen(c: Conn, a: Answers)
    ensures BulkDoneOf(c, a).conn.state == INVALID <==> c.state == INVALID
  {
    FlushLeavesOpen(c, true, a);
    hide FlushOf;
  }

  lemma CallCloses(c: Conn, call: Call)
    ensures After(c, call).state == INVALID <==> c.state == INVALID || Closes(call)
  {
    hide QueryOf, FlushOf, BulkNextOf, BulkDoneOf;
    match call
    case Query(sql, freeRc, a) => QueryLeavesOpen(c, sql, freeRc, a);
    case BulkNext(row, freeRc, answers) => BulkNextLeavesOpen(c, row, freeRc, answers);
    case BulkDone(answers) => BulkDoneLeavesOpen(c, answers);
    case _ =>
  }

  /** A connection is closed if and only if it was closed by a call, or by a reconnect that
      failed: no other error closes it, and nothing opens it again. */
  lemma {:induction false} ClosedExactly(calls: seq<Call>)
    ensures AfterAll(Connected(), calls).state == INVALID <==> exists k :: 0 <= k < |calls| && Closes(calls[k])
  {
    if calls != [] {
      hide After, Closes;
      var n := |calls| - 1;
      ClosedExactly(calls[..n]);
      CallCloses(AfterAll(Connected(), calls[..n]), calls[n]);
      assert forall k :: 0 <= k < n ==> calls[..n][k] == calls[k];
      if exists k :: 0 <= k < |calls| && Closes(calls[k]) {
        var k :| 0 <= k < |calls| && Closes(calls[k]);
        assert k < n ==> Closes(calls[..n][k]);
      }
    }
  }

  /** A reconnect that the driver supports, on an open connection, frees the result set
      and counts once: as an error if the driver failed for good, which closes the
      connection, and as a reconnect otherwise. Nothing else happens. */
  lemma ReconnectExactly(c: Conn, supported: bool, rc: DbError)
    ensures var c' := ReconnectOf(c, supported, rc);
      if !supported || c.state == INVALID then c' == c
      else
        && (c'.state == INVALID <==> rc == FATAL) && (c'.state == READY <==> rc != FATAL)
        && c'.h.counts[ERROR] == c.h.counts[ERROR] + (if rc == FATAL then 1 else 0)
        && c'.h.counts[RECONNECT] == c.h.counts[RECONNECT] + (if rc == FATAL then 0 else 1)
        && (forall k :: k != ERROR && k != RECONNECT ==> c'.h.counts[k] == c.h.counts[k])
        && c'.error == c.error && c'.bulk == c.bulk && c'.h.sent == c.h.sent && c'.h.asked == c.h.asked
  {
  }

  // ----- What a caller can tell from the result and the error -----

  /** db_query leaves the driver's error, and an error of its own if the driver was not
      asked; so none exactly when the driver was asked and answered without one. The counter
      that the answer names is bumped, errors included. A result set is open exactly if an
      answer without error counts as a read. */
  lemma QueryReportsTruly(c: Conn, sql: string, freeRc: int, a: Answer)
    ensures var c' := QueryOf(c, sql, freeRc, a);
      && c'.h.asked == c.h.asked + (if Proceeds(c, freeRc) then 1 else 0)
      && c'.h.counts == c.h.counts + (if Proceeds(c, freeRc) then multiset{a.counter} else multiset{})
      && c'.error == (if Proceeds(c, freeRc) then a.error else FATAL)
      && (c'.state == RESULT_SET <==> c'.error == NONE && a.counter == READ)
  {
  }

  /** The two calls for the next result set, where the driver supports them. Without
      support there is no error; the one for queries reports that it could not proceed,
      the one for prepared statements leaves the error as it was. */
  lemma NextResultReports(c: Conn, freeRc: int, supported: bool, a: Answer)
    ensures var (q, s) := (NextResultOf(c, freeRc, supported, a), StmtNextResultOf(c, freeRc, supported, a));
      && q.h == s.h && q.state == s.state
      && q.h.asked == c.h.asked + (if Proceeds(c, freeRc) && supported then 1 else 0)
      && q.h.counts == c.h.counts + (if Proceeds(c, freeRc) && supported then multiset{a.counter} else multiset{})
      && q.error == (if !Proceeds(c, freeRc) then FATAL else if supported then a.error else NONE)
      && s.error == (if Proceeds(c, freeRc) then q.error else c.error)
      && (q.state == RESULT_SET <==> Proceeds(c, freeRc) && supported && a.error == NONE && a.counter == READ)
  {
  }

  /** db_execute is silent when freeing the previous result set fails, or on a closed
      connection: the error it leaves is the one of an earlier call. */
  lemma ExecuteReportsTrulyExactly(c: Conn, freeRc: int, a: Answer)
    ensures var c' := ExecuteOf(c, freeRc, a);
      (c'.error == NONE <==> c'.h.asked == c.h.asked + 1 && a.error == NONE)
      <==> Proceeds(c, freeRc) || c.error != NONE
  {
  }

  /** Where it proceeds, it leaves what db_query would, except that no text is sent. */
  lemma ExecuteLikeQuery(c: Conn, sql: string, freeRc: int, a: Answer)
    requires Proceeds(c, freeRc)
    ensures var (x, q) := (ExecuteOf(c, freeRc, a), QueryOf(c, sql, freeRc, a));
      x == q.(h := q.h.(sent := c.h.sent)) && q.h.sent == c.h.sent + [Sent(sql, a.error == NONE)]
  {
  }

  /** For instance after a close: db_execute leaves no error, but nothing was executed. */
  lemma ExecuteAfterClose(a: Answer)
    ensures var c := AfterAll(Connected(), [Close]);
      var c' := ExecuteOf(c, 0, a);
      c'.error == NONE && c'.h.asked == c.h.asked
  {
    assert [Close][..0] == [];
    assert AfterAll(Connected(), [Close]) == After(AfterAll(Connected(), []), Close);
  }
}
