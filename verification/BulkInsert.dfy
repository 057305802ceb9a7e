/**
 Multi-row inserts, seen as what reaches the database: which rows were sent, in
 which statements, and when they were committed.
 */
module BulkInsert {
  import opened DbConnection

  // ----- Statements by meaning -----

  datatype Stmt = Insert(rows: seq<string>) | Commit

  function Joined(rows: seq<string>): string {
    if |rows| == 0 then ""
    else if |rows| == 1 then rows[0]
    else Joined(rows[..|rows| - 1]) + "," + rows[|rows| - 1]
  }

  function Text(prefix: string, s: Stmt): string {
    match s
    case Insert(rows) => prefix + Joined(rows)
    case Commit => "COMMIT"
  }

  /** The texts of a log's statements, as sent without error. */
  function Texts(prefix: string, log: seq<Stmt>): seq<Sent> {
    if log == [] then []
    else Texts(prefix, log[..|log| - 1]) + [Sent(Text(prefix, log[|log| - 1]), true)]
  }

  /** The statements that succeeded. */
  function Succeeded(sent: seq<Sent>): seq<Sent> {
    if sent == [] then []
    else Succeeded(sent[..|sent| - 1]) + if sent[|sent| - 1].ok then [sent[|sent| - 1]] else []
  }

  /** All the rows inserted by a log, in order. */
  function Rows(log: seq<Stmt>): seq<string> {
    if log == [] then []
    else Rows(log[..|log| - 1]) + if log[|log| - 1].Insert? then log[|log| - 1].rows else []
  }

  /** The number of rows inserted since the last COMMIT. */
  function Uncommitted(log: seq<Stmt>): nat {
    if log == [] || log[|log| - 1].Commit? then 0
    else Uncommitted(log[..|log| - 1]) + |log[|log| - 1].rows|
  }

  /** No INSERT is empty, and each fits the buffer with its final NUL. */
  ghost predicate WellPacked(prefix: string, log: seq<Stmt>) {
    forall k :: 0 <= k < |log| && log[k].Insert? ==>
      |log[k].rows| > 0 && |Text(prefix, log[k])| < BULK_PACKET_SIZE
  }

  /** COMMITs come only after at least max rows, and not at all if max is 0. */
  ghost predicate InBatches(log: seq<Stmt>, max: nat) {
    forall k :: 0 <= k < |log| && log[k].Commit? ==> max > 0 && Uncommitted(log[..k]) >= max
  }

  lemma InsertStaysInBatches(log: seq<Stmt>, rows: seq<string>, max: nat)
    requires InBatches(log, max)
    ensures InBatches(log + [Insert(rows)], max)
  {
    var log' := log + [Insert(rows)];
    forall k | 0 <= k < |log'| && log'[k].Commit? ensures max > 0 && Uncommitted(log'[..k]) >= max {
      assert log'[..k] == log[..k];
    }
  }

  lemma CommitStaysInBatches(log: seq<Stmt>, max: nat)
    requires InBatches(log, max) && max > 0 && Uncommitted(log) >= max
    ensures InBatches(log + [Commit], max)
  {
    var log' := log + [Commit];
    forall k | 0 <= k < |log'| && log'[k].Commit? ensures Uncommitted(log'[..k]) >= max {
      assert log'[..k] == if k < |log| then log[..k] else log;
    }
  }

  // ----- The buffer holds the rows not sent yet -----

  /** log: what succeeded since the insert was started, when h0 had been sent;
      pending: the rows in the buffer. */
  ghost predicate Follows(c: Conn, prefix: string, h0: seq<Sent>, log: seq<Stmt>, pending: seq<string>) {
    && c.bulk.Buffer?
    && c.bulk.text == prefix + Joined(pending)
    && c.bulk.values == |prefix|
    && c.bulk.cnt == |pending|
    && |c.bulk.text| < BULK_PACKET_SIZE
    && c.bulk.commit_max in {0, ROWS_BEFORE_COMMIT}
    && c.bulk.commit_cnt == (if c.bulk.commit_max == 0 then 0 else Uncommitted(log))
    && Succeeded(c.h.sent) == Succeeded(h0) + Texts(prefix, log)
    && WellPacked(prefix, log)
  }

  /** Between calls, rows to commit always leave some row in the buffer. */
  ghost predicate Tracks(c: Conn, prefix: string, h0: seq<Sent>, log: seq<Stmt>, pending: seq<string>) {
    Follows(c, prefix, h0, log, pending) && (pending == [] ==> c.bulk.commit_cnt == 0)
  }

  lemma InitTracks(c: Conn, query: string, freeRc: int, describeRc: int, needsCommit: bool)
    requires Proceeds(c, freeRc) && describeRc == 0 && |query| + 1 <= BULK_PACKET_SIZE
    ensures Tracks(BulkInitOf(c, query, freeRc, describeRc, needsCommit), query, c.h.sent, [], [])
  {
    assert query + Joined([]) == query;
  }

  /** A flush runs the INSERT, but the COMMIT that then comes due fails: the driver
      refuses it, or a result set before it cannot be freed. */
  predicate CommitFails(c: Conn, isLast: bool, a: Answers) {
    && c.bulk.Buffer? && c.bulk.cnt > 0 && c.bulk.commit_max > 0
    && var c' := QueryOf(c, c.bulk.text, a.insertFree, a.insert);
       && c'.error == NONE && c'.bulk.Buffer?
       && (isLast || c.bulk.commit_cnt + c.bulk.cnt >= c.bulk.commit_max)
       && QueryOf(Counted(c'), "COMMIT", a.commitFree, a.commit).error != NONE
  }

  lemma SucceededAppend(sent: seq<Sent>, s: Sent)
    ensures Succeeded(sent + [s]) == Succeeded(sent) + if s.ok then [s] else []
  {
    assert (sent + [s])[..|sent|] == sent;
  }

  lemma LogAppend(prefix: string, log: seq<Stmt>, s: Stmt)
    ensures Texts(prefix, log + [s]) == Texts(prefix, log) + [Sent(Text(prefix, s), true)]
    ensures Rows(log + [s]) == Rows(log) + if s.Insert? then s.rows else []
    ensures Uncommitted(log + [s]) == if s.Insert? then Uncommitted(log) + |s.rows| else 0
  {
    assert (log + [s])[..|log|] == log;
  }

  /** What a query adds to the statements sent. */
  lemma QuerySends(c: Conn, sql: string, freeRc: int, a: Answer)
    ensures var c' := QueryOf(c, sql, freeRc, a);
      && c'.bulk == c.bulk && (c'.error == NONE ==> c'.state != INVALID)
      && (c'.error == NONE <==> Proceeds(c, freeRc) && a.error == NONE)
      && c'.h.sent == c.h.sent + if Proceeds(c, freeRc) then [Sent(sql, a.error == NONE)] else []
  {
  }

  /** What a query adds to the successful statements. */
  lemma QuerySucceeded(c: Conn, sql: string, freeRc: int, a: Answer)
    ensures var c' := QueryOf(c, sql, freeRc, a);
      && c'.bulk == c.bulk && (c'.error == NONE ==> c'.state != INVALID)
      && (c'.error == NONE <==> Proceeds(c, freeRc) && a.error == NONE)
      && Succeeded(c'.h.sent) == Succeeded(c.h.sent) + (if c'.error == NONE then [Sent(sql, true)] else [])
  {
    QuerySends(c, sql, freeRc, a);
    SucceededAppend(c.h.sent, Sent(sql, a.error == NONE));
    assert c.h.sent + [] == c.h.sent;
    hide QueryOf, Succeeded;
  }

  lemma InsertFollows(c: Conn, freeRc: int, a: Answer, prefix: string, h0: seq<Sent>, log: seq<Stmt>,
      pending: seq<string>)
    requires Follows(c, prefix, h0, log, pending) && pending != []
    requires QueryOf(c, c.bulk.text, freeRc, a).error == NONE
    ensures var c', log' := QueryOf(c, c.bulk.text, freeRc, a), log + [Insert(pending)];
      && c'.bulk == c.bulk && c'.state != INVALID
      && Succeeded(c'.h.sent) == Succeeded(h0) + Texts(prefix, log')
      && WellPacked(prefix, log')
      && Rows(log') == Rows(log) + pending
      && Uncommitted(log') == Uncommitted(log) + |pending|
  {
    hide QueryOf, Joined, Texts, Rows, Succeeded, Uncommitted;
    QuerySucceeded(c, c.bulk.text, freeRc, a);
    LogAppend(prefix, log, Insert(pending));
  }

  /** The end of a flush: a COMMIT if it is due, and an empty buffer unless it fails. */
  lemma CommitFollows(c: Conn, isLast: bool, a: Answers, prefix: string, h0: seq<Sent>, log: seq<Stmt>,
      pending: seq<string>)
    returns (log': seq<Stmt>, pending': seq<string>)
    requires c.bulk.Buffer? && c.bulk.text == prefix + Joined(pending) && c.bulk.values == |prefix|
    requires |c.bulk.text| < BULK_PACKET_SIZE && c.bulk.commit_max == ROWS_BEFORE_COMMIT && c.bulk.cnt == |pending|
    requires c.bulk.commit_cnt == Uncommitted(log) && c.state != INVALID
    requires Succeeded(c.h.sent) == Succeeded(h0) + Texts(prefix, log) && WellPacked(prefix, log)
    ensures var f := CommitOf(c, isLast, a);
      && Follows(f.conn, prefix, h0, log', pending') && Rows(log') == Rows(log)
      && (if f.rc == 0 then pending' == [] else f.rc == 1 && log' == log && pending' == pending)
      && (f.rc == 0 ==> f.conn.bulk.commit_cnt < f.conn.bulk.commit_max && (isLast ==> Uncommitted(log') == 0))
      && (f.rc != 0 <==> (isLast || c.bulk.commit_cnt >= c.bulk.commit_max)
                         && QueryOf(c, "COMMIT", a.commitFree, a.commit).error != NONE)
      && (log' == log || (log' == log + [Commit] && f.rc == 0 && (!isLast ==> Uncommitted(log) >= c.bulk.commit_max)))
  {
    hide QueryOf, Joined, Texts, Rows, Succeeded;
    log', pending' := log, [];
    EmptiedText(prefix, pending);
    if isLast || c.bulk.commit_cnt >= c.bulk.commit_max {
      QuerySucceeded(c, "COMMIT", a.commitFree, a.commit);
      if QueryOf(c, "COMMIT", a.commitFree, a.commit).error == NONE {
        log' := log + [Commit];
        LogAppend(prefix, log, Commit);
      } else {
        pending' := pending;
      }
    }
  }

  lemma EmptiedText(prefix: string, pending: seq<string>)
    ensures (prefix + Joined(pending))[..|prefix|] == prefix == prefix + Joined([])
  {
  }

  lemma PrefixInBatches(log: seq<Stmt>, max: nat)
    requires InBatches(log, max) && log != []
    ensures InBatches(log[..|log| - 1], max)
  {
    assert forall k :: 0 <= k < |log| - 1 ==> log[..|log| - 1][..k] == log[..k];
  }

  /** A flush moves the buffered rows, as one INSERT, from the buffer to the log. If the
      INSERT fails, nothing moves; if a COMMIT fails, the rows are in both places. */
  lemma FlushFollows(c: Conn, isLast: bool, a: Answers, prefix: string, h0: seq<Sent>, log: seq<Stmt>,
      pending: seq<string>)
    returns (log': seq<Stmt>, pending': seq<string>)
    requires Tracks(c, prefix, h0, log, pending)
    ensures var f := FlushOf(c, isLast, a);
      && Follows(f.conn, prefix, h0, log', pending')
      && (if f.rc == 0 then pending' == [] else f.rc == 1 && pending' == pending != [])
      && (if CommitFails(c, isLast, a) then f.rc == 1 && Rows(log') == Rows(log) + pending
          else Rows(log') + pending' == Rows(log) + pending)
      && (f.rc == 0 && c.bulk.commit_max > 0 && pending != [] ==> f.conn.bulk.commit_cnt < c.bulk.commit_max)
      && (f.rc == 0 && isLast && c.bulk.commit_max > 0 ==> Uncommitted(log') == 0)
    ensures !isLast || FlushOf(c, isLast, a).rc != 0 || c.bulk.commit_max == 0 ==>
      InBatches(log, c.bulk.commit_max) ==> InBatches(log', c.bulk.commit_max)
    ensures InBatches(log, c.bulk.commit_max) && log' != [] ==> InBatches(log'[..|log'| - 1], c.bulk.commit_max)
  {
    hide QueryOf, CommitOf, Joined, Texts, Rows, Succeeded, Uncommitted, WellPacked, InBatches;
    log', pending' := log, pending;
    ghost var max := c.bulk.commit_max;
    if InBatches(log, max) && log != [] { PrefixInBatches(log, max); }
    if pending != [] {
      var c' := QueryOf(c, c.bulk.text, a.insertFree, a.insert);
      QuerySucceeded(c, c.bulk.text, a.insertFree, a.insert);
      if c'.error == NONE {
        InsertFollows(c, a.insertFree, a.insert, prefix, h0, log, pending);
        log' := log + [Insert(pending)];
        ghost var inserted := log';
        assert inserted[..|inserted| - 1] == log;
        if InBatches(log, max) { InsertStaysInBatches(log, pending, max); }
        if c.bulk.commit_max == 0 {
          pending' := [];
          EmptiedFollows(c', prefix, h0, log', pending);
        } else {
          log', pending' := CommitFollows(Counted(c'), isLast, a, prefix, h0, log', pending);
          assert log' != inserted ==> log'[..|log'| - 1] == inserted;
          if InBatches(inserted, max) && log' != inserted && !isLast { CommitStaysInBatches(inserted, max); }
        }
      }
    }
  }

  lemma EmptiedFollows(c: Conn, prefix: string, h0: seq<Sent>, log: seq<Stmt>, pending: seq<string>)
    requires c.bulk.Buffer? && c.bulk.text == prefix + Joined(pending) && c.bulk.values == |prefix|
    requires |c.bulk.text| < BULK_PACKET_SIZE && c.bulk.commit_max == 0 == c.bulk.commit_cnt
    requires Succeeded(c.h.sent) == Succeeded(h0) + Texts(prefix, log) && WellPacked(prefix, log)
    ensures Follows(Emptied(c), prefix, h0, log, [])
  {
    EmptiedText(prefix, pending);
  }

  lemma JoinedAppend(rows: seq<string>, row: string)
    ensures Joined(rows + [row]) == Joined(rows) + (if rows != [] then "," else "") + row
  {
    assert (rows + [row])[..|rows|] == rows;
  }

  lemma AppendTracks(c: Conn, row: string, prefix: string, h0: seq<Sent>, log: seq<Stmt>, pending: seq<string>)
    requires Follows(c, prefix, h0, log, pending) && !Full(c.bulk, row)
    ensures Tracks(c.(bulk := Appended(c.bulk, row)), prefix, h0, log, pending + [row])
  {
    JoinedAppend(pending, row);
    assert Appended(c.bulk, row).text == prefix + Joined(pending + [row]);
  }

  /** The row was taken: the call returned 0 and did not stop at a closed connection
      or at a result set that it could not free, where it also returns 0. */
  predicate Takes(c: Conn, row: string, freeRc: int, a: Answers) {
    Proceeds(c, freeRc) && BulkNextOf(c, row, freeRc, a).rc == 0
  }

  /** The call flushes, and the COMMIT of that flush fails. */
  predicate NextCommitFails(c: Conn, row: string, freeRc: int, a: Answers) {
    Proceeds(c, freeRc) && c.bulk.Buffer? && Full(c.bulk, row) && CommitFails(Cleared(c), false, a)
  }

  lemma NextTracks(c: Conn, row: string, freeRc: int, a: Answers, prefix: string, h0: seq<Sent>, log: seq<Stmt>,
      pending: seq<string>)
    returns (log': seq<Stmt>, pending': seq<string>)
    requires Tracks(c, prefix, h0, log, pending) && FitsAfterFlush(c, row)
    ensures Tracks(BulkNextOf(c, row, freeRc, a).conn, prefix, h0, log', pending')
    ensures if NextCommitFails(c, row, freeRc, a)
      then !Takes(c, row, freeRc, a) && Rows(log') == Rows(log) + pending && pending' == pending != []
      else Rows(log') + pending' == Rows(log) + pending + if Takes(c, row, freeRc, a) then [row] else []
    ensures c.bulk.Buffer? && (InBatches(log, c.bulk.commit_max) ==> InBatches(log', c.bulk.commit_max))
  {
    hide FlushOf, Follows, Joined, Texts, Rows, Succeeded, Uncommitted, WellPacked, Appended, Full, CommitFails;
    hide InBatches;
    log', pending' := log, pending;
    var c' := Cleared(c);
    ClearedTracks(c, prefix, h0, log, pending);
    if Proceeds(c, freeRc) {
      if !Full(c'.bulk, row) {
        AppendTracks(c', row, prefix, h0, log, pending);
        pending' := pending + [row];
        assert Rows(log') + pending' == Rows(log) + pending + [row];
      } else if c'.bulk.cnt > 0 {
        log', pending' := FlushFollows(c', false, a, prefix, h0, log, pending);
        var f := FlushOf(c', false, a);
        if f.rc == 0 {
          FitsEmptied(c, f.conn, row, prefix, h0, log, pending, log');
          AppendTracks(f.conn, row, prefix, h0, log', pending');
          assert Rows(log') + [row] == Rows(log) + pending + [row];
          pending' := pending' + [row];
          assert pending' == [row];
        }
      } else {
        EmptyFlushIsFine(c', a);
      }
    }
  }

  lemma EmptyFlushIsFine(c: Conn, a: Answers)
    requires c.bulk.Buffer? && c.bulk.cnt == 0
    ensures !CommitFails(c, false, a)
  {
  }

  /** A call sends the buffered rows exactly when one more would not fit with its comma and
      the final NUL; a row that does not fit even into an empty buffer is refused. */
  lemma NextSendsExactly(c: Conn, row: string, freeRc: int, a: Answers, prefix: string, h0: seq<Sent>,
      log: seq<Stmt>, pending: seq<string>)
    requires Tracks(c, prefix, h0, log, pending)
    ensures var f := BulkNextOf(c, row, freeRc, a);
      var fits := |prefix + Joined(pending + [row])| < BULK_PACKET_SIZE;
      && (f.conn.h.sent != c.h.sent <==> Proceeds(c, freeRc) && !fits && pending != [])
      && (Proceeds(c, freeRc) && pending == [] ==> f.rc == if fits then 0 else 1)
      && (Proceeds(c, freeRc) && fits ==>
            f.rc == 0 && f.conn.bulk.Buffer? && f.conn.bulk.text == prefix + Joined(pending + [row]))
  {
    ClearedTracks(c, prefix, h0, log, pending);
    FullExactly(c, row, prefix, h0, log, pending);
    hide Tracks, Joined, FlushOf, Full, Appended;
    if Proceeds(c, freeRc) && Full(c.bulk, row) && pending != [] { FlushSends(Cleared(c), false, a); }
  }

  lemma FullExactly(c: Conn, row: string, prefix: string, h0: seq<Sent>, log: seq<Stmt>, pending: seq<string>)
    requires Tracks(c, prefix, h0, log, pending)
    ensures Full(c.bulk, row) <==> |prefix + Joined(pending + [row])| >= BULK_PACKET_SIZE
    ensures Appended(c.bulk, row).text == prefix + Joined(pending + [row])
  {
    JoinedAppend(pending, row);
    JoinedNothing(pending);
    hide Joined, Texts, Rows, Succeeded, Uncommitted, WellPacked;
    assert prefix + (Joined(pending) + (if pending != [] then "," else "") + row)
        == (prefix + Joined(pending)) + (if pending != [] then "," else "") + row;
  }

  lemma JoinedNothing(pending: seq<string>)
    ensures pending == [] ==> Joined(pending) == ""
  {
  }

  lemma FlushSends(c: Conn, isLast: bool, a: Answers)
    requires c.state == READY && c.bulk.Buffer? && c.bulk.cnt > 0
    ensures |FlushOf(c, isLast, a).conn.h.sent| > |c.h.sent|
  {
    var c' := QueryOf(c, c.bulk.text, a.insertFree, a.insert);
    QuerySends(c, c.bulk.text, a.insertFree, a.insert);
    QuerySends(Counted(c'), "COMMIT", a.commitFree, a.commit);
    hide QueryOf;
  }

  /** A call that returns 0 put the row into the buffer if and only if the connection was
      usable: otherwise the row is dropped without a trace. */
  lemma NextReportsExactly(c: Conn, row: string, freeRc: int, a: Answers, prefix: string, h0: seq<Sent>,
      log: seq<Stmt>, pending: seq<string>)
    returns (log': seq<Stmt>, pending': seq<string>)
    requires Tracks(c, prefix, h0, log, pending) && FitsAfterFlush(c, row)
    requires BulkNextOf(c, row, freeRc, a).rc == 0
    ensures var c' := BulkNextOf(c, row, freeRc, a).conn;
      && Tracks(c', prefix, h0, log', pending')
      && (Rows(log') + pending' == Rows(log) + pending + [row] <==> Proceeds(c, freeRc))
      && (!Proceeds(c, freeRc) ==> c'.bulk == c.bulk && c'.h.sent == c.h.sent && c'.error == c.error)
  {
    log', pending' := NextTracks(c, row, freeRc, a, prefix, h0, log, pending);
    hide Tracks, FlushOf, CommitFails, Rows;
    if !Proceeds(c, freeRc) {
      assert |Rows(log') + pending'| < |Rows(log) + pending + [row]|;
    }
  }

  /** On a closed connection, say. */
  lemma DroppedRow()
    ensures var ok := Answers(0, Answer(NONE, WRITE), 0, Answer(NONE, OTHER));
      var c := CloseOf(BulkInitOf(Connected(), "I", 0, 0, true));
      BulkNextOf(c, "a", 0, ok) == Flushed(c, 0)
  {
  }

  lemma FitsEmptied(c: Conn, c': Conn, row: string, prefix: string, h0: seq<Sent>, log: seq<Stmt>,
      pending: seq<string>, log': seq<Stmt>)
    requires Tracks(c, prefix, h0, log, pending) && c.bulk.cnt > 0 && Full(c.bulk, row) && FitsAfterFlush(c, row)
    requires Follows(c', prefix, h0, log', [])
    ensures !Full(c'.bulk, row)
  {
    assert c'.bulk.text == prefix + Joined([]) == prefix;
  }

  lemma ClearedTracks(c: Conn, prefix: string, h0: seq<Sent>, log: seq<Stmt>, pending: seq<string>)
    requires Tracks(c, prefix, h0, log, pending)
    ensures Tracks(Cleared(c), prefix, h0, log, pending)
    ensures Cleared(c).bulk == c.bulk && c.bulk.Buffer? && c.bulk.cnt == |pending|
  {
  }

  /** A row that is taken stays within the buffer, final NUL included, if and only if
      it fits behind the fixed part in case it has to wait for a flush. */
  lemma StaysInBufferExactly(c: Conn, row: string, freeRc: int, a: Answers, prefix: string, h0: seq<Sent>,
      log: seq<Stmt>, pending: seq<string>)
    requires Tracks(c, prefix, h0, log, pending) && Takes(c, row, freeRc, a)
    ensures BulkNextOf(c, row, freeRc, a).conn.bulk.Buffer?
    ensures |BulkNextOf(c, row, freeRc, a).conn.bulk.text| < BULK_PACKET_SIZE <==> FitsAfterFlush(c, row)
  {
    hide FlushOf, Texts, Rows, Succeeded, Uncommitted, WellPacked;
    ClearedTracks(c, prefix, h0, log, pending);
    var c' := Cleared(c);
    if Full(c'.bulk, row) && c'.bulk.cnt > 0 {
      var log', pending' := FlushFollows(c', false, a, prefix, h0, log, pending);
      assert FlushOf(c', false, a).conn.bulk.text == prefix + Joined([]) == prefix;
    }
  }

  /** A row that runs past the buffer: it has to wait for a flush, and does not fit even
      behind the fixed part alone. */
  lemma RowPastTheBuffer(row: string)
    requires |row| == BULK_PACKET_SIZE
    ensures var ok := Answers(0, Answer(NONE, WRITE), 0, Answer(NONE, OTHER));
      var c := BulkNextOf(BulkInitOf(Connected(), "I", 0, 0, true), "a", 0, ok).conn;
      var f := BulkNextOf(c, row, 0, ok);
      Tracks(c, "I", [], [], ["a"]) && f.rc == 0 && |f.conn.bulk.text| > BULK_PACKET_SIZE
  {
    var ok := Answers(0, Answer(NONE, WRITE), 0, Answer(NONE, OTHER));
    var c0 := BulkInitOf(Connected(), "I", 0, 0, true);
    InitTracks(Connected(), "I", 0, 0, true);
    AppendTracks(c0, "a", "I", [], [], []);
    assert [] + ["a"] == ["a"];
  }

  // ----- A whole multi-row insert -----

  /** One call of db_bulk_insert_next or db_bulk_insert_done, with what the driver
      answers during it. */
  datatype Step = Next(row: string, freeRc: int, answers: Answers) | Done(answers: Answers)

  function StepOf(c: Conn, s: Step): Flushed {
    match s
    case Next(row, freeRc, a) => BulkNextOf(c, row, freeRc, a)
    case Done(a) => BulkDoneOf(c, a)
  }

  predicate StepTakes(c: Conn, s: Step) {
    s.Next? && Takes(c, s.row, s.freeRc, s.answers)
  }

  predicate StepCommitFails(c: Conn, s: Step) {
    match s
    case Next(row, freeRc, a) => NextCommitFails(c, row, freeRc, a)
    case Done(a) => CommitFails(c, true, a)
  }

  function Fed(c: Conn, steps: seq<Step>): Conn {
    if steps == [] then c else StepOf(Fed(c, steps[..|steps| - 1]), steps[|steps| - 1]).conn
  }

  function Taken(c: Conn, steps: seq<Step>): seq<string> {
    if steps == [] then []
    else
      var s, before := steps[|steps| - 1], steps[..|steps| - 1];
      Taken(c, before) + if StepTakes(Fed(c, before), s) then [s.row] else []
  }

  /** The number of rows that were in the buffer when a COMMIT failed, over all such. */
  function Surplus(c: Conn, steps: seq<Step>): nat {
    if steps == [] then 0
    else
      var s, before := steps[|steps| - 1], Fed(c, steps[..|steps| - 1]);
      Surplus(c, steps[..|steps| - 1])
      + if StepCommitFails(before, s) && before.bulk.Buffer? then before.bulk.cnt else 0
  }

  ghost predicate NoCommitFails(c: Conn, steps: seq<Step>) {
    forall k :: 0 <= k < |steps| ==> !StepCommitFails(Fed(c, steps[..k]), steps[k])
  }

  /** No row is too long, and no call has ended the insert yet. Anything else may happen. */
  ghost predicate Ongoing(c: Conn, steps: seq<Step>) {
    forall k :: 0 <= k < |steps| ==>
      match steps[k]
      case Next(row, _, _) => FitsAfterFlush(Fed(c, steps[..k]), row)
      case Done(a) => BulkDoneOf(Fed(c, steps[..k]), a).rc != 0
  }

  /** The number of rows to a COMMIT stays, and the COMMITs keep to it. */
  ghost predicate MaxKept(c: Conn, log: seq<Stmt>, max: nat) {
    c.bulk.Buffer? && c.bulk.commit_max == max && InBatches(log, max)
  }

  lemma StepTracks(c: Conn, s: Step, prefix: string, h0: seq<Sent>, log: seq<Stmt>, pending: seq<string>)
    returns (log': seq<Stmt>, pending': seq<string>)
    requires Tracks(c, prefix, h0, log, pending)
    requires if s.Next? then FitsAfterFlush(c, s.row) else BulkDoneOf(c, s.answers).rc != 0
    ensures Tracks(StepOf(c, s).conn, prefix, h0, log', pending')
    ensures if StepCommitFails(c, s)
        then !StepTakes(c, s) && Rows(log') == Rows(log) + pending && pending' == pending != []
      else Rows(log') + pending' == Rows(log) + pending + if StepTakes(c, s) then [s.row] else []
    ensures forall max: nat :: MaxKept(c, log, max) ==> MaxKept(StepOf(c, s).conn, log', max)
  {
    CountIsLength(c, prefix, h0, log, pending);
    if s.Next? { NextKeepsMax(c, s.row, s.freeRc, s.answers); } else { FlushKeepsMax(c, true, s.answers); }
    hide FlushOf, BulkNextOf, CommitFails, NextCommitFails, Takes, Follows, Rows, InBatches;
    if s.Next? {
      log', pending' := NextTracks(c, s.row, s.freeRc, s.answers, prefix, h0, log, pending);
    } else {
      log', pending' := FlushFollows(c, true, s.answers, prefix, h0, log, pending);
    }
  }

  /** One step more, in terms of the steps before it. */
  lemma LastStep(c: Conn, steps: seq<Step>)
    requires steps != []
    ensures var n := |steps| - 1;
      var before, s := Fed(c, steps[..n]), steps[n];
      && Fed(c, steps) == StepOf(before, s).conn
      && Taken(c, steps) == Taken(c, steps[..n]) + (if StepTakes(before, s) then [s.row] else [])
      && Surplus(c, steps) == Surplus(c, steps[..n])
           + (if StepCommitFails(before, s) && before.bulk.Buffer? then before.bulk.cnt else 0)
  {
    hide StepOf, StepTakes, StepCommitFails;
  }

  lemma Prefixes(steps: seq<Step>)
    requires steps != []
    ensures var n := |steps| - 1;
      forall k :: 0 <= k < n ==> steps[..n][k] == steps[k] && steps[..n][..k] == steps[..k]
  {
  }

  lemma LastOngoing(c: Conn, steps: seq<Step>)
    requires steps != [] && Ongoing(c, steps)
    ensures var n := |steps| - 1;
      var before, s := Fed(c, steps[..n]), steps[n];
      && Ongoing(c, steps[..n])
      && if s.Next? then FitsAfterFlush(before, s.row) else BulkDoneOf(before, s.answers).rc != 0
  {
    hide Fed, FitsAfterFlush, BulkDoneOf;
    Prefixes(steps);
  }

  lemma LastCommit(c: Conn, steps: seq<Step>)
    requires steps != []
    ensures var n := |steps| - 1;
      NoCommitFails(c, steps) <==> NoCommitFails(c, steps[..n]) && !StepCommitFails(Fed(c, steps[..n]), steps[n])
  {
    hide Fed, StepCommitFails;
    Prefixes(steps);
    var n := |steps| - 1;
    if NoCommitFails(c, steps[..n]) && !StepCommitFails(Fed(c, steps[..n]), steps[n]) {
      forall k | 0 <= k < |steps| ensures !StepCommitFails(Fed(c, steps[..k]), steps[k]) {
        assert k < n ==> !StepCommitFails(Fed(c, steps[..n][..k]), steps[..n][k]);
      }
    }
    if NoCommitFails(c, steps) {
      forall k | 0 <= k < n ensures !StepCommitFails(Fed(c, steps[..n][..k]), steps[..n][k]) {
        assert !StepCommitFails(Fed(c, steps[..k]), steps[k]);
      }
    }
  }

  lemma {:induction false} FedTracks(c: Conn, prefix: string, steps: seq<Step>)
      returns (log: seq<Stmt>, pending: seq<string>)
    requires Tracks(c, prefix, c.h.sent, [], []) && Ongoing(c, steps)
    ensures Tracks(Fed(c, steps), prefix, c.h.sent, log, pending)
    ensures |Rows(log)| + |pending| == |Taken(c, steps)| + Surplus(c, steps)
    ensures Surplus(c, steps) == 0 ==> Rows(log) + pending == Taken(c, steps)
    ensures Surplus(c, steps) == 0 <==> NoCommitFails(c, steps)
    ensures c.bulk.Buffer? && MaxKept(Fed(c, steps), log, c.bulk.commit_max)
  {
    CountIsLength(c, prefix, c.h.sent, [], []);
    log, pending := [], [];
    if steps == [] {
      NoRows();
    } else {
      var n := |steps| - 1;
      LastStep(c, steps);
      LastOngoing(c, steps);
      LastCommit(c, steps);
      log, pending := FedTracks(c, prefix, steps[..n]);
      CountIsLength(Fed(c, steps[..n]), prefix, c.h.sent, log, pending);
      log, pending := StepTracks(Fed(c, steps[..n]), steps[n], prefix, c.h.sent, log, pending);
      hide MaxKept, Tracks, StepOf, StepTakes, StepCommitFails, Rows, FitsAfterFlush, BulkDoneOf;
      hide Fed, Taken, Surplus, NoCommitFails, Ongoing;
    }
  }

  lemma NoRows()
    ensures Rows([]) == []
  {
  }

  lemma CountIsLength(c: Conn, prefix: string, h0: seq<Sent>, log: seq<Stmt>, pending: seq<string>)
    requires Tracks(c, prefix, h0, log, pending)
    ensures c.bulk.Buffer? && c.bulk.cnt == |pending|
  {
  }

  /** From db_bulk_insert_init to a db_bulk_insert_done that reports success, whatever
      failed on the way: the successful statements are INSERTs that fit the buffer, and
      COMMITs; if the driver needs commits, every row was committed, and each COMMIT but a
      last one came after 1000 rows or more; otherwise there are none. The rows inserted
      are those that were taken, each once and in order, if and only if no COMMIT that
      came due failed. */
  lemma EveryRowOnceExactly(c: Conn, query: string, freeRc: int, needsCommit: bool, steps: seq<Step>, a: Answers)
    returns (log: seq<Stmt>)
    requires Proceeds(c, freeRc) && |query| + 1 <= BULK_PACKET_SIZE
    requires Ongoing(BulkInitOf(c, query, freeRc, 0, needsCommit), steps)
    requires BulkDoneOf(Fed(BulkInitOf(c, query, freeRc, 0, needsCommit), steps), a).rc == 0
    ensures var started := BulkInitOf(c, query, freeRc, 0, needsCommit);
      var done := BulkDoneOf(Fed(started, steps), a);
      && Succeeded(done.conn.h.sent) == Succeeded(c.h.sent) + Texts(query, log)
      && WellPacked(query, log)
      && (needsCommit ==> Uncommitted(log) == 0)
      && (log != [] ==> InBatches(log[..|log| - 1], if needsCommit then ROWS_BEFORE_COMMIT else 0))
      && (!needsCommit ==> InBatches(log, 0))
      && |Rows(log)| == |Taken(started, steps)| + Surplus(started, steps)
      && (Rows(log) == Taken(started, steps) <==> NoCommitFails(started, steps))
  {
    var started := BulkInitOf(c, query, freeRc, 0, needsCommit);
    InitTracks(c, query, freeRc, 0, needsCommit);
    var pending: seq<string>;
    log, pending := FedTracks(started, query, steps);
    log, pending := FlushFollows(Fed(started, steps), true, a, query, started.h.sent, log, pending);
    hide InBatches;
    hide Fed, Taken, FlushOf, CommitFails, Surplus, NoCommitFails, Ongoing;
  }

  lemma NextKeepsMax(c: Conn, row: string, freeRc: int, a: Answers)
    requires c.bulk.Buffer?
    ensures BulkNextOf(c, row, freeRc, a).conn.bulk.Buffer?
    ensures BulkNextOf(c, row, freeRc, a).conn.bulk.commit_max == c.bulk.commit_max
  {
    FlushKeepsMax(Cleared(c), false, a);
    hide FlushOf, Full;
  }

  lemma FlushKeepsMax(c: Conn, isLast: bool, a: Answers)
    requires c.bulk.Buffer?
    ensures FlushOf(c, isLast, a).conn.bulk.Buffer?
    ensures FlushOf(c, isLast, a).conn.bulk.commit_max == c.bulk.commit_max
  {
    var c' := QueryOf(c, c.bulk.text, a.insertFree, a.insert);
    assert c'.bulk == c.bulk;
    assert QueryOf(Counted(c'), "COMMIT", a.commitFree, a.commit).bulk == Counted(c').bulk;
    hide QueryOf;
  }

  /** A row that is inserted twice: the COMMIT fails, and so does the call, but the row
      stays in the buffer although it was inserted. */
  lemma FailedCommitRepeatsRows()
    ensures var ok := Answers(0, Answer(NONE, WRITE), 0, Answer(NONE, OTHER));
      var bad := Answers(0, Answer(NONE, WRITE), 0, Answer(FATAL, OTHER));
      var c0 := BulkInitOf(Connected(), "I", 0, 0, true);
      var c1 := BulkNextOf(c0, "a", 0, ok);
      var c2 := BulkDoneOf(c1.conn, bad);
      var c3 := BulkDoneOf(c2.conn, ok);
      && c1.rc == 0 && c2.rc == 1 && c3.rc == 0
      && c3.conn.h.sent == [Sent("Ia", true), Sent("COMMIT", false), Sent("Ia", true), Sent("COMMIT", true)]
  {
    var ok := Answers(0, Answer(NONE, WRITE), 0, Answer(NONE, OTHER));
    var bad := Answers(0, Answer(NONE, WRITE), 0, Answer(FATAL, OTHER));
    var c1 := BulkNextOf(BulkInitOf(Connected(), "I", 0, 0, true), "a", 0, ok);
    assert c1.conn.bulk == Buffer("Ia", 1, 1, 0, ROWS_BEFORE_COMMIT);
    var c2 := BulkDoneOf(c1.conn, bad);
    assert c2.rc == 1 && c2.conn.bulk.text == "Ia";
    assert c2.conn.h.sent == [Sent("Ia", true), Sent("COMMIT", false)];
  }
}
