/**
 The connection object of the database layer, updated in place, with the buffer
 in which multi-row inserts are put together. Each method refines a function of
 DbConnection.
 */
module DbDriver {
  import opened CStrings
  import opened DbConnection

  class Connection {
    var state: ConnState
    var error: DbError
    var bulk_buffer: array?<char>
    var bulk_buflen: nat
    var bulk_ptr: nat
    var bulk_values: nat
    var bulk_cnt: nat
    var bulk_commit_cnt: nat
    var bulk_commit_max: nat
    ghost var h: History

    ghost predicate Valid()
      reads this, bulk_buffer
    {
      if bulk_buffer == null then bulk_cnt == 0
      else
        && bulk_buffer.Length == bulk_buflen == BULK_PACKET_SIZE
        && bulk_values <= bulk_ptr < bulk_buflen
        && (bulk_cnt > 0 ==> bulk_buffer[bulk_ptr] == '\0')
    }

    ghost function BulkValue(): Bulk
      requires Valid()
      reads this, bulk_buffer
    {
      if bulk_buffer == null then NoBuffer
      else Buffer(bulk_buffer[..bulk_ptr], bulk_values, bulk_cnt, bulk_commit_cnt, bulk_commit_max)
    }

    ghost function Value(): Conn
      requires Valid()
      reads this, bulk_buffer
    {
      Conn(state, error, BulkValue(), h)
    }

    constructor ()
      ensures Valid() && Value() == Connected()
    {
      state := READY;
      error := NONE;
      bulk_buffer := null;
      bulk_buflen, bulk_ptr, bulk_values, bulk_cnt, bulk_commit_cnt, bulk_commit_max := 0, 0, 0, 0, 0, 0;
      h := History(0, 0, 0, 0, multiset{}, []);
    }

    // ----- Result sets -----

    /** rc is what the driver returns. */
    method FreeResultsInt(rc: int) returns (res: int)
      requires Valid()
      modifies this`state, this`h
      ensures Valid() && Value() == Freed(old(Value())) && res == rc
    {
      h := h.(resultsFreed := h.resultsFreed + 1);
      state := READY;
      return rc;
    }

    method FreeResults(rc: int) returns (res: int)
      requires Valid()
      modifies this`state, this`h
      ensures Valid() && Value() == Cleared(old(Value()))
      ensures res == if old(state) == RESULT_SET then rc else 1
    {
      if state == INVALID {
        return 1;
      } else if state != RESULT_SET {
        return 1;
      }
      res := FreeResultsInt(rc);
    }

    /** The driver call itself, and what every caller does with its answer; the
        result says whether there is a result set. */
    method Answer(a: DbConnection.Answer) returns (rs: bool)
      requires Valid() && state != INVALID
      modifies this`state, this`error, this`h
      ensures Valid() && Value() == Answered(old(Value()), a)
      ensures rs <==> a.error == NONE && a.counter == READ
    {
      error := a.error;
      h := h.(asked := h.asked + 1, counts := h.counts + multiset{a.counter});
      if error == NONE {
        if a.counter == READ {
          state := RESULT_SET;
          h := h.(resultsOpened := h.resultsOpened + 1);
          return true;
        }
        state := READY;
        return false;
      }
      return false;
    }

    method Query(query: string, freeRc: int, a: DbConnection.Answer) returns (rs: bool)
      requires Valid()
      modifies this`state, this`error, this`h
      ensures Valid() && Value() == QueryOf(old(Value()), query, freeRc, a)
      ensures rs <==> Proceeds(old(Value()), freeRc) && a.error == NONE && a.counter == READ
      ensures rs ==> error == NONE
    {
      if state == INVALID {
        error := FATAL;
        return false;
      } else if state == RESULT_SET {
        var rc := FreeResultsInt(freeRc);
        if rc != 0 {
          error := FATAL;
          return false;
        }
      }
      rs := Answer(a);
      h := h.(sent := h.sent + [Sent(query, a.error == NONE)]);
    }

    method Execute(freeRc: int, a: DbConnection.Answer) returns (rs: bool)
      requires Valid()
      modifies this`state, this`error, this`h
      ensures Valid() && Value() == ExecuteOf(old(Value()), freeRc, a)
      ensures rs <==> Proceeds(old(Value()), freeRc) && a.error == NONE && a.counter == READ
    {
      if state == INVALID {
        return false;
      } else if state == RESULT_SET {
        var rc := FreeResultsInt(freeRc);
        if rc != 0 {
          return false;
        }
      }
      rs := Answer(a);
    }

    method NextResult(freeRc: int, supported: bool, a: DbConnection.Answer) returns (rs: bool)
      requires Valid()
      modifies this`state, this`error, this`h
      ensures Valid() && Value() == NextResultOf(old(Value()), freeRc, supported, a)
      ensures rs <==> Proceeds(old(Value()), freeRc) && supported && a.error == NONE && a.counter == READ
    {
      if state == INVALID {
        error := FATAL;
        return false;
      } else if state == RESULT_SET {
        var rc := FreeResultsInt(freeRc);
        if rc != 0 {
          error := FATAL;
          return false;
        }
      }
      if !supported {
        error := NONE;
        return false;
      }
      rs := Answer(a);
    }

    method StmtNextResult(freeRc: int, supported: bool, a: DbConnection.Answer) returns (rs: bool)
      requires Valid()
      modifies this`state, this`error, this`h
      ensures Valid() && Value() == StmtNextResultOf(old(Value()), freeRc, supported, a)
      ensures rs <==> Proceeds(old(Value()), freeRc) && supported && a.error == NONE && a.counter == READ
    {
      if state == INVALID {
        return false;
      } else if state == RESULT_SET {
        var rc := FreeResultsInt(freeRc);
        if rc != 0 {
          return false;
        }
      }
      if !supported {
        error := NONE;
        return false;
      }
      rs := Answer(a);
    }

    method Prepare(driverRc: int) returns (ok: bool)
      requires Valid()
      modifies this`error
      ensures Valid() && Value() == PrepareOf(old(Value()), driverRc)
      ensures ok <==> state != INVALID && driverRc == 0
      ensures error == if !ok && state != INVALID then FATAL else old(error)
    {
      if state == INVALID {
        return false;
      }
      if driverRc != 0 {
        error := FATAL;
        return false;
      }
      return true;
    }

    method CloseStatement(freeRc: int, driverRc: int) returns (rc: int)
      requires Valid()
      modifies this`state, this`h
      ensures Valid() && Value() == Cleared(old(Value()))
      ensures rc == if old(state) == INVALID then 0 else if !Proceeds(old(Value()), freeRc) then 2 else driverRc
    {
      if state == INVALID {
        return 0;
      } else if state == RESULT_SET {
        var res := FreeResultsInt(freeRc);
        if res != 0 {
          return 2;
        }
      }
      return driverRc;
    }

    // ----- Closing and reopening -----

    method Close(freeRc: int, driverRc: int) returns (rc: int)
      requires Valid()
      modifies this`state, this`h
      ensures Valid() && Value() == CloseOf(old(Value()))
      ensures rc == if old(state) == INVALID then 0 else driverRc
    {
      if state == INVALID {
        return 0;
      } else if state == RESULT_SET {
        var _ := FreeResultsInt(freeRc);
      }
      rc := driverRc;
      state := INVALID;
    }

    method Reconnect(freeRc: int, supported: bool, driverRc: DbError) returns (rc: DbError)
      requires Valid()
      modifies this`state, this`h
      ensures Valid() && Value() == ReconnectOf(old(Value()), supported, driverRc)
      ensures rc == if supported && old(state) != INVALID && driverRc == FATAL then FATAL else NONE
    {
      if !supported {
        return NONE;
      }
      if state == INVALID {
        return NONE;
      } else if state == RESULT_SET {
        var _ := FreeResultsInt(freeRc);
      }
      rc := driverRc;
      h := h.(reconnects := h.reconnects + 1);
      if rc == FATAL {
        state := INVALID;
        h := h.(counts := h.counts + multiset{ERROR});
      } else {
        state := READY;
        h := h.(counts := h.counts + multiset{RECONNECT});
        rc := NONE;
      }
    }

    // ----- Multi-row inserts -----

    /** Copies a string and its final NUL into the buffer. */
    method StrCpy(at: nat, s: string)
      requires bulk_buffer != null && at + |s| < bulk_buffer.Length
      modifies bulk_buffer
      ensures bulk_buffer[..at + |s|] == old(bulk_buffer[..at]) + s && bulk_buffer[at + |s|] == '\0'
      ensures forall k :: at + |s| < k < bulk_buffer.Length ==> bulk_buffer[k] == old(bulk_buffer[k])
    {
      var i := 0;
      while i < |s|
        invariant 0 <= i <= |s|
        invariant bulk_buffer[..at + i] == old(bulk_buffer[..at]) + s[..i]
        invariant forall k :: at + i <= k < bulk_buffer.Length ==> bulk_buffer[k] == old(bulk_buffer[k])
      {
        ghost var before := bulk_buffer[..at + i];
        bulk_buffer[at + i] := s[i];
        assert bulk_buffer[..at + i + 1] == before + [s[i]];
        i := i + 1;
      }
      ghost var copied := bulk_buffer[..at + i];
      bulk_buffer[at + i] := '\0';
      assert bulk_buffer[..at + i] == copied;
    }

    method BulkInsertInit(query: string, freeRc: int, describeRc: int, needsCommit: bool) returns (rc: int)
      requires Valid() && CString(query)
      modifies this
      ensures Valid() && Value() == BulkInitOf(old(Value()), query, freeRc, describeRc, needsCommit)
      ensures rc == if Proceeds(old(Value()), freeRc)
          && (describeRc != 0 || |query| + 1 > BULK_PACKET_SIZE) then 1 else 0
    {
      if state == INVALID {
        return 0;
      } else if state == RESULT_SET {
        var res := FreeResultsInt(freeRc);
        if res != 0 {
          return 0;
        }
      }
      if describeRc != 0 {
        return 1;
      }
      if |query| + 1 > BULK_PACKET_SIZE {
        return 1;
      }
      StartBuffer(query, if needsCommit then ROWS_BEFORE_COMMIT else 0);
      return 0;
    }

    /** Allocates the buffer and puts the fixed part of the statement into it. */
    method StartBuffer(query: string, commitMax: nat)
      requires Valid() && |query| < BULK_PACKET_SIZE
      modifies this
      ensures Valid()
      ensures Value() == old(Value()).(bulk := Buffer(query, |query|, 0, 0, commitMax))
    {
      bulk_buflen := BULK_PACKET_SIZE;
      bulk_buffer := new char[bulk_buflen];
      bulk_commit_max := commitMax;
      bulk_commit_cnt := 0;
      StrCpy(0, query);
      bulk_ptr := |query|;
      bulk_values := |query|;
      bulk_cnt := 0;
      assert bulk_buffer[..bulk_ptr] == query;
    }

    method BulkInsertNext(row: string, freeRc: int, a: Answers) returns (rc: int)
      requires Valid() && CString(row) && FitsAfterFlush(Value(), row)
      modifies this, bulk_buffer
      ensures Valid() && bulk_buffer == old(bulk_buffer)
      ensures Flushed(Value(), rc) == BulkNextOf(old(Value()), row, freeRc, a)
    {
      ghost var c := Value();
      if state == INVALID {
        return 0;
      } else if state == RESULT_SET {
        var res := FreeResultsInt(freeRc);
        if res != 0 {
          return 0;
        }
      }
      if bulk_buffer == null {
        return 1;
      }
      ghost var c' := Value();
      if bulk_ptr + |row| + 1 + (if bulk_cnt > 0 then 1 else 0) > bulk_buflen {
        assert Full(c'.bulk, row);
        if bulk_cnt == 0 {
          return 1;
        }
        rc := BulkDoInsert(false, a);
        if rc != 0 {
          return;
        }
        FlushMakesRoom(c', row, a);
      }
      AppendRow(row);
      return 0;
    }

    /** Puts a row behind what is in the buffer. */
    method AppendRow(row: string)
      requires Valid() && bulk_buffer != null && !Full(BulkValue(), row)
      modifies this`bulk_ptr, this`bulk_cnt, bulk_buffer
      ensures Valid() && Value() == old(Value().(bulk := Appended(BulkValue(), row)))
    {
      ghost var before := bulk_buffer[..bulk_ptr];
      if bulk_cnt > 0 {
        bulk_buffer[bulk_ptr] := ',';
        assert bulk_buffer[..bulk_ptr + 1] == before + ",";
        StrCpy(bulk_ptr + 1, row);
      } else {
        StrCpy(bulk_ptr, row);
      }
      bulk_ptr := bulk_ptr + |row| + (if bulk_cnt > 0 then 1 else 0);
      assert bulk_buffer[..bulk_ptr] == before + (if bulk_cnt > 0 then "," else "") + row;
      bulk_cnt := bulk_cnt + 1;
    }

    method BulkDoInsert(isLast: bool, a: Answers) returns (rc: int)
      requires Valid()
      modifies this
      ensures Valid() && bulk_buffer == old(bulk_buffer)
      ensures Flushed(Value(), rc) == FlushOf(old(Value()), isLast, a)
    {
      hide QueryOf, CommitOf;
      if bulk_cnt == 0 {
        return 0;
      }
      var rs := Query(bulk_buffer[..bulk_ptr], a.insertFree, a.insert);
      if !rs && error != NONE {
        return 1;
      }
      if bulk_commit_max != 0 {
        bulk_commit_cnt := bulk_commit_cnt + bulk_cnt;
        rc := BulkCommit(isLast, a);
      } else {
        Empty();
        rc := 0;
      }
    }

    /** The end of a flush that has to commit: COMMIT if it is due, then an empty buffer. */
    method BulkCommit(isLast: bool, a: Answers) returns (rc: int)
      requires Valid() && bulk_buffer != null
      modifies this
      ensures Valid() && bulk_buffer == old(bulk_buffer)
      ensures Flushed(Value(), rc) == CommitOf(old(Value()), isLast, a)
    {
      hide QueryOf;
      if isLast || bulk_commit_cnt >= bulk_commit_max {
        var rs := Query("COMMIT", a.commitFree, a.commit);
        if !rs && error != NONE {
          return 1;
        }
        bulk_commit_cnt := 0;
      }
      Empty();
      return 0;
    }

    method Empty()
      requires Valid() && bulk_buffer != null
      modifies this`bulk_ptr, this`bulk_cnt
      ensures Valid() && Value() == Emptied(old(Value()))
    {
      assert bulk_buffer[..bulk_values] == bulk_buffer[..bulk_ptr][..bulk_values];
      bulk_ptr := bulk_values;
      bulk_cnt := 0;
    }

    method BulkInsertDone(a: Answers) returns (rc: int)
      requires Valid()
      modifies this
      ensures Valid() && Flushed(Value(), rc) == BulkDoneOf(old(Value()), a)
    {
      rc := BulkDoInsert(true, a);
      if rc != 0 {
        return;
      }
      bulk_buffer := null;
      return 0;
    }
  }
}
