/**
  The SQLite repository object: event writes with their accounting, the retry loop around them,
  failure records and the event list.
 */
module Repository {
  import opened Errors
  import opened EventStore
  import Intake
  import opened Options
  import opened Pagination
  import Retry

  /** What a failure store is given: the delivery's message, if its record decoded, and where it came from. */
  datatype FailedMessage = FailedMessage(
    stage: string, errorType: string, error: Error, retryCount: nat,
    message: Option<Intake.DeviceMessage>, partition: int, offset: int)

  /** What the table of failed messages keeps of it: neither the place in the log nor the class. */
  datatype FailedRow = FailedRow(stage: string, message: Option<Intake.DeviceMessage>, error: Error)

  function FailedRowOf(m: FailedMessage): FailedRow {
    FailedRow(m.stage, m.message, m.error)
  }

  /** What the database does during one attempt to store events, and whether the context ends in the wait behind it. */
  datatype Attempt = Attempt(single: SingleFault, chunks: nat -> ChunkFault, cancelled: bool)

  /** A batch of one goes through StoreData. */
  function AttemptError(events: seq<Event>, a: Attempt): Option<Error> {
    if |events| == 1 then SingleError(events[0], a.single) else BatchError(events, a.chunks)
  }

  /** How many leading events of the batch an attempt writes. */
  function AttemptWrites(events: seq<Event>, a: Attempt): (n: nat)
    ensures n <= |events| && AllMarshal(events[..n])
    ensures AttemptError(events, a) == None ==> n == |events|
  {
    if |events| == 1 then
      if SingleWrites(events[0], a.single) then 1 else 0
    else
      BatchWritten(events, a.chunks)
  }

  /** What a failing attempt can leave behind: whole chunks, or for a single event possibly the event. */
  predicate PossiblyWritten(size: nat, n: nat) {
    if size == 1 then n <= 1 else n < size && n % MAX_EVENTS_PER_CHUNK == 0
  }

  lemma FailingAttemptWrites(events: seq<Event>, a: Attempt)
    requires AttemptError(events, a).Some?
    ensures PossiblyWritten(|events|, AttemptWrites(events, a))
  {
    if |events| != 1 { StopsAtChunkBoundary(events, a.chunks, 0); }
  }

  lemma EmptyBatchSucceeds(a: Attempt)
    ensures AttemptError([], a) == None
  {
  }

  /** A failing attempt can leave something behind exactly for a single event or a batch of more than one chunk. */
  lemma PartialWritesExactly(size: nat)
    ensures (exists n: nat :: n > 0 && PossiblyWritten(size, n)) <==> size == 1 || size > MAX_EVENTS_PER_CHUNK
  {
    if size == 1 {
      assert PossiblyWritten(size, 1);
    } else if size > MAX_EVENTS_PER_CHUNK {
      assert MAX_EVENTS_PER_CHUNK == 90 && 90 % 90 == 0;
      assert PossiblyWritten(size, MAX_EVENTS_PER_CHUNK);
    } else {
      forall n: nat | PossiblyWritten(size, n)
        ensures n == 0
      {
        assert n < 90 && n % 90 == 0;
      }
    }
  }

  /** The attempt's error is that of its first failing chunk. */
  lemma {:induction false} FailsAsItsChunk(events: seq<Event>, faults: nat -> ChunkFault, i: nat)
    requires i <= |events| && StopFrom(events, faults, i) < |events|
    ensures
      var stop := StopFrom(events, faults, i);
      var chunk := events[stop..ChunkEnd(|events|, stop)];
      && ChunkError(chunk, faults(stop)).Some?
      && BatchErrorFrom(events, faults, i) == Some(Wrapped(ChunkError(chunk, faults(stop)).value))
    decreases |events| - i
  {
    var end := ChunkEnd(|events|, i);
    if ChunkError(events[i..end], faults(i)).None? { FailsAsItsChunk(events, faults, end); }
  }

  /** An attempt that fails on its first statement with this database error, all events marshalling. */
  predicate FailsWith(events: seq<Event>, a: Attempt, e: DbError) {
    && events != [] && AllMarshal(events)
    && if |events| == 1 then a.single == SingleExec(e) else a.chunks(0) == Exec(e)
  }

  lemma FailsWithError(events: seq<Event>, a: Attempt, e: DbError)
    requires FailsWith(events, a, e)
    ensures AttemptError(events, a).Some? && (Classify(AttemptError(events, a)) == Terminal <==> IsConstraint(e))
  {
    ConstraintIsTerminal(e);
    if |events| == 1 {
      assert events[0] in events;
    } else {
      var chunk := events[0..ChunkEnd(|events|, 0)];
      assert forall x | x in chunk :: x in events;
      assert ChunkError(chunk, a.chunks(0)) == Some(ClassifyStoreError(e));
      assert Classify(Some(Wrapped(ClassifyStoreError(e)))) == Classify(Some(ClassifyStoreError(e)));
    }
  }

  /**
    A closed connection or transaction, and the codes for a busy, locked or failing database, 5, 6
    and 10, with any extension.
   */
  predicate WorthRetrying(e: DbError) {
    e.ConnDone? || e.TxDone? || (e.Sqlite? && e.code % 256 in {5, 6, 10})
  }

  /** Those are tried three times, a violated constraint once. */
  lemma AttemptsByError(events: seq<Event>, env: nat -> Attempt, e: DbError)
    requires forall k: nat :: FailsWith(events, env(k), e) && !env(k).cancelled
    ensures
      var outcome := Retry.RetryTransient((k: nat) => AttemptError(events, env(k)), (k: nat) => env(k).cancelled);
      && (WorthRetrying(e) ==> outcome.attempts == 3 && Classify(outcome.err) == Transient)
      && (IsConstraint(e) ==> outcome.attempts == 1 && Classify(outcome.err) == Terminal)
      && outcome.err.Some?
  {
    var op, cancelled := (k: nat) => AttemptError(events, env(k)), (k: nat) => env(k).cancelled;
    Retry.RetryTransientMeaning(op, cancelled);
    forall k: nat
      ensures op(k).Some? && !cancelled(k) && (Classify(op(k)) == Terminal <==> IsConstraint(e))
    {
      assert FailsWith(events, env(k), e) && !env(k).cancelled;
      FailsWithError(events, env(k), e);
    }
    NotBoth(e);
  }

  lemma NotBoth(e: DbError)
    ensures !(WorthRetrying(e) && IsConstraint(e))
  {
    if IsConstraint(e) {
      var k :| 0 <= k <= e.code && e.code == 19 + 256 * k;
      assert e.code % 256 == 19;
    }
  }

  /** An attempt in which the database does its part. */
  const WORKING: Attempt := Attempt(SingleFine, (i: nat) => ChunkFine, false)

  /** Event k is the first of the batch that does not marshal. */
  predicate FirstUnmarshalled(events: seq<Event>, k: nat) {
    k < |events| && events[k].data.None? && AllMarshal(events[..k])
  }

  /**
    What a batch of several events leaves behind when one of them does not marshal and nothing else
    goes wrong: exactly the chunks in front of that event's, and a terminal error.
   */
  lemma UnmarshalledLeavesChunks(events: seq<Event>, k: nat)
    requires |events| > 1 && FirstUnmarshalled(events, k)
    ensures AttemptWrites(events, WORKING) == k - k % MAX_EVENTS_PER_CHUNK
    ensures AttemptError(events, WORKING) == Some(Wrapped(MARSHAL_ERROR))
    ensures Classify(AttemptError(events, WORKING)) == Terminal
  {
    StopsAtUnmarshalled(events, WORKING.chunks, 0, k);
    assert Classify(Some(Wrapped(MARSHAL_ERROR))) == Terminal;
  }

  /** `after` is `before` with the first n events of the batch written. */
  ghost predicate Wrote(before: Table, after: Table, batch: seq<Event>, n: nat) {
    n <= |batch| && AllMarshal(batch[..n]) && after == InsertAll(before, RowsOf(batch[..n]))
  }

  lemma WroteNothing(t: Table, batch: seq<Event>)
    ensures Wrote(t, t, batch, 0)
  {
  }

  lemma WroteAgain(t: Table, u: Table, v: Table, batch: seq<Event>, a: nat, b: nat)
    requires Wrote(t, u, batch, a) && Wrote(u, v, batch, b)
    ensures Wrote(t, v, batch, Max(a, b))
  {
    var rows := RowsOf(batch[..Max(a, b)]);
    assert rows[..a] == RowsOf(batch[..a]) && rows[..b] == RowsOf(batch[..b]);
    PrefixOverPrefix(t, rows, a, b);
    assert rows[..Max(a, b)] == rows;
  }

  lemma NextChunk(st: Store, batch: seq<Event>, i: nat, end: nat)
    requires i <= end <= |batch| && AllMarshal(batch[..i]) && AllMarshal(batch[i..end])
    ensures AllMarshal(batch[..end])
    ensures Apply(Apply(st, RowsOf(batch[..i])), RowsOf(batch[i..end])) == Apply(st, RowsOf(batch[..end]))
  {
    assert batch[..end] == batch[..i] + batch[i..end];
    assert RowsOf(batch[..end]) == RowsOf(batch[..i]) + RowsOf(batch[i..end]);
    ApplyConcat(st, RowsOf(batch[..i]), RowsOf(batch[i..end]));
  }

  class Repo {
    var events: Table
    var attempted: int
    var inserted: int
    var duplicates: int
    var failed: seq<FailedRow>

    constructor ()
      ensures View() == FRESH && failed == []
    {
      events, attempted, inserted, duplicates, failed := [], 0, 0, 0, [];
    }

    ghost function View(): Store
      reads this
    {
      Store(events, attempted, inserted, duplicates)
    }

    /** The insert commits on its own; the accounting is a second statement. */
    method StoreData(e: Event, fault: SingleFault) returns (err: Option<Error>)
      modifies this`events, this`attempted, this`inserted, this`duplicates
      ensures err == SingleError(e, fault)
      ensures View() == StoreSingle(old(View()), e, fault)
      ensures Wrote(old(events), events, [e], if SingleWrites(e, fault) then 1 else 0)
    {
      WroteNothing(events, [e]);
      if e.data.None? {
        return Some(MARSHAL_ERROR);
      }
      if fault.SingleExec? {
        return Some(ClassifyStoreError(fault.e));
      }
      var before := |events|;
      assert [e][..1] == [e] && RowsOf([e]) == [RowOf(e)];
      assert InsertAll(events, [RowOf(e)]) == Insert(events, RowOf(e));
      events := Insert(events, RowOf(e));
      var affected := |events| - before;
      if !fault.SingleFine? {
        return Some(ClassifyStoreError(fault.e));
      }
      RecordStoreAccounting(1, affected);
      return None;
    }

    method RecordStoreAccounting(tried: int, added: int)
      modifies this`attempted, this`inserted, this`duplicates
      ensures attempted == old(attempted) + tried && inserted == old(inserted) + added
      ensures duplicates == old(duplicates) + tried - added
    {
      attempted, inserted, duplicates := attempted + tried, inserted + added, duplicates + tried - added;
    }

    /**
      One transaction: the rows of the chunk and their accounting, or nothing. The statement binds
      at most MAX_VARS variables.
     */
    method InsertChunk(chunk: seq<Event>, fault: ChunkFault) returns (err: Option<Error>)
      requires VARS_PER_EVENT * |chunk| <= MAX_VARS
      modifies this`events, this`attempted, this`inserted, this`duplicates
      ensures err == ChunkError(chunk, fault)
      ensures View() == if err.None? then Apply(old(View()), RowsOf(chunk)) else old(View())
    {
      if fault.Begin? {
        return Some(ClassifyStoreError(fault.e));
      }
      var rows: seq<Row>, vars := [], 0;
      for i := 0 to |chunk|
        invariant AllMarshal(chunk[..i]) && rows == RowsOf(chunk[..i]) && vars == VARS_PER_EVENT * i
      {
        if chunk[i].data.None? {
          assert chunk[i] in chunk;
          return Some(MARSHAL_ERROR);
        }
        assert chunk[..i + 1] == chunk[..i] + [chunk[i]];
        rows, vars := rows + [RowOf(chunk[i])], vars + VARS_PER_EVENT;
      }
      assert chunk[..|chunk|] == chunk;
      assert vars <= MAX_VARS;
      if !fault.ChunkFine? {
        return Some(ClassifyStoreError(fault.e));
      }
      var before := |events|;
      events := InsertAll(events, rows);
      RecordStoreAccounting(|rows|, |events| - before);
      return None;
    }

    /** `faults(i)` is what goes wrong in the chunk that starts at position i. */
    method StoreBatch(batch: seq<Event>, faults: nat -> ChunkFault) returns (err: Option<Error>)
      modifies this`events, this`attempted, this`inserted, this`duplicates
      ensures err == BatchError(batch, faults)
      ensures View() == StoreMany(old(View()), batch, faults)
      ensures Wrote(old(events), events, batch, BatchWritten(batch, faults))
    {
      var i := 0;
      assert RowsOf(batch[..0]) == [];
      while i < |batch|
        invariant 0 <= i <= |batch| && AllMarshal(batch[..i])
        invariant View() == Apply(old(View()), RowsOf(batch[..i]))
        invariant BatchErrorFrom(batch, faults, i) == BatchError(batch, faults)
        invariant StopFrom(batch, faults, i) == BatchWritten(batch, faults)
      {
        var end := ChunkEnd(|batch|, i);
        var chunk := batch[i..end];
        assert VARS_PER_EVENT * |chunk| <= MAX_VARS;
        var chunkErr := InsertChunk(chunk, faults(i));
        if chunkErr.Some? {
          return Some(Wrapped(chunkErr.value));
        }
        NextChunk(old(View()), batch, i, end);
        i := end;
      }
      return None;
    }

    /** One attempt: a batch of one goes through StoreData. */
    method TryStore(batch: seq<Event>, attempt: Attempt) returns (err: Option<Error>)
      modifies this`events, this`attempted, this`inserted, this`duplicates
      ensures err == AttemptError(batch, attempt)
      ensures Wrote(old(events), events, batch, AttemptWrites(batch, attempt))
    {
      if |batch| == 1 {
        assert [batch[0]] == batch;
        err := StoreData(batch[0], attempt.single);
      } else {
        err := StoreBatch(batch, attempt.chunks);
      }
    }

    /**
      retryTransient around a store call. The attempts, the result and the seconds waited are
      those of the retry loop over what the attempts return; the table holds the longest prefix
      any attempt wrote, once, and the whole batch once if the result is no error.
     */
    method StoreWithRetry(batch: seq<Event>, env: nat -> Attempt)
      returns (err: Option<Error>, attempts: nat, waited: nat, written: nat)
      modifies this`events, this`attempted, this`inserted, this`duplicates
      ensures Retry.Outcome(err, attempts, waited) ==
                Retry.RetryTransient((k: nat) => AttemptError(batch, env(k)), (k: nat) => env(k).cancelled)
      ensures Wrote(old(events), events, batch, written)
      ensures if err == None then written == |batch| else PossiblyWritten(|batch|, written)
    {
      ghost var op := (k: nat) => AttemptError(batch, env(k));
      ghost var cancelled := (k: nat) => env(k).cancelled;
      ghost var outcome := Retry.RetryTransient(op, cancelled);
      attempts, waited, written, err := 0, 0, 0, None;
      WroteNothing(events, batch);
      if |batch| == 0 {
        EmptyBatchSucceeds(env(0));
      }
      var pause := 1;
      while attempts < Retry.MAX_STORE_ATTEMPTS
        invariant attempts < Retry.MAX_STORE_ATTEMPTS ==>
                    Retry.From(attempts, waited, op, cancelled) == outcome
        invariant attempts == Retry.MAX_STORE_ATTEMPTS ==>
                    Retry.Outcome(err, attempts, waited) == outcome && err.Some?
        invariant attempts <= Retry.MAX_STORE_ATTEMPTS && pause == Retry.Pow2(attempts)
        invariant Wrote(old(events), events, batch, written)
        invariant |batch| == 0 || PossiblyWritten(|batch|, written)
      {
        var attempt := env(attempts);
        ghost var before := events;
        err := TryStore(batch, attempt);
        var n := AttemptWrites(batch, attempt);
        WroteAgain(old(events), before, events, batch, written, n);
        if err.Some? { FailingAttemptWrites(batch, attempt); }
        written := Max(written, n);
        attempts := attempts + 1;
        if err.None? || Classify(err) == Terminal {
          return;
        }
        if attempt.cancelled {
          err := Some(Leaf(ContextDone));
          return;
        }
        waited, pause := waited + pause, 2 * pause;
      }
    }

    /** A record of a failed message; the insert may fail. */
    method StoreFailure(m: FailedMessage, up: bool) returns (ok: bool)
      modifies this`failed
      ensures ok == up
      ensures failed == if ok then old(failed) + [FailedRowOf(m)] else old(failed)
    {
      if up {
        failed := failed + [FailedRowOf(m)];
      }
      return up;
    }

    method ListEventsFirstPage(limit: nat) returns (rows: seq<Row>)
      ensures rows == Take(Desc(events), limit)
    {
      rows := Take(Desc(events), limit);
    }

    method ListEventsAfterCursor(bound: Bound, limit: nat) returns (rows: seq<Row>)
      ensures rows == Take(Desc(Filter(events, bound)), limit)
    {
      rows := Take(Desc(Filter(events, bound)), limit);
    }

    /** One page of events, newest first; no page for a cursor that does not decode. */
    method ListEvents(cursor: Cursor, limit: int) returns (page: Option<Page>)
      ensures page == PageOf(events, cursor, PageSize(limit), ZeroTime)
      ensures page == None <==> cursor.Malformed?
      ensures page.Some? ==> |page.value.items| <= 100 && forall r | r in page.value.items :: r in events
    {
      PageWithin(events, cursor, PageSize(limit), ZeroTime);
      var size := PageSize(limit);
      var rows: seq<Row>;
      match cursor {
        case NoCursor => rows := ListEventsFirstPage(size + 1);
        case Malformed => return None;
        case Encoded(t, _) => rows := ListEventsAfterCursor(Bound(t, ZERO_TIME_TEXT), size + 1);
      }
      var p := TrimPage(rows, size);
      return Some(p);
    }
  }

  /** Drop the extra row and copy the others out. */
  method TrimPage(fetched: seq<Row>, size: nat) returns (page: Page)
    requires size >= 1
    ensures page == Trim(fetched, size)
  {
    var hasMore := |fetched| > size;
    var rows := if hasMore then fetched[..size] else fetched;
    var items: seq<Row> := [];
    for i := 0 to |rows|
      invariant items == rows[..i]
    {
      items := items + [rows[i]];
    }
    page := Page(items, if hasMore then CursorOf(rows[|rows| - 1]) else NoCursor, hasMore);
  }
}
