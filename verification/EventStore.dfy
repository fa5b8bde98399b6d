/**
  The events table and its accounting row, as functions on values: one-row inserts that keep the
  first writer, chunked batch writes, and what whole histories of calls leave behind.
 */
module EventStore {
  import opened Errors
  import opened Options

  datatype Row = Row(
    id: string, domain: string, eventType: string, entityId: string, entityType: string,
    occurredAt: int, ingestedAt: int, source: string, schemaVersion: string, data: string)

  /** An event on its way to the table; `data` is its JSON text, absent if the payload does not marshal. */
  datatype Event = Event(
    id: string, domain: string, eventType: string, entityId: string, entityType: string,
    occurredAt: int, ingestedAt: int, source: string, schemaVersion: string, data: Option<string>)

  /** Rows in the order of insertion. The primary key keeps their ids distinct. */
  type Table = seq<Row>

  function Ids(t: Table): set<string> {
    set r | r in t :: r.id
  }

  ghost predicate UniqueIds(t: Table) {
    forall i, j | 0 <= i < j < |t| :: t[i].id != t[j].id
  }

  function RowOf(e: Event): Row
    requires e.data.Some?
  {
    Row(e.id, e.domain, e.eventType, e.entityId, e.entityType,
        e.occurredAt, e.ingestedAt, e.source, e.schemaVersion, e.data.value)
  }

  predicate AllMarshal(events: seq<Event>) {
    forall e | e in events :: e.data.Some?
  }

  function RowsOf(events: seq<Event>): (rows: seq<Row>)
    requires AllMarshal(events)
    ensures |rows| == |events| && forall k | 0 <= k < |rows| :: rows[k] == RowOf(events[k])
  {
    seq(|events|, k requires 0 <= k < |events| => RowOf(events[k]))
  }

  // ---- INSERT OR IGNORE ----

  function Insert(t: Table, r: Row): Table {
    if r.id in Ids(t) then t else t + [r]
  }

  /** The statement with several rows behaves as one insert after the other. */
  function InsertAll(t: Table, rows: seq<Row>): Table
    decreases rows
  {
    if rows == [] then t else InsertAll(Insert(t, rows[0]), rows[1..])
  }

  lemma {:induction false} InsertAllConcat(t: Table, a: seq<Row>, b: seq<Row>)
    ensures InsertAll(t, a + b) == InsertAll(InsertAll(t, a), b)
    decreases a
  {
    if a == [] {
      assert a + b == b;
    } else {
      assert (a + b)[0] == a[0] && (a + b)[1..] == a[1..] + b;
      InsertAllConcat(Insert(t, a[0]), a[1..], b);
    }
  }

  lemma InsertMeaning(t: Table, r: Row)
    ensures t <= Insert(t, r) && Ids(Insert(t, r)) == Ids(t) + {r.id} && |Insert(t, r)| <= |t| + 1
    ensures UniqueIds(t) ==> UniqueIds(Insert(t, r))
    ensures forall q | q in Insert(t, r) :: q in t || q == r
  {
  }

  /** No row is lost or changed, each new row comes from the input, and exactly the ids of the input are added. */
  lemma {:induction false} InsertAllMeaning(t: Table, rows: seq<Row>)
    ensures t <= InsertAll(t, rows)
    ensures Ids(InsertAll(t, rows)) == Ids(t) + Ids(rows)
    ensures UniqueIds(t) ==> UniqueIds(InsertAll(t, rows))
    ensures forall r | r in InsertAll(t, rows) :: r in t || r in rows
    ensures |InsertAll(t, rows)| <= |t| + |rows|
    decreases rows
  {
    if rows != [] {
      InsertMeaning(t, rows[0]);
      assert Ids(rows) == {rows[0].id} + Ids(rows[1..]);
      InsertAllMeaning(Insert(t, rows[0]), rows[1..]);
    }
  }

  /** A row of the table stays. */
  lemma InsertedStays(t: Table, rows: seq<Row>, r: Row)
    requires r in t
    ensures r in InsertAll(t, rows)
    ensures UniqueIds(t) ==> forall q | q in InsertAll(t, rows) && q.id == r.id :: q == r
  {
    InsertAllMeaning(t, rows);
    var u := InsertAll(t, rows);
    assert u[..|t|] == t;
  }

  /** The first writer of an id wins: the id keeps the row it has, or gets the first row offered. */
  lemma {:induction false} FirstWriterWins(t: Table, rows: seq<Row>, k: nat)
    requires k < |rows| && rows[k].id !in Ids(t) && forall j | 0 <= j < k :: rows[j].id != rows[k].id
    ensures rows[k] in InsertAll(t, rows)
    ensures UniqueIds(t) ==> forall r | r in InsertAll(t, rows) && r.id == rows[k].id :: r == rows[k]
    decreases rows
  {
    var u := Insert(t, rows[0]);
    if k == 0 {
      assert rows[0] == u[|u| - 1];
      InsertedStays(u, rows[1..], rows[0]);
    } else {
      assert Ids(u) == Ids(t) + {rows[0].id};
      FirstWriterWins(u, rows[1..], k - 1);
    }
  }

  lemma {:induction false} InsertAllKnown(t: Table, rows: seq<Row>)
    requires Ids(rows) <= Ids(t)
    ensures InsertAll(t, rows) == t
  {
    if rows != [] {
      assert rows[0].id in Ids(rows);
      InsertAllKnown(t, rows[1..]);
    }
  }

  function Max(a: nat, b: nat): nat {
    if a < b then b else a
  }

  /** Writing a prefix over another prefix of the same rows leaves the longer one. */
  lemma PrefixOverPrefix(t: Table, rows: seq<Row>, a: nat, b: nat)
    requires a <= |rows| && b <= |rows|
    ensures InsertAll(InsertAll(t, rows[..a]), rows[..b]) == InsertAll(t, rows[..Max(a, b)])
  {
    var u := InsertAll(t, rows[..a]);
    InsertAllMeaning(t, rows[..a]);
    var common := if a < b then a else b;
    assert rows[..b] == rows[..common] + rows[common..b];
    InsertAllConcat(u, rows[..common], rows[common..b]);
    InsertAllKnown(u, rows[..common]);
    if a <= b {
      assert rows[..b] == rows[..a] + rows[a..b];
      InsertAllConcat(t, rows[..a], rows[a..b]);
    } else {
      assert rows[common..b] == [];
    }
  }

  /** The table after attempts that wrote the given prefixes of the same rows. */
  function AfterAttempts(t: Table, rows: seq<Row>, written: seq<nat>): Table
    requires forall k | 0 <= k < |written| :: written[k] <= |rows|
  {
    if written == [] then t
    else InsertAll(AfterAttempts(t, rows, written[..|written| - 1]), rows[..written[|written| - 1]])
  }

  function MaxOf(s: seq<nat>): (m: nat)
    ensures forall k | 0 <= k < |s| :: s[k] <= m
    ensures s != [] ==> exists k :: 0 <= k < |s| && s[k] == m
  {
    if s == [] then 0 else Max(MaxOf(s[..|s| - 1]), s[|s| - 1])
  }

  /**
    Retry is transparent: whatever prefixes earlier attempts left in the table, the attempts
    together write the longest prefix once, and the whole batch once if any attempt completed.
   */
  lemma {:induction false} AttemptsWriteOnce(t: Table, rows: seq<Row>, written: seq<nat>)
    requires forall k | 0 <= k < |written| :: written[k] <= |rows|
    ensures AfterAttempts(t, rows, written) == InsertAll(t, rows[..MaxOf(written)])
    ensures |rows| in written ==> AfterAttempts(t, rows, written) == InsertAll(t, rows)
  {
    if written != [] {
      var before := written[..|written| - 1];
      AttemptsWriteOnce(t, rows, before);
      PrefixOverPrefix(t, rows, MaxOf(before), written[|written| - 1]);
    }
    if |rows| in written {
      assert rows[..MaxOf(written)] == rows;
    }
  }

  // ---- Failures of the database ----

  datatype DbError = ConnDone | TxDone | Sqlite(code: nat) | OtherDb

  /** Extended result codes carry the primary code in their low byte. */
  function ClassOf(e: DbError): Class {
    if e.Sqlite? && e.code % 256 == 19 then Terminal else Transient
  }

  function ClassifyStoreError(e: DbError): Error {
    Classified(ClassOf(e), Wrapped(Leaf(Other("database"))))
  }

  const MARSHAL_ERROR: Error := Classified(Terminal, Wrapped(Leaf(Other("marshal event data"))))

  /** What goes wrong in one StoreData call: the insert, reading its row count, or the accounting update. */
  datatype SingleFault = SingleFine | SingleExec(e: DbError) | SingleAffected(e: DbError) | SingleAccount(e: DbError)

  /** What goes wrong in one chunk's transaction; the transaction is rolled back whole. */
  datatype ChunkFault =
    ChunkFine | Begin(e: DbError) | Exec(e: DbError) | Affected(e: DbError) | Account(e: DbError) | Commit(e: DbError)

  /** The result codes that make an error terminal: 19, SQLITE_CONSTRAINT, with any extension. */
  predicate IsConstraint(e: DbError) {
    e.Sqlite? && exists k | 0 <= k <= e.code :: e.code == 19 + 256 * k
  }

  lemma ConstraintIsTerminal(e: DbError)
    ensures Classify(Some(ClassifyStoreError(e))) == Terminal <==> IsConstraint(e)
  {
    if e.Sqlite? {
      var k := e.code / 256;
      assert e.code == 256 * k + e.code % 256;
      assert forall j | e.code == 19 + 256 * j :: e.code % 256 == 19;
    }
  }

  // ---- The store as a value ----

  datatype Store = Store(events: Table, attempted: int, inserted: int, duplicates: int)

  const FRESH: Store := Store([], 0, 0, 0)

  /** Rows written together with their accounting. */
  function Apply(st: Store, rows: seq<Row>): Store {
    var events := InsertAll(st.events, rows);
    var added := |events| - |st.events|;
    Store(events, st.attempted + |rows|, st.inserted + added, st.duplicates + |rows| - added)
  }

  lemma ApplyConcat(st: Store, a: seq<Row>, b: seq<Row>)
    ensures Apply(st, a + b) == Apply(Apply(st, a), b)
  {
    InsertAllConcat(st.events, a, b);
  }

  function SingleError(e: Event, fault: SingleFault): Option<Error> {
    if e.data.None? then Some(MARSHAL_ERROR)
    else if fault.SingleFine? then None
    else Some(ClassifyStoreError(fault.e))
  }

  /** StoreData fails for good exactly if the event does not marshal or a constraint of the database is violated. */
  lemma SingleClass(e: Event, fault: SingleFault)
    ensures SingleError(e, fault).None? <==> e.data.Some? && fault.SingleFine?
    ensures SingleError(e, fault).Some? && Classify(SingleError(e, fault)) == Terminal <==>
              e.data.None? || (!fault.SingleFine? && IsConstraint(fault.e))
  {
    if !fault.SingleFine? { ConstraintIsTerminal(fault.e); }
    MarshalIsTerminal();
  }

  lemma MarshalIsTerminal()
    ensures Classify(Some(MARSHAL_ERROR)) == Terminal && Classify(Some(Wrapped(MARSHAL_ERROR))) == Terminal
  {
  }

  /** The insert of StoreData takes effect; it is not undone when the accounting behind it fails. */
  predicate SingleWrites(e: Event, fault: SingleFault) {
    e.data.Some? && !fault.SingleExec?
  }

  function StoreSingle(st: Store, e: Event, fault: SingleFault): Store {
    if !SingleWrites(e, fault) then st
    else if fault.SingleFine? then Apply(st, [RowOf(e)])
    else st.(events := Insert(st.events, RowOf(e)))
  }

  const VARS_PER_EVENT := 11
  const MAX_VARS := 999
  const MAX_EVENTS_PER_CHUNK: nat := MAX_VARS / VARS_PER_EVENT

  /** The end of the chunk that starts at position i of a batch of n events. */
  function ChunkEnd(n: nat, i: nat): (end: nat)
    requires i <= n
    ensures i <= end <= n && end - i <= MAX_EVENTS_PER_CHUNK
    ensures i < n ==> i < end
    ensures end < n ==> end == i + MAX_EVENTS_PER_CHUNK
  {
    if i + MAX_EVENTS_PER_CHUNK > n then n else i + MAX_EVENTS_PER_CHUNK
  }

  function ChunkError(chunk: seq<Event>, fault: ChunkFault): Option<Error> {
    if fault.Begin? then Some(ClassifyStoreError(fault.e))
    else if !AllMarshal(chunk) then Some(MARSHAL_ERROR)
    else if fault.ChunkFine? then None
    else Some(ClassifyStoreError(fault.e))
  }

  /**
    And a chunk exactly if the transaction cannot begin or, with all of it marshalling, a statement
    fails, over a constraint, or if the transaction begins and an event does not marshal.
   */
  lemma ChunkClass(chunk: seq<Event>, fault: ChunkFault)
    ensures ChunkError(chunk, fault).None? <==> fault.ChunkFine? && AllMarshal(chunk)
    ensures ChunkError(chunk, fault).Some? && Classify(ChunkError(chunk, fault)) == Terminal <==>
              if !AllMarshal(chunk) then !fault.Begin? || IsConstraint(fault.e)
              else !fault.ChunkFine? && IsConstraint(fault.e)
  {
    if !fault.ChunkFine? { ConstraintIsTerminal(fault.e); }
    MarshalIsTerminal();
  }

  /** What StoreBatch returns from position i on; `faults(i)` is what goes wrong in the chunk that starts at i. */
  function BatchErrorFrom(events: seq<Event>, faults: nat -> ChunkFault, i: nat): Option<Error>
    requires i <= |events|
    decreases |events| - i
  {
    if i == |events| then
      None
    else
      var end := ChunkEnd(|events|, i);
      match ChunkError(events[i..end], faults(i))
      case Some(err) => Some(Wrapped(err))
      case None => BatchErrorFrom(events, faults, end)
  }

  /** Where StoreBatch, having come to position i, stops: the end, or the start of the first failing chunk. */
  function StopFrom(events: seq<Event>, faults: nat -> ChunkFault, i: nat): (stop: nat)
    requires i <= |events|
    ensures i <= stop <= |events| && AllMarshal(events[i..stop])
    ensures stop == |events| <==> BatchErrorFrom(events, faults, i) == None
    decreases |events| - i
  {
    if i == |events| then
      i
    else
      var end := ChunkEnd(|events|, i);
      if ChunkError(events[i..end], faults(i)).Some? then
        i
      else
        var stop := StopFrom(events, faults, end);
        assert events[i..stop] == events[i..end] + events[end..stop];
        stop
  }

  function BatchError(events: seq<Event>, faults: nat -> ChunkFault): Option<Error> {
    BatchErrorFrom(events, faults, 0)
  }

  /** How many events of the batch have been written when StoreBatch returns. */
  function BatchWritten(events: seq<Event>, faults: nat -> ChunkFault): (n: nat)
    ensures n <= |events| && AllMarshal(events[..n])
    ensures n == |events| <==> BatchError(events, faults) == None
  {
    assert forall n | 0 <= n <= |events| :: events[0..n] == events[..n];
    StopFrom(events, faults, 0)
  }

  lemma NextBoundary(i: nat)
    requires i % MAX_EVENTS_PER_CHUNK == 0
    ensures (i + MAX_EVENTS_PER_CHUNK) % MAX_EVENTS_PER_CHUNK == 0
  {
    assert MAX_EVENTS_PER_CHUNK == 90;
  }

  /** A batch that fails has been written up to a chunk boundary. */
  lemma {:induction false} StopsAtChunkBoundary(events: seq<Event>, faults: nat -> ChunkFault, i: nat)
    requires i <= |events| && i % MAX_EVENTS_PER_CHUNK == 0
    ensures StopFrom(events, faults, i) < |events| ==> StopFrom(events, faults, i) % MAX_EVENTS_PER_CHUNK == 0
    decreases |events| - i
  {
    if i < |events| {
      var end := ChunkEnd(|events|, i);
      if ChunkError(events[i..end], faults(i)).None? && end < |events| {
        NextBoundary(i);
        StopsAtChunkBoundary(events, faults, end);
      }
    }
  }

  /** Without a fault, a batch fails at the chunk of the first event that does not marshal. */
  lemma {:induction false} StopsAtUnmarshalled(events: seq<Event>, faults: nat -> ChunkFault, i: nat, k: nat)
    requires i <= k < |events| && i % MAX_EVENTS_PER_CHUNK == 0
    requires events[k].data.None? && AllMarshal(events[..k]) && forall j: nat :: faults(j).ChunkFine?
    ensures StopFrom(events, faults, i) == k - k % MAX_EVENTS_PER_CHUNK
    ensures BatchErrorFrom(events, faults, i) == Some(Wrapped(MARSHAL_ERROR))
    decreases k - i
  {
    var end := ChunkEnd(|events|, i);
    ChunkOf(i, k);
    if k < end {
      assert events[k] == events[i..end][k - i] && events[k] in events[i..end];
    } else {
      assert AllMarshal(events[i..end]) by {
        forall e | e in events[i..end]
          ensures e in events[..k]
        {
          var j :| 0 <= j < |events[i..end]| && events[i..end][j] == e;
          assert events[..k][i + j] == e;
        }
      }
      StopsAtUnmarshalled(events, faults, end, k);
    }
  }

  lemma ChunkOf(i: nat, k: nat)
    requires i <= k && i % MAX_EVENTS_PER_CHUNK == 0
    ensures k < i + MAX_EVENTS_PER_CHUNK ==> k - k % MAX_EVENTS_PER_CHUNK == i
    ensures (i + MAX_EVENTS_PER_CHUNK) % MAX_EVENTS_PER_CHUNK == 0
  {
    assert MAX_EVENTS_PER_CHUNK == 90;
    assert i == 90 * (i / 90) && k == 90 * (k / 90) + k % 90;
  }

  function StoreMany(st: Store, events: seq<Event>, faults: nat -> ChunkFault): Store {
    Apply(st, RowsOf(events[..BatchWritten(events, faults)]))
  }

  // ---- Histories of store calls ----

  datatype Op = Single(event: Event, fault: SingleFault) | Many(events: seq<Event>, faults: nat -> ChunkFault)

  function Do(st: Store, op: Op): Store {
    match op
    case Single(e, fault) => StoreSingle(st, e, fault)
    case Many(events, faults) => StoreMany(st, events, faults)
  }

  function History(st: Store, ops: seq<Op>): Store {
    if ops == [] then st else Do(History(st, ops[..|ops| - 1]), ops[|ops| - 1])
  }

  /** The rows a call writes, whether or not their ids are new. */
  function Written(op: Op): seq<Row> {
    match op
    case Single(e, fault) => if SingleWrites(e, fault) then [RowOf(e)] else []
    case Many(events, faults) => RowsOf(events[..BatchWritten(events, faults)])
  }

  function WrittenIds(ops: seq<Op>): set<string> {
    if ops == [] then {} else WrittenIds(ops[..|ops| - 1]) + Ids(Written(ops[|ops| - 1]))
  }

  lemma DoEvents(st: Store, op: Op)
    ensures Do(st, op).events == InsertAll(st.events, Written(op))
  {
    if op.Single? && SingleWrites(op.event, op.fault) {
      var r := RowOf(op.event);
      assert InsertAll(st.events, [r]) == InsertAll(Insert(st.events, r), []);
    }
  }

  lemma {:induction false} HistoryIds(st: Store, ops: seq<Op>)
    ensures Ids(History(st, ops).events) == Ids(st.events) + WrittenIds(ops)
    ensures UniqueIds(st.events) ==> UniqueIds(History(st, ops).events)
    ensures st.events <= History(st, ops).events
  {
    if ops != [] {
      var before, last := ops[..|ops| - 1], ops[|ops| - 1];
      HistoryIds(st, before);
      var mid := History(st, before);
      DoEvents(mid, last);
      InsertAllMeaning(mid.events, Written(last));
    }
  }

  /**
    Which ids are in the table depends only on which were written: not on order, batching,
    repetition or interleaving.
   */
  lemma Confluence(st: Store, ops1: seq<Op>, ops2: seq<Op>)
    requires WrittenIds(ops1) == WrittenIds(ops2)
    ensures Ids(History(st, ops1).events) == Ids(History(st, ops2).events)
  {
    HistoryIds(st, ops1);
    HistoryIds(st, ops2);
  }

  lemma {:induction false} HistoryConcat(st: Store, a: seq<Op>, b: seq<Op>)
    ensures History(st, a + b) == History(History(st, a), b)
  {
    if b == [] {
      assert a + b == a;
    } else {
      assert (a + b)[..|a + b| - 1] == a + b[..|b| - 1];
      HistoryConcat(st, a, b[..|b| - 1]);
    }
  }

  /** Replaying calls whose ids were all written before leaves the table, its rows and their order as they are. */
  lemma {:induction false} ReplayKeepsTable(st: Store, ops: seq<Op>, replayed: seq<Op>)
    requires WrittenIds(replayed) <= Ids(st.events) + WrittenIds(ops)
    ensures History(st, ops + replayed).events == History(st, ops).events
  {
    HistoryConcat(st, ops, replayed);
    if replayed != [] {
      var before, last := replayed[..|replayed| - 1], replayed[|replayed| - 1];
      ReplayKeepsTable(st, ops, before);
      HistoryConcat(st, ops, before);
      HistoryIds(st, ops);
      DoEvents(History(History(st, ops), before), last);
      InsertAllKnown(History(st, ops).events, Written(last));
    }
  }

  // ---- The rows themselves ----

  function RowSet(t: Table): set<Row> {
    set r | r in t
  }

  /** Every row the calls write, in order. */
  function WrittenInOrder(ops: seq<Op>): seq<Row> {
    if ops == [] then [] else WrittenInOrder(ops[..|ops| - 1]) + Written(ops[|ops| - 1])
  }

  function WrittenRows(ops: seq<Op>): set<Row> {
    RowSet(WrittenInOrder(ops))
  }

  lemma {:induction false} HistoryInserts(st: Store, ops: seq<Op>)
    ensures History(st, ops).events == InsertAll(st.events, WrittenInOrder(ops))
  {
    if ops != [] {
      var before, last := ops[..|ops| - 1], ops[|ops| - 1];
      HistoryInserts(st, before);
      DoEvents(History(st, before), last);
      InsertAllConcat(st.events, WrittenInOrder(before), Written(last));
    }
  }

  /** No two different rows share an id that the table does not have yet. */
  ghost predicate OneRowPerNewId(t: Table, rows: set<Row>) {
    forall r, q | r in rows && q in rows && r.id == q.id && r.id !in Ids(t) :: r == q
  }

  function NewRows(t: Table, rows: set<Row>): set<Row> {
    set r | r in rows && r.id !in Ids(t)
  }

  lemma {:induction false} InsertAllRows(t: Table, rows: seq<Row>)
    requires OneRowPerNewId(t, RowSet(rows))
    ensures RowSet(InsertAll(t, rows)) == RowSet(t) + NewRows(t, RowSet(rows))
    decreases rows
  {
    if rows != [] {
      var r, rest := rows[0], rows[1..];
      var u := Insert(t, r);
      assert rows == [r] + rest;
      assert Ids(u) == Ids(t) + {r.id};
      InsertAllRows(u, rest);
    }
  }

  /** Any two histories that write the same rows leave the same rows, whatever their order, batching and repetition. */
  ghost predicate RowsConfluent(st: Store, rows: set<Row>) {
    forall a, b | WrittenRows(a) == rows && WrittenRows(b) == rows ::
      RowSet(History(st, a).events) == RowSet(History(st, b).events)
  }

  function EventOfRow(r: Row): Event {
    Event(r.id, r.domain, r.eventType, r.entityId, r.entityType,
          r.occurredAt, r.ingestedAt, r.source, r.schemaVersion, Some(r.data))
  }

  /** Rows stored one by one without a fault. */
  function StoreEach(rows: seq<Row>): seq<Op> {
    if rows == [] then []
    else StoreEach(rows[..|rows| - 1]) + [Single(EventOfRow(rows[|rows| - 1]), SingleFine)]
  }

  lemma {:induction false} StoreEachWrites(rows: seq<Row>)
    ensures WrittenInOrder(StoreEach(rows)) == rows
  {
    if rows != [] {
      var before, last := rows[..|rows| - 1], Single(EventOfRow(rows[|rows| - 1]), SingleFine);
      StoreEachWrites(before);
      assert (StoreEach(before) + [last])[..|StoreEach(before)|] == StoreEach(before);
      assert rows == before + Written(last);
    }
  }

  lemma {:induction false} InSomeOrder(rows: set<Row>) returns (s: seq<Row>)
    ensures forall q :: q in s <==> q in rows
  {
    s := [];
    if rows != {} {
      var r :| r in rows;
      var rest := InSomeOrder(rows - {r});
      s := [r] + rest;
    }
  }

  /** Written first, a row with a new id is the one its id keeps. */
  lemma FirstRowStays(st: Store, r: Row, rest: seq<Row>)
    requires UniqueIds(st.events) && r.id !in Ids(st.events)
    ensures
      var kept := RowSet(History(st, StoreEach([r] + rest)).events);
      r in kept && forall q | q in kept && q.id == r.id :: q == r
  {
    StoreEachWrites([r] + rest);
    HistoryInserts(st, StoreEach([r] + rest));
    FirstWriterWins(st.events, [r] + rest, 0);
  }

  lemma HistoryRows(st: Store, ops: seq<Op>)
    requires OneRowPerNewId(st.events, WrittenRows(ops))
    ensures RowSet(History(st, ops).events) == RowSet(st.events) + NewRows(st.events, WrittenRows(ops))
  {
    HistoryInserts(st, ops);
    InsertAllRows(st.events, WrittenInOrder(ops));
  }

  /** Of two different rows with one new id either can be the one that is kept. */
  lemma EitherRowCanStay(st: Store, rows: set<Row>, r: Row, q: Row)
    requires UniqueIds(st.events)
    requires r in rows && q in rows && r.id == q.id && r.id !in Ids(st.events) && r != q
    ensures !RowsConfluent(st, rows)
  {
    var s := InSomeOrder(rows);
    StoreEachWrites([r] + s);
    StoreEachWrites([q] + s);
    FirstRowStays(st, r, s);
    FirstRowStays(st, q, s);
    var a, b := StoreEach([r] + s), StoreEach([q] + s);
    assert RowSet([r] + s) == rows && RowSet([q] + s) == rows;
    assert WrittenRows(a) == rows && WrittenRows(b) == rows;
    assert r in RowSet(History(st, a).events) && r !in RowSet(History(st, b).events);
  }

  /**
    Which rows are in the table depends only on which were written if and only if no two different
    ones share a new id; the rows are then those of the table and the written ones with new ids.
   */
  lemma RowConfluence(st: Store, rows: set<Row>)
    requires UniqueIds(st.events)
    ensures RowsConfluent(st, rows) <==> OneRowPerNewId(st.events, rows)
    ensures OneRowPerNewId(st.events, rows) ==>
              forall ops | WrittenRows(ops) == rows ::
                RowSet(History(st, ops).events) == RowSet(st.events) + NewRows(st.events, rows)
  {
    if OneRowPerNewId(st.events, rows) {
      forall ops | WrittenRows(ops) == rows
        ensures RowSet(History(st, ops).events) == RowSet(st.events) + NewRows(st.events, rows)
      {
        HistoryRows(st, ops);
      }
    } else {
      var r, q :| r in rows && q in rows && r.id == q.id && r.id !in Ids(st.events) && r != q;
      EitherRowCanStay(st, rows, r, q);
    }
  }

  // ---- Accounting ----

  /** New rows of StoreData calls whose accounting update did not happen. */
  function Unaccounted(st: Store, ops: seq<Op>): nat {
    if ops == [] then
      0
    else
      var before, last := ops[..|ops| - 1], ops[|ops| - 1];
      Unaccounted(st, before) +
      if last.Single? && SingleWrites(last.event, last.fault) && !last.fault.SingleFine? &&
         last.event.id !in Ids(History(st, before).events)
      then 1 else 0
  }

  /** Events that were accounted for: whole chunks, and single stores that returned success. */
  function Accounted(ops: seq<Op>): nat {
    if ops == [] then
      0
    else
      var last := ops[|ops| - 1];
      Accounted(ops[..|ops| - 1]) +
      if last.Many? then |Written(last)|
      else if SingleError(last.event, last.fault).None? then 1 else 0
  }

  /**
    From a fresh schema: attempted splits into inserted and duplicates, and counts exactly the
    accounted events; the table has the inserted rows plus one for each unaccounted new row.
   */
  lemma {:induction false} AccountingConserved(ops: seq<Op>)
    ensures
      var st := History(FRESH, ops);
      && st.attempted == st.inserted + st.duplicates
      && st.attempted == Accounted(ops)
      && |st.events| == st.inserted + Unaccounted(FRESH, ops)
      && 0 <= st.inserted && 0 <= st.duplicates
  {
    if ops != [] {
      var before, last := ops[..|ops| - 1], ops[|ops| - 1];
      AccountingConserved(before);
      var mid := History(FRESH, before);
      match last
      case Many(events, faults) => InsertAllMeaning(mid.events, Written(last));
      case Single(e, fault) =>
        if SingleWrites(e, fault) {
          InsertAllMeaning(mid.events, [RowOf(e)]);
          assert InsertAll(mid.events, [RowOf(e)]) == Insert(mid.events, RowOf(e));
        }
    }
  }

  /** The row count is the inserted counter exactly when no single store lost its accounting over a new row. */
  lemma RowCountExact(ops: seq<Op>)
    ensures
      var st := History(FRESH, ops);
      |st.events| == st.inserted <==>
      forall k | 0 <= k < |ops| ::
        ops[k].Single? && SingleWrites(ops[k].event, ops[k].fault) && !ops[k].fault.SingleFine?
        ==> ops[k].event.id in Ids(History(FRESH, ops[..k]).events)
  {
    AccountingConserved(ops);
    UnaccountedZero(FRESH, ops);
  }

  lemma {:induction false} UnaccountedZero(st: Store, ops: seq<Op>)
    ensures Unaccounted(st, ops) == 0 <==>
            forall k | 0 <= k < |ops| ::
              ops[k].Single? && SingleWrites(ops[k].event, ops[k].fault) && !ops[k].fault.SingleFine?
              ==> ops[k].event.id in Ids(History(st, ops[..k]).events)
  {
    if ops != [] {
      var before := ops[..|ops| - 1];
      UnaccountedZero(st, before);
      assert forall k | 0 <= k < |before| :: before[k] == ops[k] && before[..k] == ops[..k];
    }
  }
}
