/**
  Runs that lead somewhere: a message on its way through each mode, and with them the promises that
  do not hold in general - the broker's offset may step back, a message may be both stored and
  dead-lettered - with exactly when they do.
 */
module PipelineExamples {
  import opened Committer
  import opened Options
  import opened Pipeline
  import opened PipelineProtocol
  import opened PipelineSafety
  import opened PipelineShutdown
  import Repository

  /** Some run leads from s to t. */
  ghost predicate Leads(c: Config, s: State, t: State) {
    exists steps :: CanRun(c, s, steps) && After(c, s, steps) == t
  }

  lemma LeadsToItself(c: Config, s: State)
    ensures Leads(c, s, s)
  {
    assert CanRun(c, s, []) && After(c, s, []) == s;
  }

  lemma Then(c: Config, s: State, t: State, step: Step) returns (u: State)
    requires Leads(c, s, t) && Enabled(c, t, step)
    ensures u == Do(c, t, step) && Leads(c, s, u)
  {
    var steps :| CanRun(c, s, steps) && After(c, s, steps) == t;
    OneStep(c, t, step);
    RunConcat(c, s, steps, [step]);
    u := Do(c, t, step);
    assert After(c, s, steps + [step]) == u;
  }

  // ---- The first message ----

  /** Who stores what a producer fetches. */
  function StoringActor(c: Config): nat {
    match ModeOf(c)
    case Single => 0
    case Batch => 1
    case Pool => Workers(c) + 2
  }

  function StoringNext(c: Config): Next {
    if ModeOf(c) == Single then ToTop else ToCollect(false)
  }

  /** A started process with the first delivery in this place, and nothing else anywhere. */
  ghost predicate FirstAt(c: Config, w: World, s: State, m: Message, a: nat, pc: Pc) {
    && |s.pcs| == Actors(c) && a < |s.pcs|
    && s.pcs == Init(c, w.rows, w.failures, w.broker).pcs[a := pc]
    && s.deliveryCh == [] && s.eventCh == [] && s.fetched == [m] && !s.cancelled
    && s.world == World(w.rows, w.failures,
                        map[m.partition := Part(m.offset, {}, Progress(m.offset, {}))], {}, w.broker)
  }

  function Started(c: Config, w: World): State {
    Init(c, w.rows, w.failures, w.broker)
  }

  lemma FetchesFirst(c: Config, w: World, m: Message) returns (t: State)
    requires c.decodes(m)
    ensures Leads(c, Started(c, w), t)
    ensures FirstAt(c, w, t, m, 0, if ModeOf(c) == Pool then Holding(0) else Transforming(0))
  {
    var s := Started(c, w);
    LeadsToItself(c, s);
    t := Then(c, s, s, Up(0, BeginPoll));
    t := Then(c, s, t, Up(0, Fetch(m, true)));
    assert t.pcs == s.pcs[0 := if ModeOf(c) == Pool then Holding(0) else Transforming(0)];
  }

  /** In the pool, a worker takes it and transforms it. */
  lemma WorkerSends(c: Config, w: World, t0: State, m: Message) returns (t: State)
    requires ModeOf(c) == Pool && Leads(c, Started(c, w), t0) && FirstAt(c, w, t0, m, 0, Holding(0))
    ensures Leads(c, Started(c, w), t) && FirstAt(c, w, t, m, 1, Sending(0))
  {
    var s := Started(c, w);
    t := Then(c, s, t0, Up(0, SendDelivery));
    assert [] + [0] == [0] && t.pcs == s.pcs;
    t := Then(c, s, t, Up(1, Receive));
    assert [0][1..] == [] && t.pcs == s.pcs[1 := Transforming(0)];
    t := Then(c, s, t, Up(1, TransformOk));
    assert t.pcs == s.pcs[1 := Sending(0)];
  }

  /** The batcher has the event, and has it stored at once if its batch is full and else at a tick. */
  lemma BatcherStores(c: Config, w: World, t0: State, m: Message, from: nat) returns (t: State)
    requires ModeOf(c) != Single && from == (if ModeOf(c) == Pool then 1 else 0)
    requires Leads(c, Started(c, w), t0) && FirstAt(c, w, t0, m, from, Sending(0))
    ensures Leads(c, Started(c, w), t) && FirstAt(c, w, t, m, StoringActor(c), Storing([0], 0, ToCollect(false)))
  {
    var s, b := Started(c, w), StoringActor(c);
    t := BatcherTakes(c, w, t0, m, from);
    if t.pcs[b].Collecting? {
      t := Then(c, s, t, Gather(b, Tick));
      assert t.pcs == s.pcs[b := Storing([0], 0, ToCollect(false))];
    }
  }

  lemma BatcherTakes(c: Config, w: World, t0: State, m: Message, from: nat) returns (t: State)
    requires ModeOf(c) != Single && from == (if ModeOf(c) == Pool then 1 else 0)
    requires Leads(c, Started(c, w), t0) && FirstAt(c, w, t0, m, from, Sending(0))
    ensures Leads(c, Started(c, w), t)
    ensures FirstAt(c, w, t, m, StoringActor(c),
                    if BatchSize(c) == 1 then Storing([0], 0, ToCollect(false)) else Collecting([0], false))
  {
    var s, b := Started(c, w), StoringActor(c);
    t := Then(c, s, t0, Up(from, SendEvent));
    assert [] + [0] == [0] && [0][1..] == [] && t.pcs == s.pcs;
    t := Then(c, s, t, Gather(b, Take));
    assert t.pcs == s.pcs[b := if BatchSize(c) == 1 then Storing([0], 0, ToCollect(false)) else Collecting([0], false)];
  }

  /** In every mode a fetched message that decodes can come to the store. */
  lemma FirstComesToStore(c: Config, w: World, m: Message) returns (t: State)
    requires c.decodes(m)
    ensures Leads(c, Started(c, w), t) && FirstAt(c, w, t, m, StoringActor(c), Storing([0], 0, StoringNext(c)))
  {
    var s := Started(c, w);
    t := FetchesFirst(c, w, m);
    if ModeOf(c) == Pool {
      t := WorkerSends(c, w, t, m);
      t := BatcherStores(c, w, t, m, 1);
    } else {
      t := Then(c, s, t, Up(0, TransformOk));
      if ModeOf(c) == Batch {
        assert t.pcs == s.pcs[0 := Sending(0)];
        t := BatcherStores(c, w, t, m, 0);
      } else {
        assert t.pcs == s.pcs[0 := Storing([0], 0, ToTop)];
      }
    }
  }

  lemma FirstRecord(o: int)
    ensures Record(Progress(o, {}), o) == Progress(o + 1, {})
  {
    var p := Progress(o, {} + {o});
    WalkMeaning(p);
    assert o in p.completed && Walk(p).next != o;
    assert Walk(p).next - 1 in p.completed;
    assert Walk(p).completed == {};
  }

  lemma FirstCompletion(w: World, m: Message)
    requires w.parts == map[m.partition := Part(m.offset, {}, Progress(m.offset, {}))]
    ensures Commits(w.parts, m) == Some(m)
    ensures WithCompleted(w, m).parts == map[m.partition := Part(m.offset, {m.offset}, Progress(m.offset + 1, {}))]
  {
    FirstRecord(m.offset);
    assert {} + {m.offset} == {m.offset};
  }

  /** The first delivery has been stored and completed, and its commit is under way. */
  ghost predicate FirstCompleted(c: Config, w: World, s: State, m: Message) {
    && |s.pcs| == Actors(c)
    && s.pcs == Started(c, w).pcs[StoringActor(c) := Committing(m, [], false, StoringNext(c))]
    && s.fetched == [m] && !s.cancelled
    && s.world == World(WithRow(c, w.rows, m), w.failures,
                        map[m.partition := Part(m.offset, {m.offset}, Progress(m.offset + 1, {}))], {m}, w.broker)
  }

  lemma FirstIsCompleted(c: Config, w: World, m: Message) returns (t: State)
    requires c.decodes(m)
    ensures Leads(c, Started(c, w), t) && FirstCompleted(c, w, t, m)
  {
    var s, a := Started(c, w), StoringActor(c);
    t := FirstComesToStore(c, w, m);
    var u := Then(c, s, t, Store(a, StoreOk));
    assert [0][..0] == [] && [0][1..] == [];
    assert WithRows(c, w.rows, [m], [0]) == WithRow(c, w.rows, m);
    assert u.pcs == s.pcs[a := Acking(0, [], false, StoringNext(c))];
    FirstCompletion(u.world, m);
    t := Then(c, s, u, Settle(a, CompleteAck));
    assert t.pcs == s.pcs[a := Committing(m, [], false, StoringNext(c))];
    assert {} + {m} == {m};
  }

  // ---- The broker's offset ----

  /** What the one goroutine is about to commit is what the watermark stands at. */
  ghost predicate CommitIsFresh(s: State) {
    forall a | 0 <= a < |s.pcs| && s.pcs[a].Committing? ::
      var m := s.pcs[a].commit;
      m.partition in s.world.parts && s.world.parts[m.partition].progress.next == m.offset + 1
  }

  lemma CompletionIsFresh(w: World, m: Message)
    requires m.partition in w.parts && Commits(w.parts, m).Some?
    ensures
      var x, v := Commits(w.parts, m).value, WithCompleted(w, m);
      x.partition in v.parts && v.parts[x.partition].progress.next == x.offset + 1
  {
  }

  lemma SingleKeepsFresh(c: Config, s: State, step: Step)
    requires ModeOf(c) == Single && Protocol(c, s) && CommitIsFresh(s) && Enabled(c, s, step)
    ensures CommitIsFresh(Do(c, s, step))
  {
    assert |s.pcs| == 1;
    if step.Settle? && step.settle.CompleteAck? {
      var m := s.fetched[s.pcs[0].i];
      if Commits(s.world.parts, m).Some? { CompletionIsFresh(s.world, m); }
    } else {
      CommittingOnlyByAck(c, s, step);
    }
  }

  /** A goroutine comes to commit only by an ack. */
  lemma CommittingOnlyByAck(c: Config, s: State, step: Step)
    requires ModeOf(c) == Single && Protocol(c, s) && Enabled(c, s, step)
    requires !(step.Settle? && step.settle.CompleteAck?)
    ensures |Do(c, s, step).pcs| == 1
    ensures Do(c, s, step).pcs[0].Committing? ==> Do(c, s, step) == s.(cancelled := true)
  {
    match step
    case Cancel =>
    case Up(a, up) =>
    case Gather(a, gather) =>
    case Store(a, store) => NextOfCommits(s.pcs[a].batch, s.pcs[a].next);
    case Settle(a, settle) => NextOfCommits(s.pcs[a].rest, s.pcs[a].next);
  }

  lemma NextOfCommits(rest: seq<nat>, next: Next)
    ensures !NextOf(rest, true, next).Committing? && !NextOf(rest, false, next).Committing? && !Return(next).Committing?
  {
  }

  lemma {:induction false} SingleStaysFresh(c: Config, s: State, steps: seq<Step>)
    requires ModeOf(c) == Single && Protocol(c, s) && CommitIsFresh(s) && CanRun(c, s, steps)
    ensures CommitIsFresh(After(c, s, steps))
    decreases steps
  {
    if steps != [] {
      StepKeepsProtocol(c, s, steps[0]);
      SingleKeepsFresh(c, s, steps[0]);
      SingleStaysFresh(c, Do(c, s, steps[0]), steps[1..]);
    }
  }

  /** The reader started each partition at the offset that the broker held, or above it. */
  ghost predicate StartsFromBroker(w: World, resumed: map<int, int>) {
    forall p | p in w.parts && p in resumed :: resumed[p] <= w.parts[p].start
  }

  lemma BrokerBelowWatermark(c: Config, s: State, resumed: map<int, int>, p: int)
    requires Safe(c, s, resumed) && StartsFromBroker(s.world, resumed) && p in s.world.parts && p in s.world.broker
    ensures s.world.broker[p] <= s.world.parts[p].progress.next
  {
    assert s.world.parts[p].start <= s.world.parts[p].progress.next;
  }

  lemma FreshNeverStepsBack(c: Config, s: State, resumed: map<int, int>, step: Step, p: int)
    requires Safe(c, s, resumed) && CommitIsFresh(s) && StartsFromBroker(s.world, resumed)
    requires Enabled(c, s, step) && p in s.world.broker
    ensures p in Do(c, s, step).world.broker && s.world.broker[p] <= Do(c, s, step).world.broker[p]
  {
    if step.Settle? && step.settle.CommitReply? {
      var m := s.pcs[step.a].commit;
      assert m.partition in s.world.parts && s.world.parts[m.partition].progress.next == m.offset + 1;
      if m.partition == p { BrokerBelowWatermark(c, s, resumed, p); }
    } else {
      OnlyRepliesMoveTheBroker(c, s, step);
    }
  }

  lemma OnlyRepliesMoveTheBroker(c: Config, s: State, step: Step)
    requires Enabled(c, s, step) && !(step.Settle? && step.settle.CommitReply?)
    ensures Do(c, s, step).world.broker == s.world.broker
  {
  }

  /** A run from a start, with a reader that begins at the broker's offsets, and a step of it that moves one back. */
  ghost predicate StepsBack(c: Config, w: World, steps: seq<Step>, step: Step, p: int) {
    CanRun(c, Started(c, w), steps) &&
    var s := After(c, Started(c, w), steps);
    && Enabled(c, s, step) && StartsFromBroker(s.world, w.broker)
    && p in s.world.broker && p in Do(c, s, step).world.broker
    && Do(c, s, step).world.broker[p] < s.world.broker[p]
  }

  /** In the single mode the broker's offsets never step back, with a reader that starts at or above them. */
  lemma SingleModeNeverStepsBack(c: Config, w: World, steps: seq<Step>, step: Step, p: int)
    requires ModeOf(c) == Single
    ensures !StepsBack(c, w, steps, step, p)
  {
    if StepsBack(c, w, steps, step, p) {
      EveryRun(c, w.rows, w.failures, w.broker, steps);
      InitProtocol(c, w.rows, w.failures, w.broker);
      SingleStaysFresh(c, Started(c, w), steps);
      FreshNeverStepsBack(c, After(c, Started(c, w), steps), w.broker, step, p);
    }
  }

  /** While the first commit is under way, the producer gets the next record, which it cannot use. */
  lemma SecondIsFetched(c: Config, w: World, t0: State, m: Message) returns (t: State)
    requires ModeOf(c) != Single && Leads(c, Started(c, w), t0) && FirstCompleted(c, w, t0, m)
    ensures Leads(c, Started(c, w), t) && t.pcs == t0.pcs[0 := DeadLetter(1, [], ToTop)]
    ensures t.fetched == [m, Message(m.partition, m.offset + 1)] && t.world == t0.world
  {
    var s, n := Started(c, w), Message(m.partition, m.offset + 1);
    t := Then(c, s, t0, Up(0, BeginPoll));
    assert t.pcs[0] == InPoll && t.world == t0.world;
    t := Then(c, s, t, Up(0, Fetch(n, false)));
    assert t.pcs == t0.pcs[0 := DeadLetter(1, [], ToTop)];
  }

  lemma SecondIsRecorded(c: Config, w: World, t0: State, m: Message) returns (t: State)
    requires ModeOf(c) != Single && Leads(c, Started(c, w), t0) && FirstCompleted(c, w, t0, m)
    ensures Leads(c, Started(c, w), t) && t.pcs == t0.pcs[0 := Acking(1, [], true, ToTop)]
    ensures t.fetched == [m, Message(m.partition, m.offset + 1)]
    ensures t.world.parts == t0.world.parts && t.world.broker == w.broker
  {
    t := SecondIsFetched(c, w, t0, m);
    t := Then(c, Started(c, w), t, Settle(0, RecordFailure(true)));
    assert t.pcs == t0.pcs[0 := Acking(1, [], true, ToTop)];
  }

  lemma SecondIsCompleted(c: Config, w: World, t0: State, m: Message) returns (t: State)
    requires ModeOf(c) != Single && Leads(c, Started(c, w), t0) && FirstCompleted(c, w, t0, m)
    ensures Leads(c, Started(c, w), t)
    ensures t.pcs == t0.pcs[0 := Committing(Message(m.partition, m.offset + 1), [], true, ToTop)]
    ensures t.world.parts.Keys == {m.partition} && t.world.parts[m.partition].start == m.offset
    ensures t.world.broker == w.broker
  {
    t := SecondIsRecorded(c, w, t0, m);
    FirstRecord(m.offset + 1);
    t := Then(c, Started(c, w), t, Settle(0, CompleteAck));
    assert t.pcs == t0.pcs[0 := Committing(Message(m.partition, m.offset + 1), [], true, ToTop)];
  }

  /** Dead-lettered and completed, it is committed first. */
  lemma SecondOvertakes(c: Config, w: World, t0: State, m: Message) returns (t: State)
    requires ModeOf(c) != Single && Leads(c, Started(c, w), t0) && FirstCompleted(c, w, t0, m)
    ensures Leads(c, Started(c, w), t) && |t.pcs| == Actors(c)
    ensures t.pcs[StoringActor(c)] == Committing(m, [], false, StoringNext(c))
    ensures t.world.broker == w.broker[m.partition := m.offset + 2] && t.world.parts.Keys == {m.partition}
    ensures t.world.parts[m.partition].start == m.offset
  {
    t := SecondIsCompleted(c, w, t0, m);
    t := Then(c, Started(c, w), t, Settle(0, CommitReply(true, true, false)));
  }

  /** With more than one goroutine it can: commits of one partition are under way on two of them. */
  lemma OtherModesStepBack(c: Config, w: World, m: Message)
    requires ModeOf(c) != Single && c.decodes(m) && w.broker == map[]
    ensures exists steps, step :: StepsBack(c, w, steps, step, m.partition)
  {
    var s, a := Started(c, w), StoringActor(c);
    var t := FirstIsCompleted(c, w, m);
    t := SecondOvertakes(c, w, t, m);
    var steps :| CanRun(c, s, steps) && After(c, s, steps) == t;
    assert StepsBack(c, w, steps, Settle(a, CommitReply(true, true, false)), m.partition);
  }

  ghost predicate NeverStepsBack(c: Config) {
    forall w, steps, step, p :: !StepsBack(c, w, steps, step, p)
  }

  /**
    With readers that begin at the broker's offsets or above them, no run of a configuration moves
    an offset of the broker back if and only if it is one of the single mode.
   */
  lemma OnlySingleModeNeverStepsBack(c: Config, m: Message)
    requires c.decodes(m)
    ensures NeverStepsBack(c) <==> ModeOf(c) == Single
  {
    if ModeOf(c) == Single {
      forall w, steps, step, p { SingleModeNeverStepsBack(c, w, steps, step, p); }
    } else {
      var w := World(map[], {}, map[], {}, map[]);
      OtherModesStepBack(c, w, m);
    }
  }

  // ---- Two readings under one id ----

  /** The message's own data is in a store, not just some event under its id. */
  ghost predicate KeptItself(c: Config, w: World, m: Message) {
    c.decodes(m) &&
    ((c.idOf(m) in w.rows && w.rows[c.idOf(m)] == c.dataOf(m)) || FailureRecord(m, true) in w.failures)
  }

  /** Messages of the log with one event id have the same data. */
  ghost predicate OneReadingPerId(c: Config) {
    forall m, n | c.decodes(m) && c.decodes(n) && c.idOf(m) == c.idOf(n) :: c.dataOf(m) == c.dataOf(n)
  }

  ghost predicate IsRowOf(c: Config, m: Message, id: string, data: string) {
    c.decodes(m) && c.idOf(m) == id && c.dataOf(m) == data
  }

  /** Every row of the table is that of some message of the log. */
  ghost predicate Truthful(c: Config, rows: map<string, string>) {
    forall id | id in rows :: exists m :: IsRowOf(c, m, id, rows[id])
  }

  lemma {:induction false} RowsTruthful(c: Config, rows: map<string, string>, fetched: seq<Message>, batch: seq<nat>)
    requires Truthful(c, rows) && AllDecode(c, fetched, batch)
    ensures Truthful(c, WithRows(c, rows, fetched, batch))
  {
    if batch != [] {
      var n := |batch| - 1;
      assert batch[n] in batch && forall i | i in batch[..n] :: i in batch;
      RowsTruthful(c, rows, fetched, batch[..n]);
      var m := fetched[batch[n]];
      assert IsRowOf(c, m, c.idOf(m), c.dataOf(m));
    }
  }

  lemma StoreKeepsTruthful(c: Config, s: State, a: nat, store: StoreStep)
    requires PassedDecode(c, s) && Truthful(c, s.world.rows) && StoreEnabled(s, a, store)
    ensures Truthful(c, StoreDelta(c, s, a, store).world.rows)
  {
    var batch := s.pcs[a].batch;
    assert AllDecode(c, s.fetched, Passed(s.pcs[a]));
    RowsTruthful(c, s.world.rows, s.fetched, batch);
    if store.StoreTransient? || store.StoreTerminal? {
      assert forall i | i in batch[..store.n] :: i in batch;
      RowsTruthful(c, s.world.rows, s.fetched, batch[..store.n]);
    }
  }

  lemma OnlyStoresWrite(c: Config, s: State, step: Step)
    requires Enabled(c, s, step) && !step.Store?
    ensures Do(c, s, step).world.rows == s.world.rows
  {
  }

  lemma StepKeepsTruthful(c: Config, s: State, step: Step)
    requires PassedDecode(c, s) && Truthful(c, s.world.rows) && Enabled(c, s, step)
    ensures Truthful(c, Do(c, s, step).world.rows)
  {
    if step.Store? { StoreKeepsTruthful(c, s, step.a, step.store); } else { OnlyStoresWrite(c, s, step); }
  }

  lemma {:induction false} RunKeepsTruthful(c: Config, s: State, steps: seq<Step>)
    requires PassedDecode(c, s) && Truthful(c, s.world.rows) && CanRun(c, s, steps)
    ensures Truthful(c, After(c, s, steps).world.rows)
    decreases steps
  {
    if steps != [] {
      StepKeepsDecoding(c, s, steps[0]);
      StepKeepsTruthful(c, s, steps[0]);
      RunKeepsTruthful(c, Do(c, s, steps[0]), steps[1..]);
    }
  }

  lemma KeptMeansItself(c: Config, w: World, m: Message)
    requires OneReadingPerId(c) && Truthful(c, w.rows) && Kept(c, w, m)
    ensures KeptItself(c, w, m)
  {
    if c.idOf(m) in w.rows {
      var n :| IsRowOf(c, n, c.idOf(m), w.rows[c.idOf(m)]);
    }
  }

  /** A run at whose end this message lies between its partition's start and a chosen commit. */
  ghost predicate Covered(c: Config, w: World, steps: seq<Step>, m: Message) {
    CanRun(c, Started(c, w), steps) &&
    var v := After(c, Started(c, w), steps).world;
    && m.partition in v.parts && v.parts[m.partition].start <= m.offset
    && exists x :: x in v.issued && x.partition == m.partition && m.offset <= x.offset
  }

  /** Every message that decodes and is covered by a commit has its own data in a store. */
  ghost predicate EveryReadingKept(c: Config) {
    forall w: World, steps, m | Truthful(c, w.rows) && Covered(c, w, steps, m) && c.decodes(m) ::
      KeptItself(c, After(c, Started(c, w), steps).world, m)
  }

  /** A reading whose id another one has already is acked, and its data is in no store. */
  lemma SecondReadingIsLost(c: Config, m: Message, n: Message)
    requires c.decodes(m) && c.decodes(n) && c.idOf(m) == c.idOf(n) && c.dataOf(m) != c.dataOf(n)
    ensures !EveryReadingKept(c)
  {
    var w := World(map[c.idOf(m) := c.dataOf(m)], {}, map[], {}, map[]);
    assert IsRowOf(c, m, c.idOf(m), c.dataOf(m));
    var t := FirstIsCompleted(c, w, n);
    var steps :| CanRun(c, Started(c, w), steps) && After(c, Started(c, w), steps) == t;
    assert n in t.world.issued && Covered(c, w, steps, n);
    assert !KeptItself(c, t.world, n);
  }

  /**
    Whether being kept by its id means that a message's own data is in a store: in every mode,
    exactly if no two different readings of the log share an id.
   */
  lemma ReadingsKeptExactly(c: Config)
    ensures EveryReadingKept(c) <==> OneReadingPerId(c)
  {
    if OneReadingPerId(c) {
      forall w: World, steps, m | Truthful(c, w.rows) && Covered(c, w, steps, m) && c.decodes(m)
        ensures KeptItself(c, After(c, Started(c, w), steps).world, m)
      {
        InitDecodes(c, w.rows, w.failures, w.broker);
        RunKeepsTruthful(c, Started(c, w), steps);
        AtLeastOnce(c, w.rows, w.failures, w.broker, steps, m.partition, m.offset);
        KeptMeansItself(c, After(c, Started(c, w), steps).world, m);
      }
    } else {
      var m, n :| c.decodes(m) && c.decodes(n) && c.idOf(m) == c.idOf(n) && c.dataOf(m) != c.dataOf(n);
      SecondReadingIsLost(c, m, n);
    }
  }

  lemma {:induction false} TruthfulOverRestarts(base: Config, w: World, xs: seq<Session>, logStart: map<int, int>)
    requires CanLiveAll(base, w, xs, logStart) && Truthful(base, w.rows)
    ensures Truthful(base, LiveAll(base, w, xs, logStart).rows)
    decreases xs
  {
    if xs != [] {
      SessionTruthful(base, w, xs[0], logStart);
      TruthfulOverRestarts(base, Live(base, w, xs[0], logStart), xs[1..], logStart);
    }
  }

  lemma SessionTruthful(base: Config, w: World, x: Session, logStart: map<int, int>)
    requires CanLive(base, w, x, logStart) && Truthful(base, w.rows)
    ensures Truthful(base, Live(base, w, x, logStart).rows)
  {
    var c := ConfigOf(base, x);
    assert forall m, id, data :: IsRowOf(c, m, id, data) <==> IsRowOf(base, m, id, data);
    InitDecodes(c, w.rows, w.failures, w.broker);
    RunKeepsTruthful(c, Started(c, w), x.steps);
  }

  /**
    Over any number of restarts: where no two different readings share an id, the own data of every
    message that decodes, from the start of the log up to the committed offset, is in a store.
   */
  lemma ReadingsOverRestarts(base: Config, w: World, xs: seq<Session>, logStart: map<int, int>, m: Message)
    requires CanLiveAll(base, w, xs, logStart) && Lossless(base, w, logStart) && Truthful(base, w.rows)
    requires OneReadingPerId(base) && base.decodes(m)
    requires
      var v := LiveAll(base, w, xs, logStart);
      m.partition in v.broker && m.partition in logStart && logStart[m.partition] <= m.offset < v.broker[m.partition]
    ensures KeptItself(base, LiveAll(base, w, xs, logStart), m)
  {
    LosslessOverRestarts(base, w, xs, logStart);
    TruthfulOverRestarts(base, w, xs, logStart);
    KeptMeansItself(base, LiveAll(base, w, xs, logStart), m);
  }

  // ---- Stored and dead-lettered ----

  function Serials(k: nat): (r: seq<nat>)
    ensures |r| == k && forall i | 0 <= i < k :: r[i] == i
  {
    seq(k, i requires 0 <= i < k => i)
  }

  function Following(m: Message, k: nat): (r: seq<Message>)
    ensures |r| == k && forall i | 0 <= i < k :: r[i] == Message(m.partition, m.offset + i)
  {
    seq(k, i requires 0 <= i < k => Message(m.partition, m.offset + i))
  }

  /** The record i places behind m decodes. */
  predicate DecodesAt(c: Config, m: Message, i: nat) {
    c.decodes(Message(m.partition, m.offset + i))
  }

  /** The batcher of the batch mode has gathered k messages, and nothing else is under way. */
  ghost predicate Gathered(c: Config, w: World, s: State, m: Message, k: nat) {
    && s.pcs == [Top, Collecting(Serials(k), false)] && s.eventCh == [] && !s.cancelled
    && s.fetched == Following(m, k) && s.world.rows == w.rows && s.world.failures == w.failures
  }

  lemma OneMoreSent(c: Config, w: World, t0: State, m: Message, k: nat) returns (t: State)
    requires ModeOf(c) == Batch && Leads(c, Started(c, w), t0) && Gathered(c, w, t0, m, k)
    requires DecodesAt(c, m, k)
    ensures Leads(c, Started(c, w), t) && t.pcs == t0.pcs && t.eventCh == [k] && !t.cancelled
    ensures t.fetched == Following(m, k + 1) && t.world.rows == w.rows && t.world.failures == w.failures
  {
    var s, n := Started(c, w), Message(m.partition, m.offset + k);
    t := Then(c, s, t0, Up(0, BeginPoll));
    assert t.pcs == [InPoll, Collecting(Serials(k), false)];
    t := Then(c, s, t, Up(0, Fetch(n, true)));
    assert t.pcs == [Transforming(k), Collecting(Serials(k), false)];
    assert t.fetched == Following(m, k) + [n] == Following(m, k + 1);
    t := Then(c, s, t, Up(0, TransformOk));
    t := Then(c, s, t, Up(0, SendEvent));
    assert t.pcs == t0.pcs;
  }

  lemma OneMoreGathered(c: Config, w: World, t0: State, m: Message, k: nat) returns (t: State)
    requires ModeOf(c) == Batch && Leads(c, Started(c, w), t0) && Gathered(c, w, t0, m, k) && k + 1 < BatchSize(c)
    requires DecodesAt(c, m, k)
    ensures Leads(c, Started(c, w), t) && Gathered(c, w, t, m, k + 1)
  {
    t := OneMoreSent(c, w, t0, m, k);
    t := Then(c, Started(c, w), t, Gather(1, Take));
    assert Serials(k) + [k] == Serials(k + 1) && [k][1..] == [];
    assert t.pcs == [Top, Collecting(Serials(k + 1), false)];
  }

  lemma {:induction false} ManyGathered(c: Config, w: World, m: Message, k: nat) returns (t: State)
    requires ModeOf(c) == Batch && k < BatchSize(c)
    requires forall i: nat | i < k :: DecodesAt(c, m, i)
    ensures Leads(c, Started(c, w), t) && Gathered(c, w, t, m, k)
    decreases k
  {
    if k == 0 {
      t := Started(c, w);
      LeadsToItself(c, t);
      assert t.pcs == [Top, Collecting(Serials(0), false)];
    } else {
      t := ManyGathered(c, w, m, k - 1);
      t := OneMoreGathered(c, w, t, m, k - 1);
    }
  }

  /** A batch of two chunks comes to the store. */
  lemma TwoChunksStored(c: Config, w: World, m: Message) returns (t: State)
    requires ModeOf(c) == Batch && BatchSize(c) > 91 && forall i: nat | i < 91 :: DecodesAt(c, m, i)
    ensures Leads(c, Started(c, w), t) && t.pcs == [Top, Storing(Serials(91), 0, ToCollect(false))]
    ensures t.fetched == Following(m, 91) && !t.cancelled
  {
    t := ManyGathered(c, w, m, 91);
    t := Then(c, Started(c, w), t, Gather(1, Tick));
    assert t.pcs == [Top, Storing(Serials(91), 0, ToCollect(false))];
  }

  /** The first chunk is written, and the second fails for good, as one with an event that does not marshal does. */
  lemma SecondChunkFails(c: Config, w: World, t0: State, m: Message) returns (t: State)
    requires ModeOf(c) == Batch && Leads(c, Started(c, w), t0) && t0.fetched == Following(m, 91) && !t0.cancelled
    requires t0.pcs == [Top, Storing(Serials(91), 0, ToCollect(false))]
    ensures Leads(c, Started(c, w), t) && c.idOf(m) in t.world.rows && t.fetched == t0.fetched
    ensures t.pcs == [Top, DeadLetter(0, Serials(91)[1..], ToCollect(false))]
  {
    var batch := Serials(91);
    assert 90 % 90 == 0 && Repository.PossiblyWritten(91, 90);
    RowsExtend(c, t0.world.rows, t0.fetched, batch[..90]);
    assert batch[..90][0] == 0 && 0 in batch[..90] && t0.fetched[0] == m;
    t := Then(c, Started(c, w), t0, Store(1, StoreTerminal(90, false)));
    assert t.pcs == [Top, DeadLetter(0, batch[1..], ToCollect(false))];
  }

  /**
    So a message can be stored and dead-lettered: those of the first chunk are in the table, and
    failure records of them are accepted.
   */
  lemma StoredAndRecorded(c: Config, w: World, m: Message)
    requires ModeOf(c) == Batch && BatchSize(c) > 91 && forall i: nat | i < 91 :: DecodesAt(c, m, i)
    ensures exists t ::
              Leads(c, Started(c, w), t) && c.idOf(m) in t.world.rows && FailureRecord(m, true) in t.world.failures
  {
    var t := TwoChunksStored(c, w, m);
    t := SecondChunkFails(c, w, t, m);
    assert DecodesAt(c, m, 0) && t.fetched[0] == m;
    t := Then(c, Started(c, w), t, Settle(1, RecordFailure(true)));
  }
}
