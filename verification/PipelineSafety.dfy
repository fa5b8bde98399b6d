/**
  The at-least-once promise over every interleaving: no offset is committed, nor any below it from
  the first registered one on, whose event id is not in the events table and whose message is in no
  failure record. A record that does not decode has no message: of it a failure store has accepted
  a record. PipelineExamples says when an id in the table means that the message's data is there.
 */
module PipelineSafety {
  import opened Committer
  import opened Options
  import opened Pipeline
  import opened PipelineProtocol

  /**
    The message is in a store, as far as its id tells: the table has an event under it, or a failure
    record holds the message.
   */
  ghost predicate Kept(c: Config, w: World, m: Message) {
    c.decodes(m) && (c.idOf(m) in w.rows || FailureRecord(m, true) in w.failures)
  }

  /** The message is in a store, or it does not decode and a failure store accepted a record that says so. */
  ghost predicate Durable(c: Config, w: World, m: Message) {
    Kept(c, w, m) || (!c.decodes(m) && FailureRecord(m, false) in w.failures)
  }

  ghost predicate AllDurable(c: Config, w: World, fetched: seq<Message>, batch: seq<nat>) {
    forall i | i in batch :: i < |fetched| && Durable(c, w, fetched[i])
  }

  /** The committer tracks each partition, and everything it was told is done is durable. */
  ghost predicate PartsSafe(c: Config, w: World) {
    forall p | p in w.parts ::
      && Tracks(w.parts[p].progress, w.parts[p].start, w.parts[p].done)
      && forall o | o in w.parts[p].done :: Durable(c, w, Message(p, o))
  }

  ghost predicate IssuedSafe(w: World) {
    forall m | m in w.issued ::
      m.partition in w.parts && w.parts[m.partition].start <= m.offset < w.parts[m.partition].progress.next
  }

  /** The broker's offsets are those the process started with, or come from a commit of its committer. */
  ghost predicate BrokerSafe(w: World, resumed: map<int, int>) {
    forall p | p in w.broker ::
      (p in resumed && w.broker[p] == resumed[p]) || Message(p, w.broker[p] - 1) in w.issued
  }

  ghost predicate WorldSafe(c: Config, w: World, resumed: map<int, int>) {
    PartsSafe(c, w) && IssuedSafe(w) && BrokerSafe(w, resumed)
  }

  /** What is about to be acked is durable; what is about to be committed was chosen by the committer. */
  ghost predicate Ready(c: Config, w: World, fetched: seq<Message>, pc: Pc) {
    match pc
    case Acking(i, rest, dead, _) => AllDurable(c, w, fetched, [i]) && (!dead ==> AllDurable(c, w, fetched, rest))
    case Committing(commit, rest, dead, _) => commit in w.issued && (!dead ==> AllDurable(c, w, fetched, rest))
    case Reporting(rest, dead, _) => !dead ==> AllDurable(c, w, fetched, rest)
    case _ => true
  }

  ghost predicate Acked(s: State, m: Message) {
    exists i :: i in s.acked && i < |s.fetched| && s.fetched[i] == m
  }

  /** The committer was told of exactly the acked messages. */
  ghost predicate DoneIsAcked(s: State) {
    forall p, o | p in s.world.parts :: o in s.world.parts[p].done <==> Acked(s, Message(p, o))
  }

  ghost predicate Safe(c: Config, s: State, resumed: map<int, int>) {
    && WorldSafe(c, s.world, resumed)
    && (forall i | 0 <= i < |s.fetched| :: s.fetched[i].partition in s.world.parts)
    && (forall a | 0 <= a < |s.pcs| :: Ready(c, s.world, s.fetched, s.pcs[a]))
    && DoneIsAcked(s)
  }

  /** No row is lost or changed. */
  ghost predicate Extends(rows: map<string, string>, more: map<string, string>) {
    forall id | id in rows :: id in more && more[id] == rows[id]
  }

  lemma {:induction false} RowsExtend(c: Config, rows: map<string, string>, fetched: seq<Message>, batch: seq<nat>)
    ensures Extends(rows, WithRows(c, rows, fetched, batch))
    ensures forall i | i in batch && i < |fetched| :: c.idOf(fetched[i]) in WithRows(c, rows, fetched, batch)
  {
    if batch != [] {
      RowsExtend(c, rows, fetched, batch[..|batch| - 1]);
      assert batch == batch[..|batch| - 1] + [batch[|batch| - 1]];
    }
  }

  /** The stores, the partitions and the chosen commits only grow. */
  ghost predicate Grows(w: World, v: World) {
    && Extends(w.rows, v.rows) && w.failures <= v.failures && w.issued <= v.issued && w.parts.Keys <= v.parts.Keys
  }

  lemma ReadyStays(c: Config, w: World, v: World, fetched: seq<Message>, more: seq<Message>, pc: Pc)
    requires Grows(w, v) && Ready(c, w, fetched, pc)
    ensures Ready(c, v, fetched + more, pc)
  {
  }

  lemma RegisterKeepsWorld(c: Config, w: World, m: Message, resumed: map<int, int>)
    requires WorldSafe(c, w, resumed)
    ensures WorldSafe(c, w.(parts := Registered(w.parts, m)), resumed)
  {
  }

  lemma StoresKeepWorld(c: Config, w: World, v: World, resumed: map<int, int>)
    requires WorldSafe(c, w, resumed) && Grows(w, v)
    requires v.parts == w.parts && v.issued == w.issued && v.broker == w.broker
    ensures WorldSafe(c, v, resumed)
  {
  }

  lemma CompleteKeepsWorld(c: Config, w: World, m: Message, resumed: map<int, int>)
    requires WorldSafe(c, w, resumed) && m.partition in w.parts && Durable(c, w, m)
    ensures WorldSafe(c, WithCompleted(w, m), resumed)
  {
    var part := w.parts[m.partition];
    RecordTracks(part.progress, part.start, part.done, m.offset);
    var v := WithCompleted(w, m);
    assert forall p | p in v.parts && p != m.partition :: v.parts[p] == w.parts[p];
    assert forall x | x in v.issued :: x in w.issued || Commits(w.parts, m) == Some(x);
  }

  lemma CommitKeepsWorld(c: Config, w: World, m: Message, resumed: map<int, int>)
    requires WorldSafe(c, w, resumed) && m in w.issued
    ensures WorldSafe(c, w.(broker := w.broker[m.partition := m.offset + 1]), resumed)
  {
    assert Message(m.partition, m.offset + 1 - 1) == m;
  }

  /** A change by which the world stays safe, its stores grow, and the goroutine comes out ready. */
  ghost predicate DeltaSafe(c: Config, s: State, d: Delta, resumed: map<int, int>) {
    && WorldSafe(c, d.world, resumed) && Grows(s.world, d.world)
    && Ready(c, d.world, s.fetched + d.fetching, d.pc)
    && (forall m | m in d.fetching :: m.partition in d.world.parts)
  }

  lemma ApplyKeepsReady(c: Config, s: State, a: nat, d: Delta, resumed: map<int, int>)
    requires Safe(c, s, resumed) && a < |s.pcs| && DeltaSafe(c, s, d, resumed)
    ensures
      var t := Apply(c, s, a, d);
      && WorldSafe(c, t.world, resumed)
      && (forall i | 0 <= i < |t.fetched| :: t.fetched[i].partition in t.world.parts)
      && (forall b | 0 <= b < |t.pcs| :: Ready(c, t.world, t.fetched, t.pcs[b]))
  {
    var t := Apply(c, s, a, d);
    forall b | 0 <= b < |t.pcs|
      ensures Ready(c, t.world, t.fetched, t.pcs[b])
    {
      if b != a { ReadyStays(c, s.world, d.world, s.fetched, d.fetching, s.pcs[b]); }
    }
  }

  // ---- Each kind of step ----

  lemma UpSafe(c: Config, s: State, a: nat, up: UpStep, resumed: map<int, int>)
    requires Safe(c, s, resumed) && UpEnabled(c, s, a, up)
    ensures DeltaSafe(c, s, UpDelta(c, s, a, up), resumed)
  {
    if up.Fetch? { RegisterKeepsWorld(c, s.world, up.m, resumed); }
  }

  lemma NextOfReady(c: Config, w: World, fetched: seq<Message>, rest: seq<nat>, dead: bool, next: Next)
    requires !dead ==> AllDurable(c, w, fetched, rest)
    ensures Ready(c, w, fetched, NextOf(rest, dead, next)) && Ready(c, w, fetched, Return(next))
  {
    if rest != [] {
      assert rest[0] in rest && forall i | i in rest[1..] :: i in rest;
    }
  }

  lemma GatherSafe(c: Config, s: State, a: nat, gather: GatherStep, resumed: map<int, int>)
    requires Safe(c, s, resumed) && GatherEnabled(s, a, gather)
    ensures DeltaSafe(c, s, GatherDelta(c, s, a, gather), resumed)
  {
  }

  /** A store attempt keeps every row, and a successful one leaves a row under each of its ids. */
  lemma StoreExtends(c: Config, s: State, a: nat, store: StoreStep)
    requires StoreEnabled(s, a, store)
    ensures Extends(s.world.rows, StoreDelta(c, s, a, store).world.rows)
    ensures store.StoreOk? ==> forall i | i in s.pcs[a].batch && i < |s.fetched| ::
              c.idOf(s.fetched[i]) in StoreDelta(c, s, a, store).world.rows
  {
    var batch := s.pcs[a].batch;
    RowsExtend(c, s.world.rows, s.fetched, batch);
    if store.StoreTransient? || store.StoreTerminal? { RowsExtend(c, s.world.rows, s.fetched, batch[..store.n]); }
  }

  lemma StoreSafe(c: Config, s: State, a: nat, store: StoreStep, resumed: map<int, int>)
    requires Conserved(s) && PassedDecode(c, s) && Safe(c, s, resumed) && StoreEnabled(s, a, store)
    ensures DeltaSafe(c, s, StoreDelta(c, s, a, store), resumed)
  {
    var Storing(batch, _, next) := s.pcs[a];
    var d := StoreDelta(c, s, a, store);
    StoreExtends(c, s, a, store);
    StoresKeepWorld(c, s.world, d.world, resumed);
    assert s.fetched + d.fetching == s.fetched;
    if store.StoreOk? {
      forall i | i in batch
        ensures i < |s.fetched| && Durable(c, d.world, s.fetched[i])
      {
        assert AllDecode(c, s.fetched, Passed(s.pcs[a]));
      }
    }
    NextOfReady(c, d.world, s.fetched, batch, !store.StoreOk?, next);
  }

  lemma CompleteSafe(c: Config, s: State, a: nat, resumed: map<int, int>)
    requires Safe(c, s, resumed) && SettleEnabled(s, a, CompleteAck)
    ensures DeltaSafe(c, s, SettleDelta(c, s, a, CompleteAck), resumed)
  {
    var pc, w, d := s.pcs[a], s.world, SettleDelta(c, s, a, CompleteAck);
    assert Ready(c, w, s.fetched, pc);
    assert s.fetched + d.fetching == s.fetched;
    CompleteKeepsWorld(c, w, s.fetched[pc.i], resumed);
    NextOfReady(c, d.world, s.fetched, pc.rest, pc.dead, pc.next);
  }

  lemma CommitSafe(c: Config, s: State, a: nat, ok: bool, landed: bool, expired: bool, resumed: map<int, int>)
    requires Safe(c, s, resumed) && SettleEnabled(s, a, CommitReply(ok, landed, expired))
    ensures DeltaSafe(c, s, SettleDelta(c, s, a, CommitReply(ok, landed, expired)), resumed)
  {
    var pc, w, d := s.pcs[a], s.world, SettleDelta(c, s, a, CommitReply(ok, landed, expired));
    assert Ready(c, w, s.fetched, pc);
    assert s.fetched + d.fetching == s.fetched;
    NextOfReady(c, w, s.fetched, pc.rest, pc.dead, pc.next);
    if ok || landed {
      CommitKeepsWorld(c, w, pc.commit, resumed);
      SameStoresSameReady(c, w, d.world, s.fetched, d.pc);
    }
  }

  lemma SameStoresSameReady(c: Config, w: World, v: World, fetched: seq<Message>, pc: Pc)
    requires Ready(c, w, fetched, pc) && w.rows == v.rows && w.failures == v.failures && w.issued == v.issued
    ensures Ready(c, v, fetched, pc)
  {
    assert forall m :: Durable(c, w, m) <==> Durable(c, v, m);
  }

  lemma SettleSafe(c: Config, s: State, a: nat, settle: SettleStep, resumed: map<int, int>)
    requires Safe(c, s, resumed) && SettleEnabled(s, a, settle)
    ensures DeltaSafe(c, s, SettleDelta(c, s, a, settle), resumed)
  {
    var pc, w, d := s.pcs[a], s.world, SettleDelta(c, s, a, settle);
    match settle
    case CompleteAck => CompleteSafe(c, s, a, resumed);
    case CommitReply(ok, landed, expired) => CommitSafe(c, s, a, ok, landed, expired, resumed);
    case RecordFailure(ok) =>
      assert s.fetched + d.fetching == s.fetched;
      if ok { StoresKeepWorld(c, w, d.world, resumed); } else { NextOfReady(c, w, s.fetched, pc.rest, true, pc.next); }
    case Report =>
      assert Ready(c, w, s.fetched, pc) && s.fetched + d.fetching == s.fetched;
      NextOfReady(c, w, s.fetched, pc.rest, pc.dead, pc.next);
  }

  /** Where nothing is acked, a registration at most changes the partitions. */
  lemma QuietKeepsDone(c: Config, s: State, a: nat, d: Delta)
    requires Conserved(s) && DoneIsAcked(s) && a < |s.pcs| && d.acks == []
    requires forall i | 0 <= i < |s.fetched| :: s.fetched[i].partition in s.world.parts
    requires d.world.parts == s.world.parts || exists m :: d.world.parts == Registered(s.world.parts, m)
    ensures DoneIsAcked(Apply(c, s, a, d))
  {
    var t := Apply(c, s, a, d);
    forall m: Message
      ensures Acked(t, m) <==> Acked(s, m)
    {
      assert t.acked == s.acked;
      forall i | i in s.acked
        ensures i < |s.fetched|
      {
        AckedOnce(s, i);
      }
    }
    forall p, o | p in t.world.parts
      ensures o in t.world.parts[p].done <==> Acked(t, Message(p, o))
    {
      if p in s.world.parts {
        assert t.world.parts[p] == s.world.parts[p];
      } else {
        assert t.world.parts[p].done == {} && !Acked(s, Message(p, o));
      }
    }
  }

  lemma CompleteKeepsDone(c: Config, s: State, a: nat)
    requires DoneIsAcked(s) && SettleEnabled(s, a, CompleteAck)
    ensures DoneIsAcked(Apply(c, s, a, SettleDelta(c, s, a, CompleteAck)))
  {
    var t, i := Apply(c, s, a, SettleDelta(c, s, a, CompleteAck)), s.pcs[a].i;
    forall p, o | p in t.world.parts
      ensures o in t.world.parts[p].done <==> Acked(t, Message(p, o))
    {
      assert o in t.world.parts[p].done <==> o in s.world.parts[p].done || Message(p, o) == s.fetched[i];
      assert t.fetched == s.fetched && t.acked == s.acked + [i];
      if Acked(s, Message(p, o)) {
        var k :| k in s.acked && k < |s.fetched| && s.fetched[k] == Message(p, o);
        assert k in t.acked;
      }
      if Message(p, o) == s.fetched[i] { assert i in t.acked; }
    }
  }

  lemma ApplyKeepsSafe(c: Config, s: State, a: nat, d: Delta, resumed: map<int, int>)
    requires Conserved(s) && Safe(c, s, resumed) && a < |s.pcs| && DeltaSafe(c, s, d, resumed) && d.acks == []
    requires d.world.parts == s.world.parts || exists m :: d.world.parts == Registered(s.world.parts, m)
    ensures Safe(c, Apply(c, s, a, d), resumed)
  {
    ApplyKeepsReady(c, s, a, d, resumed);
    QuietKeepsDone(c, s, a, d);
  }

  lemma SettleKeepsSafe(c: Config, s: State, a: nat, settle: SettleStep, resumed: map<int, int>)
    requires Conserved(s) && Safe(c, s, resumed) && SettleEnabled(s, a, settle)
    ensures Safe(c, Apply(c, s, a, SettleDelta(c, s, a, settle)), resumed)
  {
    var d := SettleDelta(c, s, a, settle);
    SettleSafe(c, s, a, settle, resumed);
    if settle.CompleteAck? {
      ApplyKeepsReady(c, s, a, d, resumed);
      CompleteKeepsDone(c, s, a);
    } else {
      ApplyKeepsSafe(c, s, a, d, resumed);
    }
  }

  lemma StepKeepsSafe(c: Config, s: State, step: Step, resumed: map<int, int>)
    requires Conserved(s) && PassedDecode(c, s) && Safe(c, s, resumed) && Enabled(c, s, step)
    ensures Safe(c, Do(c, s, step), resumed)
  {
    match step
    case Cancel =>
      assert forall m :: Acked(Do(c, s, step), m) <==> Acked(s, m);
    case Up(a, up) =>
      UpSafe(c, s, a, up, resumed);
      ApplyKeepsSafe(c, s, a, UpDelta(c, s, a, up), resumed);
    case Gather(a, gather) =>
      GatherSafe(c, s, a, gather, resumed);
      ApplyKeepsSafe(c, s, a, GatherDelta(c, s, a, gather), resumed);
    case Store(a, store) =>
      StoreSafe(c, s, a, store, resumed);
      ApplyKeepsSafe(c, s, a, StoreDelta(c, s, a, store), resumed);
    case Settle(a, settle) =>
      SettleKeepsSafe(c, s, a, settle, resumed);
  }

  lemma InitSafe(c: Config, rows: map<string, string>, failures: set<FailureRecord>, broker: map<int, int>)
    ensures Safe(c, Init(c, rows, failures, broker), broker)
  {
  }

  /** Wherever a watermark stands, the commit that reaches it has been chosen. */
  ghost predicate Reaches(w: World, p: int) {
    p in w.parts && w.parts[p].progress.next > w.parts[p].start ==> Message(p, w.parts[p].progress.next - 1) in w.issued
  }

  lemma CompleteKeepsReaching(w: World, m: Message, p: int)
    requires m.partition in w.parts && Reaches(w, p)
    requires p in w.parts ==> Tracks(w.parts[p].progress, w.parts[p].start, w.parts[p].done)
    ensures Reaches(WithCompleted(w, m), p)
  {
    if m.partition == p { RecordTracks(w.parts[p].progress, w.parts[p].start, w.parts[p].done, m.offset); }
  }

  lemma IssuedGrows(c: Config, s: State, step: Step)
    requires Enabled(c, s, step)
    ensures s.world.issued <= Do(c, s, step).world.issued
    ensures step.Settle? && step.settle.CompleteAck? ==>
              Do(c, s, step).world == WithCompleted(s.world, s.fetched[s.pcs[step.a].i])
  {
  }

  lemma StepKeepsReaching(c: Config, s: State, step: Step, p: int)
    requires Enabled(c, s, step) && Reaches(s.world, p)
    requires p in s.world.parts ==> Tracks(s.world.parts[p].progress, s.world.parts[p].start, s.world.parts[p].done)
    ensures Reaches(Do(c, s, step).world, p)
  {
    PartsOfStep(c, s, step);
    IssuedGrows(c, s, step);
    if step.Settle? && step.settle.CompleteAck? {
      CompleteKeepsReaching(s.world, s.fetched[s.pcs[step.a].i], p);
    }
  }

  // ---- Whole runs ----

  ghost predicate Invariant(c: Config, s: State, resumed: map<int, int>) {
    && Protocol(c, s) && Conserved(s) && PassedDecode(c, s) && Safe(c, s, resumed)
    && forall p :: Reaches(s.world, p)
  }

  lemma StepKeepsInvariant(c: Config, s: State, step: Step, resumed: map<int, int>)
    requires Invariant(c, s, resumed) && Enabled(c, s, step)
    ensures Invariant(c, Do(c, s, step), resumed)
  {
    StepKeepsProtocol(c, s, step);
    StepKeepsConserved(c, s, step);
    StepKeepsDecoding(c, s, step);
    StepKeepsSafe(c, s, step, resumed);
    forall p { StepKeepsReaching(c, s, step, p); }
  }

  lemma {:induction false} RunKeepsInvariant(c: Config, s: State, steps: seq<Step>, resumed: map<int, int>)
    requires Invariant(c, s, resumed) && CanRun(c, s, steps)
    ensures Invariant(c, After(c, s, steps), resumed)
    decreases steps
  {
    if steps != [] {
      StepKeepsInvariant(c, s, steps[0], resumed);
      RunKeepsInvariant(c, Do(c, s, steps[0]), steps[1..], resumed);
    }
  }

  /** The whole invariant holds over every interleaving of every mode. */
  lemma EveryRun(
      c: Config, rows: map<string, string>, failures: set<FailureRecord>, broker: map<int, int>, steps: seq<Step>)
    requires CanRun(c, Init(c, rows, failures, broker), steps)
    ensures Invariant(c, After(c, Init(c, rows, failures, broker), steps), broker)
  {
    InitProtocol(c, rows, failures, broker);
    InitConserved(c, rows, failures, broker);
    InitDecodes(c, rows, failures, broker);
    InitSafe(c, rows, failures, broker);
    RunKeepsInvariant(c, Init(c, rows, failures, broker), steps, broker);
  }

  /**
    At least once: whatever is chosen for a commit, or committed at the broker beyond the offsets
    the process started with, each offset from the partition's first registered one up to it is durable.
   */
  lemma AtLeastOnce(
      c: Config, rows: map<string, string>, failures: set<FailureRecord>, broker: map<int, int>,
      steps: seq<Step>, p: int, o: int)
    requires CanRun(c, Init(c, rows, failures, broker), steps)
    requires
      var w := After(c, Init(c, rows, failures, broker), steps).world;
      p in w.parts && w.parts[p].start <= o &&
      ((exists m :: m in w.issued && m.partition == p && o <= m.offset)
       || (p in w.broker && o < w.broker[p] && (p in broker ==> w.broker[p] != broker[p])))
    ensures
      var w := After(c, Init(c, rows, failures, broker), steps).world;
      Durable(c, w, Message(p, o)) && (Kept(c, w, Message(p, o)) <==> c.decodes(Message(p, o)))
  {
    EveryRun(c, rows, failures, broker, steps);
    var w := After(c, Init(c, rows, failures, broker), steps).world;
    assert o in w.parts[p].done;
  }

  /** No commit at or above g has been chosen, and none has moved the broker beyond g. */
  ghost predicate HeldBack(w: World, resumed: map<int, int>, g: Message) {
    && (forall m | m in w.issued && m.partition == g.partition :: m.offset < g.offset)
    && (g.partition in w.broker ==>
          || (g.partition in resumed && w.broker[g.partition] == resumed[g.partition])
          || w.broker[g.partition] <= g.offset)
  }

  lemma GapHolds(c: Config, s: State, resumed: map<int, int>, g: Message)
    requires Safe(c, s, resumed) && g.partition in s.world.parts
    requires s.world.parts[g.partition].start <= g.offset && !Acked(s, g)
    ensures HeldBack(s.world, resumed, g)
  {
    assert g.offset !in s.world.parts[g.partition].done;
  }

  /**
    A gap blocks: while offset g of a registered partition has not been acked - rejected without a
    failure record, given up, or still on its way - no commit at or above g is chosen, and the broker
    is not moved beyond g.
   */
  lemma UnackedGapBlocks(
      c: Config, rows: map<string, string>, failures: set<FailureRecord>, broker: map<int, int>,
      steps: seq<Step>, g: Message)
    requires CanRun(c, Init(c, rows, failures, broker), steps)
    requires
      var s := After(c, Init(c, rows, failures, broker), steps);
      g.partition in s.world.parts && s.world.parts[g.partition].start <= g.offset && !Acked(s, g)
    ensures HeldBack(After(c, Init(c, rows, failures, broker), steps).world, broker, g)
  {
    EveryRun(c, rows, failures, broker, steps);
    GapHolds(c, After(c, Init(c, rows, failures, broker), steps), broker, g);
  }

  /**
    No ack or failure record looks up a delivery or a partition that is not there: the committer
    never misses an entry.
   */
  lemma SettlingNeverStuck(c: Config, s: State, a: nat, resumed: map<int, int>)
    requires Invariant(c, s, resumed) && a < |s.pcs|
    ensures s.pcs[a].Acking? ==> SettleEnabled(s, a, CompleteAck)
    ensures s.pcs[a].DeadLetter? ==> forall ok :: SettleEnabled(s, a, RecordFailure(ok))
  {
    var pc := s.pcs[a];
    if pc.Acking? || pc.DeadLetter? {
      assert pc.i in Held(pc);
      HeldIsFetched(s, a, pc.i);
    }
  }

  // ---- Progress ----

  lemma {:induction false} LogOnlyGrows(c: Config, s: State, steps: seq<Step>)
    requires CanRun(c, s, steps)
    ensures s.fetched <= After(c, s, steps).fetched && s.dropped <= After(c, s, steps).dropped
    ensures s.world.parts.Keys <= After(c, s, steps).world.parts.Keys
    decreases steps
  {
    if steps != [] { LogOnlyGrows(c, Do(c, s, steps[0]), steps[1..]); }
  }

  /**
    A delivery that is given up stays unacked: as long as its message is not fetched again, every
    commit at or above it is held back, in every continuation.
   */
  lemma GivenUpBlocks(c: Config, s: State, resumed: map<int, int>, i: nat, more: seq<Step>)
    requires Invariant(c, s, resumed) && i in s.dropped && CanRun(c, s, more)
    requires
      var t := After(c, s, more);
      && i < |s.fetched| <= |t.fetched|
      && (forall j | 0 <= j < |t.fetched| && t.fetched[j] == s.fetched[i] :: j == i)
      && s.fetched[i].partition in t.world.parts
      && t.world.parts[s.fetched[i].partition].start <= s.fetched[i].offset
    ensures HeldBack(After(c, s, more).world, resumed, s.fetched[i])
  {
    var t, m := After(c, s, more), s.fetched[i];
    RunKeepsInvariant(c, s, more, resumed);
    LogOnlyGrows(c, s, more);
    var k :| 0 <= k < |s.dropped| && s.dropped[k] == i;
    assert t.dropped[k] == i;
    if Acked(t, m) { AckedOnce(t, i); }
    GapHolds(c, t, resumed, m);
  }

  /** The delivery has been dealt with, and was not given up. */
  ghost predicate Settled(s: State, i: nat) {
    HeldByAll(s.pcs, i) == 0 && i !in s.deliveryCh && i !in s.eventCh && i !in s.dropped
  }

  /** No delivery of partition p is under way or was given up. */
  ghost predicate AllSettled(s: State, p: int) {
    forall i: nat | i < |s.fetched| && s.fetched[i].partition == p :: Settled(s, i)
  }

  lemma SettledIsAcked(s: State, i: nat)
    requires Conserved(s) && i < |s.fetched| && Settled(s, i)
    ensures i in s.acked
  {
    assert Places(s, i) == 1;
    CountIn(s.deliveryCh, i);
    CountIn(s.eventCh, i);
    CountIn(s.dropped, i);
    CountIn(s.acked, i);
  }

  /** The partition's fetched offsets run from its first registered one up to `end`, without a hole. */
  ghost predicate FetchedUpTo(s: State, p: int, end: int) {
    && p in s.world.parts && s.world.parts[p].start < end && Message(p, end) !in s.fetched
    && (forall o | s.world.parts[p].start <= o < end :: Message(p, o) in s.fetched)
  }

  lemma AckedUpTo(s: State, p: int, o: int)
    requires Conserved(s) && DoneIsAcked(s) && AllSettled(s, p)
    requires p in s.world.parts && Message(p, o) in s.fetched
    ensures o in s.world.parts[p].done
  {
    var i :| 0 <= i < |s.fetched| && s.fetched[i] == Message(p, o);
    assert Settled(s, i);
    SettledIsAcked(s, i);
    assert Acked(s, Message(p, o));
  }

  /**
    The commits catch up: after any run, a partition of which nothing was given up and nothing is
    under way, and that was fetched without a hole up to `end`, has its watermark there, and the
    commit that takes the broker there has been chosen.
   */
  lemma CommitsCatchUp(
      c: Config, rows: map<string, string>, failures: set<FailureRecord>, broker: map<int, int>,
      steps: seq<Step>, p: int, end: int)
    requires CanRun(c, Init(c, rows, failures, broker), steps)
    requires
      var s := After(c, Init(c, rows, failures, broker), steps);
      AllSettled(s, p) && FetchedUpTo(s, p, end)
    ensures
      var w := After(c, Init(c, rows, failures, broker), steps).world;
      w.parts[p].progress.next == end && Message(p, end - 1) in w.issued
  {
    EveryRun(c, rows, failures, broker, steps);
    CaughtUp(c, After(c, Init(c, rows, failures, broker), steps), broker, p, end);
  }

  lemma CaughtUp(c: Config, s: State, resumed: map<int, int>, p: int, end: int)
    requires Conserved(s) && Safe(c, s, resumed) && Reaches(s.world, p)
    requires AllSettled(s, p) && FetchedUpTo(s, p, end)
    ensures s.world.parts[p].progress.next == end && Message(p, end - 1) in s.world.issued
  {
    var part := s.world.parts[p];
    forall o | part.start <= o < end { AckedUpTo(s, p, o); }
    assert !Acked(s, Message(p, end));
    WatermarkUnique(part.start, part.done, part.progress.next, end);
  }

  // ---- Restarts ----

  /** Where a reader of the group starts on partition p: at the committed offset, else at the start of the log. */
  function Position(resumed: map<int, int>, logStart: map<int, int>, p: int): int
    requires p in resumed || p in logStart
  {
    if p in resumed then resumed[p] else logStart[p]
  }

  /** The first fetch of a partition in a session is at or below the reader's position: nothing is skipped. */
  predicate Resumes(s: State, step: Step, resumed: map<int, int>, logStart: map<int, int>) {
    step.Up? && step.up.Fetch? && step.up.m.partition !in s.world.parts ==>
      step.up.m.partition in logStart && step.up.m.offset <= Position(resumed, logStart, step.up.m.partition)
  }

  predicate AllResume(c: Config, s: State, steps: seq<Step>, resumed: map<int, int>, logStart: map<int, int>)
    requires CanRun(c, s, steps)
    decreases steps
  {
    steps == [] ||
    (Resumes(s, steps[0], resumed, logStart) && AllResume(c, Do(c, s, steps[0]), steps[1..], resumed, logStart))
  }

  /** Each partition was registered no higher than the reader's position. */
  ghost predicate StartsCovered(w: World, resumed: map<int, int>, logStart: map<int, int>) {
    forall p | p in w.parts :: p in logStart && w.parts[p].start <= Position(resumed, logStart, p)
  }

  /** Only a fetch and an ack change the committer's partitions. */
  lemma PartsOfStep(c: Config, s: State, step: Step)
    requires Enabled(c, s, step)
    ensures
      var parts := Do(c, s, step).world.parts;
      if step.Up? && step.up.Fetch? then parts == Registered(s.world.parts, step.up.m)
      else if step.Settle? && step.settle.CompleteAck? then
        parts == WithCompleted(s.world, s.fetched[s.pcs[step.a].i]).parts
      else parts == s.world.parts
  {
  }

  lemma StepKeepsStarts(c: Config, s: State, step: Step, resumed: map<int, int>, logStart: map<int, int>)
    requires Enabled(c, s, step) && Resumes(s, step, resumed, logStart) && StartsCovered(s.world, resumed, logStart)
    ensures StartsCovered(Do(c, s, step).world, resumed, logStart)
  {
    PartsOfStep(c, s, step);
  }

  lemma {:induction false} RunKeepsStarts(
      c: Config, s: State, steps: seq<Step>, resumed: map<int, int>, logStart: map<int, int>)
    requires CanRun(c, s, steps) && AllResume(c, s, steps, resumed, logStart)
    requires StartsCovered(s.world, resumed, logStart)
    ensures StartsCovered(After(c, s, steps).world, resumed, logStart)
    decreases steps
  {
    if steps != [] {
      StepKeepsStarts(c, s, steps[0], resumed, logStart);
      RunKeepsStarts(c, Do(c, s, steps[0]), steps[1..], resumed, logStart);
    }
  }

  /** Nothing below a committed offset is lost: from the start of the log on, all of it is durable. */
  ghost predicate Lossless(c: Config, w: World, logStart: map<int, int>) {
    forall p, o | p in w.broker && p in logStart && logStart[p] <= o < w.broker[p] :: Durable(c, w, Message(p, o))
  }

  /** The stores only gain. */
  lemma {:induction false} StoresGrow(c: Config, s: State, steps: seq<Step>)
    requires CanRun(c, s, steps)
    ensures Extends(s.world.rows, After(c, s, steps).world.rows)
    ensures s.world.failures <= After(c, s, steps).world.failures
    decreases steps
  {
    if steps != [] {
      StepGrowsStores(c, s, steps[0]);
      StoresGrow(c, Do(c, s, steps[0]), steps[1..]);
    }
  }

  lemma StepGrowsStores(c: Config, s: State, step: Step)
    requires Enabled(c, s, step)
    ensures Extends(s.world.rows, Do(c, s, step).world.rows) && s.world.failures <= Do(c, s, step).world.failures
  {
    if step.Store? { StoreExtends(c, s, step.a, step.store); }
  }

  /**
    A life of the process under some configuration: a run that ends anywhere, by a crash or a
    stop, and the offsets the broker then settles at, as commits still under way may arrive late.
   */
  datatype Session = Session(numWorkers: int, batchSize: int, steps: seq<Step>, settled: map<int, int>)

  /** The log stays the same over the sessions: `base` says what is in it. */
  function ConfigOf(base: Config, x: Session): Config {
    base.(numWorkers := x.numWorkers, batchSize := x.batchSize)
  }

  predicate Settles(w: World, settled: map<int, int>) {
    forall p | p in settled :: (p in w.broker && settled[p] == w.broker[p]) || Message(p, settled[p] - 1) in w.issued
  }

  predicate CanLive(base: Config, w: World, x: Session, logStart: map<int, int>) {
    var c := ConfigOf(base, x);
    var s := Init(c, w.rows, w.failures, w.broker);
    && CanRun(c, s, x.steps) && AllResume(c, s, x.steps, w.broker, logStart)
    && Settles(After(c, s, x.steps).world, x.settled)
  }

  function Live(base: Config, w: World, x: Session, logStart: map<int, int>): World
    requires CanLive(base, w, x, logStart)
  {
    var c := ConfigOf(base, x);
    After(c, Init(c, w.rows, w.failures, w.broker), x.steps).world.(broker := x.settled)
  }

  lemma IssuedIsDurable(c: Config, w: World, m: Message, o: int)
    requires PartsSafe(c, w) && IssuedSafe(w) && m in w.issued && w.parts[m.partition].start <= o <= m.offset
    ensures Durable(c, w, Message(m.partition, o))
  {
    assert o in w.parts[m.partition].done;
  }

  /** An offset between the reader's position and a chosen commit is durable. */
  lemma BeyondPosition(c: Config, v: World, m: Message, o: int, resumed: map<int, int>, logStart: map<int, int>)
    requires PartsSafe(c, v) && IssuedSafe(v) && StartsCovered(v, resumed, logStart) && m in v.issued
    requires m.partition in logStart && Position(resumed, logStart, m.partition) <= o <= m.offset
    ensures Durable(c, v, Message(m.partition, o))
  {
    assert v.parts[m.partition].start <= Position(resumed, logStart, m.partition);
    IssuedIsDurable(c, v, m, o);
  }

  lemma SettledIssued(v: World, settled: map<int, int>, resumed: map<int, int>, p: int)
    requires BrokerSafe(v, resumed) && Settles(v, settled) && p in settled
    ensures (p in resumed && settled[p] == resumed[p]) || Message(p, settled[p] - 1) in v.issued
  {
  }

  lemma SettledDurable(c: Config, w: World, v: World, settled: map<int, int>, logStart: map<int, int>, p: int, o: int)
    requires Lossless(c, w, logStart) && WorldSafe(c, v, w.broker) && StartsCovered(v, w.broker, logStart)
    requires Extends(w.rows, v.rows) && w.failures <= v.failures && Settles(v, settled)
    requires p in settled && p in logStart && logStart[p] <= o < settled[p]
    ensures Durable(c, v, Message(p, o))
  {
    if p in w.broker && o < w.broker[p] {
      assert Durable(c, w, Message(p, o));
    } else {
      SettledIssued(v, settled, w.broker, p);
      BeyondPosition(c, v, Message(p, settled[p] - 1), o, w.broker, logStart);
    }
  }

  lemma SessionLossless(base: Config, w: World, x: Session, logStart: map<int, int>)
    requires CanLive(base, w, x, logStart) && Lossless(ConfigOf(base, x), w, logStart)
    ensures Lossless(ConfigOf(base, x), Live(base, w, x, logStart), logStart)
  {
    var c := ConfigOf(base, x);
    var s := Init(c, w.rows, w.failures, w.broker);
    EveryRun(c, w.rows, w.failures, w.broker, x.steps);
    RunKeepsStarts(c, s, x.steps, w.broker, logStart);
    StoresGrow(c, s, x.steps);
    var v := After(c, s, x.steps).world;
    forall p, o | p in x.settled && p in logStart && logStart[p] <= o < x.settled[p] {
      SettledDurable(c, w, v, x.settled, logStart, p, o);
    }
  }

  predicate CanLiveAll(base: Config, w: World, xs: seq<Session>, logStart: map<int, int>)
    decreases xs
  {
    xs == [] ||
    (CanLive(base, w, xs[0], logStart) && CanLiveAll(base, Live(base, w, xs[0], logStart), xs[1..], logStart))
  }

  function LiveAll(base: Config, w: World, xs: seq<Session>, logStart: map<int, int>): World
    requires CanLiveAll(base, w, xs, logStart)
    decreases xs
  {
    if xs == [] then w else LiveAll(base, Live(base, w, xs[0], logStart), xs[1..], logStart)
  }

  /**
    Over any number of crashes and restarts, with any numbers of workers and batch sizes, commits
    arriving late and in any order: every message from the start of the log up to the committed
    offset is in a store, and where there is none since the record does not decode, a record of that.
   */
  lemma {:induction false} LosslessOverRestarts(base: Config, w: World, xs: seq<Session>, logStart: map<int, int>)
    requires CanLiveAll(base, w, xs, logStart) && Lossless(base, w, logStart)
    ensures
      var v := LiveAll(base, w, xs, logStart);
      && Lossless(base, v, logStart)
      && forall p, o | p in v.broker && p in logStart && logStart[p] <= o < v.broker[p] ::
           Kept(base, v, Message(p, o)) <==> base.decodes(Message(p, o))
    decreases xs
  {
    if xs == [] {
      assert forall p, o | p in w.broker && p in logStart && logStart[p] <= o < w.broker[p] ::
          Durable(base, w, Message(p, o));
    } else {
      var c := ConfigOf(base, xs[0]);
      SameLog(base, c, w, logStart);
      SessionLossless(base, w, xs[0], logStart);
      var v := Live(base, w, xs[0], logStart);
      SameLog(base, c, v, logStart);
      LosslessOverRestarts(base, v, xs[1..], logStart);
    }
  }

  lemma SameLog(c: Config, d: Config, w: World, logStart: map<int, int>)
    requires c.idOf == d.idOf && c.decodes == d.decodes
    ensures Lossless(c, w, logStart) <==> Lossless(d, w, logStart)
  {
    assert forall m :: Durable(c, w, m) <==> Durable(d, w, m);
  }
}
