/**
  What has become of each delivery and why, told by the steps of the run: which deliveries were
  rejected for good, which were given up, and which were stored or recorded before they were acked.
 */
module PipelineHistory {
  import opened Committer
  import opened Options
  import opened Pipeline
  import opened PipelineProtocol
  import opened PipelineSafety

  /** What a step can mean for a delivery. */
  datatype Mark = Rejected | GivenUp | Secured | Refused

  /**
    Rejected for good: at the poll, by the transformer, or by a store whose context is live.
    Given up while the pipeline is live: a transient rejection by the transformer, the third failed
    attempt of its batch, or a failure record that no store accepts.
    Secured: its batch stored without an error, or its failure record accepted. Refused: its failure
    record not accepted.
   */
  predicate Marks(s: State, step: Step, mark: Mark, i: nat) {
    match mark
    case Rejected =>
      || (step.Up? && step.up.Fetch? && !step.up.good && i == |s.fetched|)
      || (step.Up? && step.a < |s.pcs| && step.up == TransformError(true) && s.pcs[step.a] == Transforming(i))
      || (step.Store? && step.a < |s.pcs| && step.store.StoreTerminal? && !step.store.expired
          && s.pcs[step.a].Storing? && i in s.pcs[step.a].batch)
    case GivenUp =>
      || (step.Up? && step.a < |s.pcs| && step.up == TransformError(false) && s.pcs[step.a] == Transforming(i))
      || (step.Store? && step.a < |s.pcs| && step.store.StoreTransient?
          && s.pcs[step.a].Storing? && s.pcs[step.a].attempt == 2 && i in s.pcs[step.a].batch)
      || (step.Settle? && step.a < |s.pcs| && step.settle == RecordFailure(false)
          && s.pcs[step.a].DeadLetter? && s.pcs[step.a].i == i)
    case Refused =>
      step.Settle? && step.a < |s.pcs| && step.settle == RecordFailure(false)
      && s.pcs[step.a].DeadLetter? && s.pcs[step.a].i == i
    case Secured =>
      || (step.Store? && step.a < |s.pcs| && step.store.StoreOk? && s.pcs[step.a].Storing? && i in s.pcs[step.a].batch)
      || (step.Settle? && step.a < |s.pcs| && step.settle == RecordFailure(true)
          && s.pcs[step.a].DeadLetter? && s.pcs[step.a].i == i)
  }

  /** Some step of the run means that for delivery i. */
  predicate Along(c: Config, s: State, steps: seq<Step>, mark: Mark, i: nat)
    requires CanRun(c, s, steps)
    decreases steps
  {
    steps != [] && (Marks(s, steps[0], mark, i) || Along(c, Do(c, s, steps[0]), steps[1..], mark, i))
  }

  // ---- What holds of a state, given the marks so far ----

  /** The deliveries that this goroutine is dead-lettering, or has recorded and not acked yet. */
  function Dead(pc: Pc): seq<nat> {
    match pc
    case DeadLetter(i, rest, _) => [i] + rest
    case Acking(i, rest, true, _) => [i] + rest
    case Committing(_, rest, true, _) => rest
    case Reporting(rest, true, _) => rest
    case _ => []
  }

  /** The deliveries that this goroutine is going to ack. */
  function ToAck(pc: Pc): seq<nat> {
    match pc
    case Acking(i, rest, dead, _) => if dead then [i] else [i] + rest
    case Committing(_, rest, false, _) => rest
    case Reporting(rest, false, _) => rest
    case _ => []
  }

  ghost predicate AllIn(batch: seq<nat>, marked: iset<nat>) {
    forall i | i in batch :: i in marked
  }

  /** Who is dead-lettered was rejected, and so was who has a new failure record; who is acked was secured. */
  ghost predicate Explained(s: State, failures: set<FailureRecord>, rejected: iset<nat>, secured: iset<nat>) {
    && (forall a | 0 <= a < |s.pcs| :: AllIn(Dead(s.pcs[a]), rejected) && AllIn(ToAck(s.pcs[a]), secured))
    && AllIn(s.acked, secured)
    && (forall r | r in s.world.failures :: r in failures || RecordOf(s, r, rejected))
  }

  ghost predicate RecordOf(s: State, r: FailureRecord, rejected: iset<nat>) {
    exists i :: i in rejected && i < |s.fetched| && s.fetched[i] == r.m
  }

  ghost function With(marked: iset<nat>, s: State, step: Step, mark: Mark): iset<nat> {
    marked + iset i: nat | Marks(s, step, mark, i)
  }

  ghost predicate DeltaExplained(
    s: State, d: Delta, failures: set<FailureRecord>, rejected: iset<nat>, secured: iset<nat>)
  {
    && AllIn(Dead(d.pc), rejected) && AllIn(ToAck(d.pc), secured) && AllIn(d.acks, secured)
    && (forall r | r in d.world.failures :: r in failures || RecordOf(s, r, rejected))
  }

  lemma NextOfExplained(rest: seq<nat>, dead: bool, next: Next)
    ensures Dead(NextOf(rest, dead, next)) == (if dead then rest else []) && Dead(Return(next)) == []
    ensures ToAck(NextOf(rest, dead, next)) == (if dead then [] else rest) && ToAck(Return(next)) == []
    ensures Dead(Flush(rest, next)) == [] && ToAck(Flush(rest, next)) == []
  {
    if rest != [] { assert [rest[0]] + rest[1..] == rest; }
  }

  lemma MoreExplains(s: State, r: FailureRecord, rejected: iset<nat>, more: iset<nat>)
    requires RecordOf(s, r, rejected) && rejected <= more
    ensures RecordOf(s, r, more)
  {
  }

  lemma UpExplained(
      c: Config, s: State, a: nat, up: UpStep, failures: set<FailureRecord>, rejected: iset<nat>, secured: iset<nat>)
    requires Explained(s, failures, rejected, secured) && UpEnabled(c, s, a, up)
    ensures DeltaExplained(s, UpDelta(c, s, a, up), failures, With(rejected, s, Up(a, up), Rejected),
                           With(secured, s, Up(a, up), Secured))
  {
    var d := UpDelta(c, s, a, up);
    assert d.world.failures == s.world.failures && d.acks == [] && ToAck(d.pc) == [];
    assert AllIn(Dead(d.pc), With(rejected, s, Up(a, up), Rejected));
    forall r | r in s.world.failures && r !in failures {
      MoreExplains(s, r, rejected, With(rejected, s, Up(a, up), Rejected));
    }
  }

  lemma GatherExplained(
      c: Config, s: State, a: nat, g: GatherStep, failures: set<FailureRecord>, rejected: iset<nat>, secured: iset<nat>)
    requires Explained(s, failures, rejected, secured) && GatherEnabled(s, a, g)
    ensures DeltaExplained(s, GatherDelta(c, s, a, g), failures, rejected, secured)
  {
    var pc := s.pcs[a];
    if g.Take? {
      NextOfExplained(pc.batch + [s.eventCh[0]], false, ToCollect(pc.draining));
    } else {
      NextOfExplained(pc.batch, false, if g.Tick? then ToCollect(false) else ToExit);
    }
  }

  lemma StoreExplained(
      c: Config, s: State, a: nat, store: StoreStep,
      failures: set<FailureRecord>, rejected: iset<nat>, secured: iset<nat>)
    requires Explained(s, failures, rejected, secured) && StoreEnabled(s, a, store)
    ensures DeltaExplained(s, StoreDelta(c, s, a, store), failures, With(rejected, s, Store(a, store), Rejected),
                           With(secured, s, Store(a, store), Secured))
  {
    var pc := s.pcs[a];
    NextOfExplained(pc.batch, !store.StoreOk?, pc.next);
    forall r | r in s.world.failures && r !in failures {
      MoreExplains(s, r, rejected, With(rejected, s, Store(a, store), Rejected));
    }
  }

  lemma SettleExplained(
      c: Config, s: State, a: nat, settle: SettleStep,
      failures: set<FailureRecord>, rejected: iset<nat>, secured: iset<nat>)
    requires Explained(s, failures, rejected, secured) && SettleEnabled(s, a, settle)
    ensures DeltaExplained(s, SettleDelta(c, s, a, settle), failures, rejected,
                           With(secured, s, Settle(a, settle), Secured))
  {
    match settle
    case RecordFailure(ok) => RecordExplained(c, s, a, ok, failures, rejected, secured);
    case CompleteAck => AckExplained(c, s, a, failures, rejected, secured);
    case CommitReply(_, _, _) => ReplyExplained(c, s, a, settle, failures, rejected, secured);
    case Report => ReplyExplained(c, s, a, settle, failures, rejected, secured);
  }

  lemma AckExplained(c: Config, s: State, a: nat, failures: set<FailureRecord>, rejected: iset<nat>, secured: iset<nat>)
    requires Explained(s, failures, rejected, secured) && SettleEnabled(s, a, CompleteAck)
    ensures DeltaExplained(s, SettleDelta(c, s, a, CompleteAck), failures, rejected,
                           With(secured, s, Settle(a, CompleteAck), Secured))
  {
    var pc, d := s.pcs[a], SettleDelta(c, s, a, CompleteAck);
    assert AllIn(Dead(pc), rejected) && AllIn(ToAck(pc), secured) && pc.i in ToAck(pc);
    NextOfExplained(pc.rest, pc.dead, pc.next);
    assert d.acks == [pc.i] && d.world.failures == s.world.failures;
    assert Dead(d.pc) == (if pc.dead then pc.rest else []) && ToAck(d.pc) == (if pc.dead then [] else pc.rest);
  }

  lemma ReplyExplained(
      c: Config, s: State, a: nat, settle: SettleStep,
      failures: set<FailureRecord>, rejected: iset<nat>, secured: iset<nat>)
    requires Explained(s, failures, rejected, secured) && SettleEnabled(s, a, settle)
    requires settle.CommitReply? || settle.Report?
    ensures DeltaExplained(s, SettleDelta(c, s, a, settle), failures, rejected,
                           With(secured, s, Settle(a, settle), Secured))
  {
    var pc, d := s.pcs[a], SettleDelta(c, s, a, settle);
    assert AllIn(Dead(pc), rejected) && AllIn(ToAck(pc), secured);
    NextOfExplained(pc.rest, pc.dead, pc.next);
    assert d.acks == [] && d.world.failures == s.world.failures;
    assert Dead(d.pc) == Dead(pc) && ToAck(d.pc) == ToAck(pc);
  }

  lemma RecordExplained(
      c: Config, s: State, a: nat, ok: bool, failures: set<FailureRecord>, rejected: iset<nat>, secured: iset<nat>)
    requires Explained(s, failures, rejected, secured) && SettleEnabled(s, a, RecordFailure(ok))
    ensures DeltaExplained(s, SettleDelta(c, s, a, RecordFailure(ok)), failures, rejected,
                           With(secured, s, Settle(a, RecordFailure(ok)), Secured))
  {
    var pc := s.pcs[a];
    assert AllIn(Dead(pc), rejected) && pc.i in Dead(pc);
    NextOfExplained(pc.rest, true, pc.next);
    assert RecordOf(s, FailureRecord(s.fetched[pc.i], c.decodes(s.fetched[pc.i])), rejected);
  }

  lemma ApplyKeepsExplained(
      c: Config, s: State, a: nat, d: Delta, failures: set<FailureRecord>,
      rejected: iset<nat>, secured: iset<nat>, more: iset<nat>, acked: iset<nat>)
    requires a < |s.pcs| && Explained(s, failures, rejected, secured)
    requires rejected <= more && secured <= acked && DeltaExplained(s, d, failures, more, acked)
    ensures Explained(Apply(c, s, a, d), failures, more, acked)
  {
    var t := Apply(c, s, a, d);
    forall r | r in t.world.failures && r !in failures
      ensures RecordOf(t, r, more)
    {
      var i :| i in more && i < |s.fetched| && s.fetched[i] == r.m;
      assert t.fetched[i] == r.m;
    }
  }

  lemma StepKeepsExplained(
      c: Config, s: State, step: Step, failures: set<FailureRecord>, rejected: iset<nat>, secured: iset<nat>)
    requires Explained(s, failures, rejected, secured) && Enabled(c, s, step)
    ensures Explained(Do(c, s, step), failures, With(rejected, s, step, Rejected), With(secured, s, step, Secured))
  {
    var more, acked := With(rejected, s, step, Rejected), With(secured, s, step, Secured);
    match step
    case Cancel =>
      assert more == rejected && acked == secured;
      assert forall r :: RecordOf(s, r, rejected) ==> RecordOf(Do(c, s, step), r, rejected);
    case Up(a, up) =>
      UpExplained(c, s, a, up, failures, rejected, secured);
      ApplyKeepsExplained(c, s, a, UpDelta(c, s, a, up), failures, rejected, secured, more, acked);
    case Gather(a, g) =>
      GatherExplained(c, s, a, g, failures, rejected, secured);
      assert more == rejected && acked == secured;
      ApplyKeepsExplained(c, s, a, GatherDelta(c, s, a, g), failures, rejected, secured, more, acked);
    case Store(a, store) =>
      StoreExplained(c, s, a, store, failures, rejected, secured);
      ApplyKeepsExplained(c, s, a, StoreDelta(c, s, a, store), failures, rejected, secured, more, acked);
    case Settle(a, settle) =>
      SettleExplained(c, s, a, settle, failures, rejected, secured);
      assert more == rejected;
      ApplyKeepsExplained(c, s, a, SettleDelta(c, s, a, settle), failures, rejected, secured, more, acked);
  }

  ghost function Marked(c: Config, s: State, steps: seq<Step>, mark: Mark): iset<nat>
    requires CanRun(c, s, steps)
  {
    iset i: nat | Along(c, s, steps, mark, i)
  }

  lemma {:induction false} RunKeepsExplained(
      c: Config, s: State, steps: seq<Step>, failures: set<FailureRecord>, rejected: iset<nat>, secured: iset<nat>)
    requires Explained(s, failures, rejected, secured) && CanRun(c, s, steps)
    ensures Explained(After(c, s, steps), failures, rejected + Marked(c, s, steps, Rejected),
                      secured + Marked(c, s, steps, Secured))
    decreases steps
  {
    if steps == [] {
      assert rejected + Marked(c, s, steps, Rejected) == rejected && secured + Marked(c, s, steps, Secured) == secured;
    } else {
      var t := Do(c, s, steps[0]);
      var more, acked := With(rejected, s, steps[0], Rejected), With(secured, s, steps[0], Secured);
      StepKeepsExplained(c, s, steps[0], failures, rejected, secured);
      RunKeepsExplained(c, t, steps[1..], failures, more, acked);
      assert rejected + Marked(c, s, steps, Rejected) == more + Marked(c, t, steps[1..], Rejected);
      assert secured + Marked(c, s, steps, Secured) == acked + Marked(c, t, steps[1..], Secured);
    }
  }

  lemma RunExplained(c: Config, w: World, steps: seq<Step>)
    requires CanRun(c, Init(c, w.rows, w.failures, w.broker), steps)
    ensures
      var s := Init(c, w.rows, w.failures, w.broker);
      Explained(After(c, s, steps), w.failures, Marked(c, s, steps, Rejected), Marked(c, s, steps, Secured))
  {
    var s := Init(c, w.rows, w.failures, w.broker);
    RunKeepsExplained(c, s, steps, w.failures, iset{}, iset{});
    assert iset{} + Marked(c, s, steps, Rejected) == Marked(c, s, steps, Rejected);
    assert iset{} + Marked(c, s, steps, Secured) == Marked(c, s, steps, Secured);
  }

  /** A new failure record is one of a message that some step of the run rejected for good. */
  lemma RecordsAreOfRejected(c: Config, w: World, steps: seq<Step>, r: FailureRecord)
    requires CanRun(c, Init(c, w.rows, w.failures, w.broker), steps)
    requires
      var s := Init(c, w.rows, w.failures, w.broker);
      r in After(c, s, steps).world.failures && r !in w.failures
    ensures
      var s := Init(c, w.rows, w.failures, w.broker);
      var t := After(c, s, steps);
      exists i: nat :: i < |t.fetched| && t.fetched[i] == r.m && Along(c, s, steps, Rejected, i)
  {
    RunExplained(c, w, steps);
    var s := Init(c, w.rows, w.failures, w.broker);
    var t := After(c, s, steps);
    assert RecordOf(t, r, Marked(c, s, steps, Rejected));
    var i :| i in Marked(c, s, steps, Rejected) && i < |t.fetched| && t.fetched[i] == r.m;
    assert Along(c, s, steps, Rejected, i);
  }

  /** An acked delivery was stored, or a failure record of it accepted, at some step of the run. */
  lemma AckedWereSecured(c: Config, w: World, steps: seq<Step>, i: nat)
    requires CanRun(c, Init(c, w.rows, w.failures, w.broker), steps)
    requires i in After(c, Init(c, w.rows, w.failures, w.broker), steps).acked
    ensures Along(c, Init(c, w.rows, w.failures, w.broker), steps, Secured, i)
  {
    RunExplained(c, w, steps);
  }

  // ---- What is given up ----

  /** As long as nothing is cancelled no goroutine exits or drains. */
  ghost predicate Live(s: State) {
    && !s.cancelled && s.deliveryCloses == 0 && s.eventCloses == 0
    && forall a | 0 <= a < |s.pcs| :: StaysUp(s.pcs[a])
  }

  predicate GoesOn(next: Next) {
    next == ToTop || next == ToIdle || next == ToCollect(false)
  }

  predicate StaysUp(pc: Pc) {
    match pc
    case Collecting(_, draining) => !draining
    case Storing(_, attempt, next) => attempt < 3 && GoesOn(next)
    case DeadLetter(_, _, next) => GoesOn(next)
    case Acking(_, _, _, next) => GoesOn(next)
    case Committing(_, _, _, next) => GoesOn(next)
    case Reporting(_, _, next) => GoesOn(next)
    case Exited => false
    case _ => true
  }

  /** A step of a live pipeline keeps its goroutine up and gives up exactly the deliveries it marks. */
  ghost predicate DropsMarked(s: State, step: Step, d: Delta) {
    StaysUp(d.pc) && forall i: nat :: i in d.drops <==> Marks(s, step, GivenUp, i)
  }

  lemma NextOfStaysUp(rest: seq<nat>, dead: bool, next: Next)
    requires GoesOn(next)
    ensures StaysUp(NextOf(rest, dead, next)) && StaysUp(Return(next)) && StaysUp(Flush(rest, next))
  {
  }

  lemma UpDrops(c: Config, s: State, a: nat, up: UpStep)
    requires Live(s) && Protocol(c, s) && UpEnabled(c, s, a, up)
    ensures DropsMarked(s, Up(a, up), UpDelta(c, s, a, up))
  {
    CloserWaits(c, s, a);
  }

  /** As long as the pipeline is live the closer waits for the workers. */
  lemma CloserWaits(c: Config, s: State, a: nat)
    requires Live(s) && Protocol(c, s) && a < |s.pcs|
    ensures !UpEnabled(c, s, a, CloseEvents)
  {
    if s.pcs[a].Waiting? {
      assert Fits(c, RoleOf(c, a), s.pcs[a]);
      assert 1 < |s.pcs| && StaysUp(s.pcs[1]);
    }
  }

  lemma GatherDrops(c: Config, s: State, a: nat, g: GatherStep)
    requires Live(s) && GatherEnabled(s, a, g)
    ensures DropsMarked(s, Gather(a, g), GatherDelta(c, s, a, g))
  {
    assert StaysUp(s.pcs[a]);
  }

  lemma StoreDrops(c: Config, s: State, a: nat, store: StoreStep)
    requires Live(s) && StoreEnabled(s, a, store)
    ensures DropsMarked(s, Store(a, store), StoreDelta(c, s, a, store))
  {
    assert StaysUp(s.pcs[a]);
    NextOfStaysUp(s.pcs[a].batch, !store.StoreOk?, s.pcs[a].next);
  }

  lemma SettleDrops(c: Config, s: State, a: nat, settle: SettleStep)
    requires Live(s) && SettleEnabled(s, a, settle)
    ensures DropsMarked(s, Settle(a, settle), SettleDelta(c, s, a, settle))
  {
    var pc := s.pcs[a];
    assert StaysUp(pc);
    NextOfStaysUp(pc.rest, pc.DeadLetter? || pc.dead, pc.next);
  }

  lemma ApplyKeepsLive(c: Config, s: State, a: nat, d: Delta, step: Step, given: iset<nat>)
    requires Live(s) && a < |s.pcs| && DropsMarked(s, step, d) && forall i: nat :: i in s.dropped <==> i in given
    ensures Live(Apply(c, s, a, d))
    ensures forall i: nat :: i in Apply(c, s, a, d).dropped <==> i in With(given, s, step, GivenUp)
  {
  }

  lemma LiveStep(c: Config, s: State, step: Step, given: iset<nat>)
    requires Live(s) && Protocol(c, s) && Enabled(c, s, step) && step != Cancel
    requires forall i: nat :: i in s.dropped <==> i in given
    ensures Live(Do(c, s, step))
    ensures forall i: nat :: i in Do(c, s, step).dropped <==> i in With(given, s, step, GivenUp)
  {
    match step
    case Up(a, up) => UpDrops(c, s, a, up); ApplyKeepsLive(c, s, a, UpDelta(c, s, a, up), step, given);
    case Gather(a, g) => GatherDrops(c, s, a, g); ApplyKeepsLive(c, s, a, GatherDelta(c, s, a, g), step, given);
    case Store(a, store) =>
      StoreDrops(c, s, a, store);
      ApplyKeepsLive(c, s, a, StoreDelta(c, s, a, store), step, given);
    case Settle(a, settle) =>
      SettleDrops(c, s, a, settle);
      ApplyKeepsLive(c, s, a, SettleDelta(c, s, a, settle), step, given);
  }

  lemma {:induction false} CancelledForGood(c: Config, s: State, steps: seq<Step>)
    requires s.cancelled && CanRun(c, s, steps)
    ensures After(c, s, steps).cancelled
    decreases steps
  {
    if steps != [] { CancelledForGood(c, Do(c, s, steps[0]), steps[1..]); }
  }

  lemma {:induction false} LiveRun(c: Config, s: State, steps: seq<Step>, given: iset<nat>)
    requires Live(s) && Protocol(c, s) && CanRun(c, s, steps) && !After(c, s, steps).cancelled
    requires forall i: nat :: i in s.dropped <==> i in given
    ensures forall i: nat :: i in After(c, s, steps).dropped <==> i in given || Along(c, s, steps, GivenUp, i)
    decreases steps
  {
    if steps != [] {
      if steps[0] == Cancel { CancelledForGood(c, Do(c, s, Cancel), steps[1..]); }
      LiveStep(c, s, steps[0], given);
      StepKeepsProtocol(c, s, steps[0]);
      LiveRun(c, Do(c, s, steps[0]), steps[1..], With(given, s, steps[0], GivenUp));
    }
  }

  /**
    While nothing is cancelled, a delivery is given up exactly at a transient rejection by the
    transformer, at the third failed attempt of its batch, or at a failure record that no store accepts.
   */
  lemma LiveDropsExactly(c: Config, w: World, steps: seq<Step>, i: nat)
    requires CanRun(c, Init(c, w.rows, w.failures, w.broker), steps)
    requires !After(c, Init(c, w.rows, w.failures, w.broker), steps).cancelled
    ensures
      var s := Init(c, w.rows, w.failures, w.broker);
      i in After(c, s, steps).dropped <==> Along(c, s, steps, GivenUp, i)
  {
    var s := Init(c, w.rows, w.failures, w.broker);
    InitProtocol(c, w.rows, w.failures, w.broker);
    LiveRun(c, s, steps, iset{});
  }

  /** A delivery that a step gives up stays given up in every continuation. */
  lemma GivenUpForGood(c: Config, s: State, step: Step, more: seq<Step>, i: nat)
    requires Protocol(c, s) && Enabled(c, s, step) && Marks(s, step, GivenUp, i) && CanRun(c, Do(c, s, step), more)
    ensures i in After(c, Do(c, s, step), more).dropped
  {
    MarkedIsDropped(c, s, step, i);
    DropsStay(c, Do(c, s, step), more, i);
  }

  lemma MarkedIsDropped(c: Config, s: State, step: Step, i: nat)
    requires Protocol(c, s) && Enabled(c, s, step) && Marks(s, step, GivenUp, i)
    ensures i in Do(c, s, step).dropped
  {
    assert i in [i];
  }

  /**
    A message rejected by the transformer for now - a payload that does not validate, say - holds
    back every commit at or above it in every continuation that does not fetch it again.
   */
  lemma TransientRejectionBlocks(
      c: Config, s: State, resumed: map<int, int>, a: nat, i: nat, more: seq<Step>)
    requires Invariant(c, s, resumed) && a < |s.pcs| && s.pcs[a] == Transforming(i) && i < |s.fetched|
    requires
      var t := Do(c, s, Up(a, TransformError(false)));
      && CanRun(c, t, more)
      && var u, m := After(c, t, more), s.fetched[i];
         && m.partition in u.world.parts && u.world.parts[m.partition].start <= m.offset
         && forall j | 0 <= j < |u.fetched| && u.fetched[j] == m :: j == i
    ensures HeldBack(After(c, Do(c, s, Up(a, TransformError(false))), more).world, resumed, s.fetched[i])
  {
    var step := Up(a, TransformError(false));
    var t := Do(c, s, step);
    StepKeepsInvariant(c, s, step, resumed);
    MarkedIsDropped(c, s, step, i);
    LogOnlyGrows(c, t, more);
    assert t.fetched[i] == s.fetched[i];
    GivenUpBlocks(c, t, resumed, i, more);
  }

  /** And so does one that is rejected in a stopping pipeline, by the transformer or at the poll. */
  lemma RejectedWhileStopping(c: Config, s: State, step: Step, more: seq<Step>, i: nat)
    requires Enabled(c, s, step) && s.cancelled && step.Up? && CanRun(c, Do(c, s, step), more)
    requires (step.up.TransformError? && s.pcs[step.a] == Transforming(i)) ||
             (step.up.Fetch? && !step.up.good && i == |s.fetched|)
    ensures i in After(c, Do(c, s, step), more).dropped
  {
    assert i in [i] && i in Do(c, s, step).dropped;
    DropsStay(c, Do(c, s, step), more, i);
  }

  lemma DropsStay(c: Config, s: State, more: seq<Step>, i: nat)
    requires i in s.dropped && CanRun(c, s, more)
    ensures i in After(c, s, more).dropped
  {
    LogOnlyGrows(c, s, more);
    var k :| 0 <= k < |s.dropped| && s.dropped[k] == i;
    assert After(c, s, more).dropped[k] == i;
  }

  // ---- What is rejected for good ----

  /** The delivery is being dead-lettered, or has been and is acked. */
  ghost predicate OnRecord(s: State, i: nat) {
    i in s.acked || exists a :: 0 <= a < |s.pcs| && i in Dead(s.pcs[a])
  }

  lemma DeadIsHeld(pc: Pc)
    ensures forall i | i in Dead(pc) :: i in Held(pc)
  {
  }

  /** What is on record is not given up. */
  lemma OnRecordNotDropped(s: State, i: nat)
    requires Conserved(s) && OnRecord(s, i)
    ensures i !in s.dropped
  {
    if i in s.acked {
      AckedOnce(s, i);
    } else {
      var a :| 0 <= a < |s.pcs| && i in Dead(s.pcs[a]);
      DeadIsHeld(s.pcs[a]);
      HeldInAll(s.pcs, a, i);
      CountIn(s.dropped, i);
      assert Places(s, i) == if i < |s.fetched| then 1 else 0;
    }
  }

  /** A rejection for good in a live pipeline puts its delivery on record. */
  lemma RejectionIsOnRecord(c: Config, s: State, step: Step, i: nat)
    requires Enabled(c, s, step) && !s.cancelled && Marks(s, step, Rejected, i)
    ensures OnRecord(Do(c, s, step), i)
  {
    var t := Do(c, s, step);
    assert 0 <= step.a < |t.pcs|;
    if step.Store? { NextOfExplained(s.pcs[step.a].batch, true, s.pcs[step.a].next); }
    assert i in Dead(t.pcs[step.a]);
  }

  lemma OthersStay(c: Config, s: State, step: Step, b: nat)
    requires Enabled(c, s, step) && b < |s.pcs| && (step == Cancel || step.a != b)
    ensures |Do(c, s, step).pcs| == |s.pcs| && Do(c, s, step).pcs[b] == s.pcs[b]
  {
  }

  lemma OnlySettlingMovesTheDead(c: Config, s: State, step: Step)
    requires Enabled(c, s, step) && step != Cancel && Dead(s.pcs[step.a]) != []
    ensures step.Settle?
  {
  }

  lemma StepKeepsOnRecord(c: Config, s: State, step: Step, i: nat)
    requires Enabled(c, s, step) && OnRecord(s, i) && !Marks(s, step, Refused, i)
    ensures OnRecord(Do(c, s, step), i)
  {
    var t := Do(c, s, step);
    if i !in s.acked {
      var b :| 0 <= b < |s.pcs| && i in Dead(s.pcs[b]);
      if step == Cancel || step.a != b {
        OthersStay(c, s, step, b);
        assert i in Dead(t.pcs[b]);
      } else {
        OnlySettlingMovesTheDead(c, s, step);
        SettleKeepsOnRecord(c, s, b, step.settle, i);
        assert i in t.acked || i in Dead(t.pcs[b]);
      }
    }
  }

  lemma SettleKeepsOnRecord(c: Config, s: State, a: nat, settle: SettleStep, i: nat)
    requires SettleEnabled(s, a, settle) && i in Dead(s.pcs[a]) && !Marks(s, Settle(a, settle), Refused, i)
    ensures i in SettleDelta(c, s, a, settle).acks || i in Dead(SettleDelta(c, s, a, settle).pc)
  {
    if settle.RecordFailure? {
      RecordKeepsOnRecord(c, s, a, settle, i);
    } else {
      ReplyKeepsOnRecord(c, s, a, settle, i);
    }
  }

  lemma RecordKeepsOnRecord(c: Config, s: State, a: nat, settle: SettleStep, i: nat)
    requires SettleEnabled(s, a, settle) && settle.RecordFailure?
    requires i in Dead(s.pcs[a]) && !Marks(s, Settle(a, settle), Refused, i)
    ensures i in Dead(SettleDelta(c, s, a, settle).pc)
  {
    var pc, d := s.pcs[a], SettleDelta(c, s, a, settle);
    NextOfExplained(pc.rest, true, pc.next);
    if settle.ok { assert Dead(d.pc) == [pc.i] + pc.rest; } else { assert Dead(d.pc) == pc.rest && i in pc.rest; }
  }

  lemma ReplyKeepsOnRecord(c: Config, s: State, a: nat, settle: SettleStep, i: nat)
    requires SettleEnabled(s, a, settle) && !settle.RecordFailure? && i in Dead(s.pcs[a])
    ensures i in SettleDelta(c, s, a, settle).acks || i in Dead(SettleDelta(c, s, a, settle).pc)
  {
    var pc, d := s.pcs[a], SettleDelta(c, s, a, settle);
    NextOfExplained(pc.rest, true, pc.next);
    if settle.CompleteAck? { assert Dead(d.pc) == pc.rest && d.acks == [pc.i]; } else { assert Dead(d.pc) == pc.rest; }
  }

  /**
    A delivery rejected for good in a live pipeline is never given up in any continuation, unless a
    failure record of it is refused by all stores; it is on its way to a record, or recorded and acked.
   */
  lemma {:induction false} RejectedEndsOnRecord(c: Config, s: State, steps: seq<Step>, i: nat)
    requires Conserved(s) && OnRecord(s, i) && CanRun(c, s, steps) && !Along(c, s, steps, Refused, i)
    ensures OnRecord(After(c, s, steps), i) && i !in After(c, s, steps).dropped
    decreases steps
  {
    if steps == [] {
      OnRecordNotDropped(s, i);
    } else {
      StepKeepsConserved(c, s, steps[0]);
      StepKeepsOnRecord(c, s, steps[0], i);
      RejectedEndsOnRecord(c, Do(c, s, steps[0]), steps[1..], i);
    }
  }

  lemma RejectedForGood(c: Config, s: State, step: Step, more: seq<Step>, i: nat)
    requires Conserved(s) && Enabled(c, s, step) && !s.cancelled && Marks(s, step, Rejected, i)
    requires CanRun(c, Do(c, s, step), more)
    ensures i in After(c, Do(c, s, step), more).dropped ==> Along(c, Do(c, s, step), more, Refused, i)
    ensures !Along(c, Do(c, s, step), more, Refused, i) ==> OnRecord(After(c, Do(c, s, step), more), i)
  {
    RejectionIsOnRecord(c, s, step, i);
    StepKeepsConserved(c, s, step);
    if !Along(c, Do(c, s, step), more, Refused, i) { RejectedEndsOnRecord(c, Do(c, s, step), more, i); }
  }

  // ---- What store calls and commits leave behind ----

  /** How many events of its batch a store step has written. */
  function WrittenBy(s: State, a: nat, store: StoreStep): nat
    requires StoreEnabled(s, a, store)
  {
    match store
    case StoreOk => |s.pcs[a].batch|
    case StoreTransient(n) => n
    case StoreTerminal(n, _) => n
    case StoreAbort => 0
  }

  lemma {:induction false} RowsComeFrom(
      c: Config, rows: map<string, string>, fetched: seq<Message>, batch: seq<nat>, id: string)
    requires id in WithRows(c, rows, fetched, batch) && id !in rows
    ensures exists k :: 0 <= k < |batch| && batch[k] < |fetched| && c.idOf(fetched[batch[k]]) == id
  {
    if batch != [] {
      var n := |batch| - 1;
      if id in WithRows(c, rows, fetched, batch[..n]) {
        RowsComeFrom(c, rows, fetched, batch[..n], id);
        var k :| 0 <= k < n && batch[..n][k] < |fetched| && c.idOf(fetched[batch[..n][k]]) == id;
        assert batch[k] == batch[..n][k];
      } else {
        assert batch[n] < |fetched| && c.idOf(fetched[batch[n]]) == id;
      }
    }
  }

  lemma RowsExactly(c: Config, rows: map<string, string>, fetched: seq<Message>, batch: seq<nat>, id: string)
    ensures
      id in WithRows(c, rows, fetched, batch) <==>
        id in rows || exists k :: 0 <= k < |batch| && batch[k] < |fetched| && c.idOf(fetched[batch[k]]) == id
  {
    RowsExtend(c, rows, fetched, batch);
    if id in WithRows(c, rows, fetched, batch) && id !in rows { RowsComeFrom(c, rows, fetched, batch, id); }
    if k :| 0 <= k < |batch| && batch[k] < |fetched| && c.idOf(fetched[batch[k]]) == id {
      assert batch[k] in batch;
    }
  }

  /** A store step leaves the rows of the prefix that it wrote. */
  lemma StoreWritesPrefix(c: Config, s: State, a: nat, store: StoreStep)
    requires StoreEnabled(s, a, store)
    ensures
      Do(c, s, Store(a, store)).world.rows ==
      WithRows(c, s.world.rows, s.fetched, s.pcs[a].batch[..WrittenBy(s, a, store)])
  {
    assert store.StoreOk? ==> s.pcs[a].batch[..WrittenBy(s, a, store)] == s.pcs[a].batch;
  }

  /** Whether it succeeds or fails, a store call leaves exactly the events of its written prefix new in the table. */
  lemma StoreLeavesPrefix(c: Config, s: State, a: nat, store: StoreStep, id: string)
    requires StoreEnabled(s, a, store)
    ensures
      var rows, batch := Do(c, s, Store(a, store)).world.rows, s.pcs[a].batch;
      id in rows <==>
        id in s.world.rows ||
        exists k :: 0 <= k < WrittenBy(s, a, store) && batch[k] < |s.fetched| && c.idOf(s.fetched[batch[k]]) == id
  {
    var batch, n := s.pcs[a].batch, WrittenBy(s, a, store);
    StoreWritesPrefix(c, s, a, store);
    RowsExactly(c, s.world.rows, s.fetched, batch[..n], id);
    assert forall k | 0 <= k < n :: batch[..n][k] == batch[k];
  }

  /** One call of the store by goroutine a: its attempts, and perhaps an end in the wait behind the last. */
  function Calls(a: nat, stores: seq<StoreStep>): seq<Step> {
    if stores == [] then [] else [Store(a, stores[0])] + Calls(a, stores[1..])
  }

  /** What the call can answer at any attempt, as far as batch and context allow it. */
  predicate Answers(s: State, batch: seq<nat>, next: Next, store: StoreStep) {
    match store
    case StoreOk => true
    case StoreTransient(n) => n <= |batch| && Repository.PossiblyWritten(|batch|, n)
    case StoreTerminal(n, expired) =>
      && n <= |batch| && Repository.PossiblyWritten(|batch|, n)
      && (expired ==> MayExpire(s, next)) && (MustExpire(s, next) ==> expired)
    case StoreAbort => MayExpire(s, next)
  }

  /**
    How a call goes on that has k attempts behind it: transient failures in front, three attempts at
    most, the third the last; it can be left in a wait only behind an attempt.
   */
  predicate Retried(k: nat, stores: seq<StoreStep>) {
    var n := |stores|;
    && n > 0
    && (forall j | 0 <= j < n - 1 :: stores[j].StoreTransient?)
    && match stores[n - 1]
       case StoreTransient(_) => k + n == 3
       case StoreAbort => 1 <= k + n - 1 <= 2
       case _ => k + n <= 3
  }

  predicate AllAnswer(s: State, batch: seq<nat>, next: Next, stores: seq<StoreStep>) {
    forall store | store in stores :: Answers(s, batch, next, store)
  }

  /** The goroutine can take these steps, and is behind its call then. */
  predicate Completes(c: Config, s: State, a: nat, stores: seq<StoreStep>) {
    CanRun(c, s, Calls(a, stores)) &&
    var t := After(c, s, Calls(a, stores));
    a < |t.pcs| && !t.pcs[a].Storing?
  }

  lemma CompletesNext(c: Config, s: State, a: nat, stores: seq<StoreStep>)
    requires stores != []
    ensures Completes(c, s, a, stores) <==>
              StoreEnabled(s, a, stores[0]) && Completes(c, Do(c, s, Store(a, stores[0])), a, stores[1..])
  {
    var calls := Calls(a, stores);
    assert calls[0] == Store(a, stores[0]) && calls[1..] == Calls(a, stores[1..]);
  }

  lemma RetriedNext(k: nat, stores: seq<StoreStep>)
    requires |stores| > 1
    ensures Retried(k, stores) <==> stores[0].StoreTransient? && Retried(k + 1, stores[1..])
  {
    var rest := stores[1..];
    assert forall j | 0 < j < |stores| :: stores[j] == rest[j - 1];
    if Retried(k + 1, rest) && stores[0].StoreTransient? {
      forall j | 0 <= j < |stores| - 1
        ensures stores[j].StoreTransient?
      {
        if j > 0 { assert stores[j] == rest[j - 1]; }
      }
    }
    assert forall j | 0 <= j < |rest| :: rest[j] == stores[j + 1];
  }

  lemma StaysInCall(c: Config, s: State, a: nat, store: StoreStep)
    requires StoreEnabled(s, a, store) && store.StoreTransient? && s.pcs[a].attempt + 1 < 3
    ensures
      var t := Do(c, s, Store(a, store));
      && |t.pcs| == |s.pcs| && t.pcs[a] == s.pcs[a].(attempt := s.pcs[a].attempt + 1)
      && forall batch, next, x :: Answers(t, batch, next, x) <==> Answers(s, batch, next, x)
  {
  }

  lemma LeavesCall(c: Config, s: State, a: nat, store: StoreStep, rest: seq<StoreStep>)
    requires StoreEnabled(s, a, store) && !(store.StoreTransient? && s.pcs[a].attempt + 1 < 3)
    ensures Completes(c, Do(c, s, Store(a, store)), a, rest) <==> rest == []
  {
    var t := Do(c, s, Store(a, store));
    assert |t.pcs| == |s.pcs| && !t.pcs[a].Storing?;
    if rest != [] { CompletesNext(c, t, a, rest); }
  }

  lemma AnswersNext(s: State, batch: seq<nat>, next: Next, stores: seq<StoreStep>)
    requires stores != []
    ensures AllAnswer(s, batch, next, stores) <==>
              Answers(s, batch, next, stores[0]) && AllAnswer(s, batch, next, stores[1..])
  {
    assert stores == [stores[0]] + stores[1..];
  }

  /** The steps of one store call are exactly those of the retry loop, whatever each attempt answers. */
  lemma {:induction false} StoreCallRetries(
      c: Config, s: State, a: nat, batch: seq<nat>, k: nat, next: Next, stores: seq<StoreStep>)
    requires a < |s.pcs| && s.pcs[a] == Storing(batch, k, next) && k < 3
    ensures Completes(c, s, a, stores) <==> Retried(k, stores) && AllAnswer(s, batch, next, stores)
    decreases |stores|
  {
    if stores != [] {
      var store, rest := stores[0], stores[1..];
      CompletesNext(c, s, a, stores);
      AnswersNext(s, batch, next, stores);
      if |stores| > 1 { RetriedNext(k, stores); }
      if StoreEnabled(s, a, store) {
        if store.StoreTransient? && k + 1 < 3 {
          StaysInCall(c, s, a, store);
          StoreCallRetries(c, Do(c, s, Store(a, store)), a, batch, k + 1, next, rest);
        } else {
          LeavesCall(c, s, a, store, rest);
        }
      }
    }
  }

  /**
    Behind a cancellation a batch that fails for good is still recorded, delivery by delivery, if it
    is stored in the drain, whose context is its own and may be live or done; one stored with the
    pipeline's context is given up.
   */
  lemma TerminalWhileStopping(c: Config, s: State, a: nat, batch: seq<nat>, k: nat, next: Next, n: nat, expired: bool)
    requires a < |s.pcs| && s.pcs[a] == Storing(batch, k, next) && s.cancelled && batch != []
    requires n <= |batch| && Repository.PossiblyWritten(|batch|, n)
    ensures next in {ToCollect(true), ToExit} ==>
              && StoreEnabled(s, a, StoreTerminal(n, expired))
              && var t := Do(c, s, Store(a, StoreTerminal(n, expired)));
                 if expired then t.dropped == s.dropped + batch
                 else t.pcs[a] == DeadLetter(batch[0], batch[1..], next) && t.dropped == s.dropped
    ensures next in {ToTop, ToCollect(false)} ==>
              && !StoreEnabled(s, a, StoreTerminal(n, false)) && StoreEnabled(s, a, StoreTerminal(n, true))
              && Do(c, s, Store(a, StoreTerminal(n, true))).dropped == s.dropped + batch
  {
  }

  /**
    A commit that succeeds, or fails and has reached the broker all the same, leaves the broker at the
    offset behind its message; one that has not leaves it. A note is written about a failed one
    while the context is live, and the goroutine goes on with the rest at once otherwise.
   */
  lemma ReplyMeaning(c: Config, s: State, a: nat, m: Message, rest: seq<nat>, dead: bool, next: Next, reply: SettleStep)
    requires a < |s.pcs| && s.pcs[a] == Committing(m, rest, dead, next) && reply.CommitReply?
    ensures Enabled(c, s, Settle(a, reply))
    ensures
      var t := Do(c, s, Settle(a, reply));
      && t.world.broker ==
         (if reply.ok || reply.landed then s.world.broker[m.partition := m.offset + 1] else s.world.broker)
      && (t.pcs[a] == Reporting(rest, dead, next) <==> !reply.ok && !reply.expired)
      && (reply.ok || reply.expired ==> Held(t.pcs[a]) == rest)
  {
    NextOfHolds(rest, dead, next);
    assert !NextOf(rest, dead, next).Reporting?;
  }

  // ---- The channels are queues ----

  /** The delivery channel, or the event channel. */
  datatype Channel = Deliveries | Events

  function Content(s: State, ch: Channel): seq<nat> {
    if ch.Deliveries? then s.deliveryCh else s.eventCh
  }

  /** What a sender held in front of its step. */
  function Sends(c: Config, s: State, ch: Channel, step: Step): seq<nat>
    requires Enabled(c, s, step)
  {
    if step.Up? && step.up == (if ch.Deliveries? then SendDelivery else SendEvent) then Held(s.pcs[step.a]) else []
  }

  /** What a receiver has last behind its step. */
  function Takes(c: Config, s: State, ch: Channel, step: Step): seq<nat>
    requires Enabled(c, s, step)
  {
    if if ch.Deliveries? then step.Up? && step.up.Receive? else step.Gather? && step.gather.Take? then
      var held := Held(Do(c, s, step).pcs[step.a]);
      if held == [] then [] else [held[|held| - 1]]
    else []
  }

  function Sent(c: Config, s: State, ch: Channel, steps: seq<Step>): seq<nat>
    requires CanRun(c, s, steps)
    decreases steps
  {
    if steps == [] then [] else Sends(c, s, ch, steps[0]) + Sent(c, Do(c, s, steps[0]), ch, steps[1..])
  }

  function Taken(c: Config, s: State, ch: Channel, steps: seq<Step>): seq<nat>
    requires CanRun(c, s, steps)
    decreases steps
  {
    if steps == [] then [] else Takes(c, s, ch, steps[0]) + Taken(c, Do(c, s, steps[0]), ch, steps[1..])
  }

  lemma UpQueues(c: Config, s: State, a: nat, up: UpStep)
    requires UpEnabled(c, s, a, up)
    ensures
      var pc, d := s.pcs[a], UpDelta(c, s, a, up);
      && s.deliveryCh + (if up.SendDelivery? then Held(pc) else []) ==
         (if up.Receive? then Held(d.pc) else []) + d.deliveryCh
      && s.eventCh + (if up.SendEvent? then Held(pc) else []) == d.eventCh
      && (up.Receive? ==> |Held(d.pc)| == 1)
  {
  }

  lemma GatherQueues(c: Config, s: State, a: nat, gather: GatherStep)
    requires GatherEnabled(s, a, gather)
    ensures
      var d := GatherDelta(c, s, a, gather);
      var held := Held(d.pc);
      && d.deliveryCh == s.deliveryCh
      && (if gather.Take? then held != [] && s.eventCh == [held[|held| - 1]] + d.eventCh else d.eventCh == s.eventCh)
  {
  }

  lemma StepQueues(c: Config, s: State, ch: Channel, step: Step)
    requires Enabled(c, s, step)
    ensures Content(s, ch) + Sends(c, s, ch, step) == Takes(c, s, ch, step) + Content(Do(c, s, step), ch)
  {
    match step
    case Cancel =>
    case Up(a, up) => UpQueues(c, s, a, up);
    case Gather(a, gather) => GatherQueues(c, s, a, gather);
    case Store(a, store) => StoreKeepsChannels(c, s, a, store);
    case Settle(a, settle) => SettleKeepsChannels(c, s, a, settle);
  }

  lemma StoreKeepsChannels(c: Config, s: State, a: nat, store: StoreStep)
    requires StoreEnabled(s, a, store)
    ensures StoreDelta(c, s, a, store).deliveryCh == s.deliveryCh && StoreDelta(c, s, a, store).eventCh == s.eventCh
  {
  }

  lemma SettleKeepsChannels(c: Config, s: State, a: nat, settle: SettleStep)
    requires SettleEnabled(s, a, settle)
    ensures SettleDelta(c, s, a, settle).deliveryCh == s.deliveryCh && SettleDelta(c, s, a, settle).eventCh == s.eventCh
  {
  }

  /** A queue that goes from q to r, and then on to t. */
  lemma QueueOn(
      q: seq<nat>, sends: seq<nat>, takes: seq<nat>, r: seq<nat>, sent: seq<nat>, taken: seq<nat>, t: seq<nat>)
    requires q + sends == takes + r && r + sent == taken + t
    ensures q + (sends + sent) == (takes + taken) + t
  {
    assert q + (sends + sent) == (q + sends) + sent;
    assert (takes + r) + sent == takes + (r + sent);
    assert takes + (taken + t) == (takes + taken) + t;
  }

  /**
    Over every run, what is received from a channel, and behind it what is left there, is what was
    there and behind it what was sent, in this order.
   */
  lemma {:induction false} FirstInFirstOut(c: Config, s: State, ch: Channel, steps: seq<Step>)
    requires CanRun(c, s, steps)
    ensures Content(s, ch) + Sent(c, s, ch, steps) == Taken(c, s, ch, steps) + Content(After(c, s, steps), ch)
    decreases steps
  {
    if steps != [] {
      var t := Do(c, s, steps[0]);
      StepQueues(c, s, ch, steps[0]);
      FirstInFirstOut(c, t, ch, steps[1..]);
      QueueOn(Content(s, ch), Sends(c, s, ch, steps[0]), Takes(c, s, ch, steps[0]), Content(t, ch),
              Sent(c, t, ch, steps[1..]), Taken(c, t, ch, steps[1..]), Content(After(c, t, steps[1..]), ch));
    }
  }

  // ---- What a closed channel leaves behind ----

  /** Whoever sees a channel closed has seen it empty. */
  lemma ClosedIsSeenEmpty(c: Config, s: State, a: nat)
    ensures GatherEnabled(s, a, SeeClosed) ==> s.eventCh == [] && s.eventCloses > 0
    ensures UpEnabled(c, s, a, ReceiveClosed) ==> s.deliveryCh == [] && s.deliveryCloses > 0
  {
  }

  /** And it stays empty: nothing is sent behind the close, so nothing is left unread by those who left on it. */
  lemma {:induction false} ClosedStaysEmpty(c: Config, s: State, steps: seq<Step>)
    requires Protocol(c, s) && CanRun(c, s, steps)
    ensures s.eventCh == [] && s.eventCloses > 0 ==> After(c, s, steps).eventCh == []
    ensures s.deliveryCh == [] && s.deliveryCloses > 0 ==> After(c, s, steps).deliveryCh == []
    decreases steps
  {
    if steps != [] {
      ChannelDiscipline(c, s);
      StepKeepsProtocol(c, s, steps[0]);
      SendsOnly(c, s, steps[0]);
      ClosedStaysEmpty(c, Do(c, s, steps[0]), steps[1..]);
    }
  }

  /** Only a send fills a channel, and no close is undone. */
  lemma SendsOnly(c: Config, s: State, step: Step)
    requires Enabled(c, s, step)
    ensures s.eventCloses <= Do(c, s, step).eventCloses && s.deliveryCloses <= Do(c, s, step).deliveryCloses
    ensures s.eventCh == [] && !(step.Up? && step.up.SendEvent?) ==> Do(c, s, step).eventCh == []
    ensures s.deliveryCh == [] && !(step.Up? && step.up.SendDelivery?) ==> Do(c, s, step).deliveryCh == []
  {
  }
}
