/**
  Stopping. Once the pipeline is cancelled, each step of the batch and the worker-pool mode that
  changes anything uses up a measure over queued items and live goroutines, and as long as a
  goroutine is live some such step is possible: the pipeline cannot hang and cannot go on for ever.
 */
module PipelineShutdown {
  import opened Committer
  import opened Options
  import opened Pipeline
  import opened PipelineProtocol
  import opened PipelineSafety

  /** Settling a delivery takes at most four steps: record, ack, commit, report. */
  const SETTLE := 4
  const IN_BATCH := 8
  const IN_EVENT_CHANNEL := 9
  const IN_DELIVERY_CHANNEL := 12

  /** An upper bound on the steps a goroutine at this place still takes, with those of what it holds. */
  function Weight(pc: Pc): nat {
    match pc
    case Top => 1
    case InPoll => IN_DELIVERY_CHANNEL + 3
    case Holding(_) => IN_DELIVERY_CHANNEL + 2
    case Idle => 1
    case Transforming(_) => IN_EVENT_CHANNEL + 3
    case Sending(_) => IN_EVENT_CHANNEL + 2
    case Collecting(batch, draining) => IN_BATCH * |batch| + if draining then 1 else 2
    case Storing(batch, attempt, next) => SETTLE * |batch| + Left(attempt) + WeightAt(next)
    case DeadLetter(_, rest, next) => SETTLE * |rest| + 4 + WeightAt(next)
    case Acking(_, rest, _, next) => SETTLE * |rest| + 3 + WeightAt(next)
    case Committing(_, rest, _, next) => SETTLE * |rest| + 2 + WeightAt(next)
    case Reporting(rest, _, next) => SETTLE * |rest| + 1 + WeightAt(next)
    case Waiting => 1
    case Exited => 0
  }

  function Left(attempt: nat): nat {
    if attempt < MAX_STORE_ATTEMPTS then MAX_STORE_ATTEMPTS - attempt else 0
  }

  function WeightAt(next: Next): nat {
    match next
    case ToTop => 1
    case ToIdle => 1
    case ToCollect(draining) => if draining then 1 else 2
    case ToExit => 0
  }

  function WeightOfAll(pcs: seq<Pc>): nat {
    if pcs == [] then 0 else WeightOfAll(pcs[..|pcs| - 1]) + Weight(pcs[|pcs| - 1])
  }

  lemma {:induction false} WeightUpdate(pcs: seq<Pc>, a: nat, pc: Pc)
    requires a < |pcs|
    ensures WeightOfAll(pcs[a := pc]) + Weight(pcs[a]) == WeightOfAll(pcs) + Weight(pc)
  {
    var before, last := pcs[..|pcs| - 1], |pcs| - 1;
    if a == last {
      assert pcs[a := pc][..last] == before;
    } else {
      assert pcs[a := pc][..last] == before[a := pc];
      WeightUpdate(before, a, pc);
    }
  }

  function Measure(s: State): nat {
    WeightOfAll(s.pcs) + IN_DELIVERY_CHANNEL * |s.deliveryCh| + IN_EVENT_CHANNEL * |s.eventCh|
  }

  ghost predicate Stopping(c: Config, s: State) {
    Protocol(c, s) && s.cancelled && ModeOf(c) != Single
  }

  /** A tick with nothing buffered changes nothing. */
  predicate Stutters(s: State, step: Step) {
    step.Gather? && step.gather.Tick? && step.a < |s.pcs| && s.pcs[step.a] == Collecting([], false)
  }

  /** What the change takes from the goroutine and the channels outweighs what it puts back. */
  ghost predicate Lighter(s: State, a: nat, d: Delta) {
    a < |s.pcs| &&
    Weight(d.pc) + IN_DELIVERY_CHANNEL * |d.deliveryCh| + IN_EVENT_CHANNEL * |d.eventCh|
    < Weight(s.pcs[a]) + IN_DELIVERY_CHANNEL * |s.deliveryCh| + IN_EVENT_CHANNEL * |s.eventCh|
  }

  lemma NextOfWeight(rest: seq<nat>, dead: bool, next: Next)
    ensures Weight(NextOf(rest, dead, next)) <= SETTLE * |rest| + WeightAt(next)
    ensures Weight(Return(next)) == WeightAt(next)
    ensures Weight(Flush(rest, next)) <= (if rest == [] then 0 else SETTLE * |rest| + 3) + WeightAt(next)
  {
  }

  lemma UpLighter(c: Config, s: State, a: nat, up: UpStep)
    requires Stopping(c, s) && UpEnabled(c, s, a, up)
    ensures Lighter(s, a, UpDelta(c, s, a, up))
  {
    assert Fits(c, RoleOf(c, a), s.pcs[a]);
  }

  lemma GatherLighter(c: Config, s: State, a: nat, gather: GatherStep)
    requires Stopping(c, s) && GatherEnabled(s, a, gather) && !Stutters(s, Gather(a, gather))
    ensures Lighter(s, a, GatherDelta(c, s, a, gather))
  {
    var pc := s.pcs[a];
    if gather.Take? {
      NextOfWeight(pc.batch + [s.eventCh[0]], false, ToCollect(pc.draining));
    } else if gather.Tick? {
      NextOfWeight(pc.batch, false, ToCollect(false));
    } else {
      NextOfWeight(pc.batch, false, ToExit);
    }
  }

  lemma StoreLighter(c: Config, s: State, a: nat, store: StoreStep)
    requires Stopping(c, s) && StoreEnabled(s, a, store)
    ensures Lighter(s, a, StoreDelta(c, s, a, store))
  {
    assert Fits(c, RoleOf(c, a), s.pcs[a]);
    NextOfWeight(s.pcs[a].batch, !store.StoreOk?, s.pcs[a].next);
  }

  lemma SettleLighter(c: Config, s: State, a: nat, settle: SettleStep)
    requires Stopping(c, s) && SettleEnabled(s, a, settle)
    ensures Lighter(s, a, SettleDelta(c, s, a, settle))
  {
    var pc := s.pcs[a];
    SettleKeepsChannels(c, s, a, settle);
    SettlePcLighter(c, s, a, settle);
  }

  lemma SettlePcLighter(c: Config, s: State, a: nat, settle: SettleStep)
    requires SettleEnabled(s, a, settle)
    ensures Weight(SettleDelta(c, s, a, settle).pc) < Weight(s.pcs[a])
  {
    var pc := s.pcs[a];
    NextOfWeight(pc.rest, pc.DeadLetter? || pc.dead, pc.next);
  }

  lemma SettleKeepsChannels(c: Config, s: State, a: nat, settle: SettleStep)
    requires SettleEnabled(s, a, settle)
    ensures SettleDelta(c, s, a, settle).deliveryCh == s.deliveryCh && SettleDelta(c, s, a, settle).eventCh == s.eventCh
  {
  }

  lemma ApplyLighter(c: Config, s: State, a: nat, d: Delta)
    requires a < |s.pcs| && Lighter(s, a, d)
    ensures Measure(Apply(c, s, a, d)) < Measure(s)
  {
    WeightUpdate(s.pcs, a, d.pc);
  }

  /** Every step of a stopping pipeline uses up the measure, or is an empty tick and changes nothing. */
  lemma StoppingStep(c: Config, s: State, step: Step)
    requires Stopping(c, s) && Enabled(c, s, step)
    ensures Stopping(c, Do(c, s, step))
    ensures if Stutters(s, step) then Do(c, s, step) == s else Measure(Do(c, s, step)) < Measure(s)
  {
    StepKeepsProtocol(c, s, step);
    match step
    case Cancel =>
    case Up(a, up) => UpLighter(c, s, a, up); ApplyLighter(c, s, a, UpDelta(c, s, a, up));
    case Gather(a, gather) =>
      if !Stutters(s, step) { GatherLighter(c, s, a, gather); ApplyLighter(c, s, a, GatherDelta(c, s, a, gather)); }
    case Store(a, store) => StoreLighter(c, s, a, store); ApplyLighter(c, s, a, StoreDelta(c, s, a, store));
    case Settle(a, settle) => SettleLighter(c, s, a, settle); ApplyLighter(c, s, a, SettleDelta(c, s, a, settle));
  }

  /** The steps of a run that are not empty ticks. */
  function Work(c: Config, s: State, steps: seq<Step>): nat
    requires CanRun(c, s, steps)
    decreases steps
  {
    if steps == [] then 0
    else (if Stutters(s, steps[0]) then 0 else 1) + Work(c, Do(c, s, steps[0]), steps[1..])
  }

  /** However the goroutines interleave, a stopping pipeline does no more steps than its measure says. */
  lemma {:induction false} ShutdownIsBounded(c: Config, s: State, steps: seq<Step>)
    requires Stopping(c, s) && CanRun(c, s, steps)
    ensures Work(c, s, steps) + Measure(After(c, s, steps)) <= Measure(s)
    ensures Stopping(c, After(c, s, steps))
    decreases steps
  {
    if steps != [] {
      StoppingStep(c, s, steps[0]);
      ShutdownIsBounded(c, Do(c, s, steps[0]), steps[1..]);
    }
  }

  ghost predicate AllExited(s: State) {
    forall a | 0 <= a < |s.pcs| :: s.pcs[a].Exited?
  }

  /** A step the goroutine can take in a stopping pipeline without any other moving first. */
  function WayOut(s: State, a: nat): Step
    requires a < |s.pcs|
  {
    match s.pcs[a]
    case InPoll => Up(a, PollError)
    case Transforming(_) => Up(a, TransformError(false))
    case Waiting => Up(a, CloseEvents)
    case Collecting(_, draining) => Gather(a, if draining then Deadline else SeeCancel)
    case Storing(_, _, _) => Store(a, StoreOk)
    case DeadLetter(_, _, _) => Settle(a, RecordFailure(false))
    case Acking(_, _, _, _) => Settle(a, CompleteAck)
    case Committing(_, _, _, _) => Settle(a, CommitReply(false, false, false))
    case Reporting(_, _, _) => Settle(a, Report)
    case _ => Up(a, Quit)
  }

  /**
    Nobody waits for another goroutine, except the one that waits for the workers: a live
    goroutine can go on by itself, whatever the channels hold.
   */
  lemma NobodyBlocks(c: Config, s: State, a: nat, resumed: map<int, int>)
    requires Stopping(c, s) && Invariant(c, s, resumed)
    requires a < |s.pcs| && !s.pcs[a].Exited?
    requires s.pcs[a].Waiting? ==> WorkersExited(c, s)
    ensures Enabled(c, s, WayOut(s, a)) && !Stutters(s, WayOut(s, a))
  {
    SettlingNeverStuck(c, s, a, resumed);
  }

  /** As long as a goroutine is live, some step makes progress. */
  lemma NoDeadlock(c: Config, s: State, resumed: map<int, int>)
    requires Stopping(c, s) && Invariant(c, s, resumed) && !AllExited(s)
    ensures exists step :: Enabled(c, s, step) && !Stutters(s, step)
  {
    var a :| 0 <= a < |s.pcs| && !s.pcs[a].Exited?;
    if s.pcs[a].Waiting? && !WorkersExited(c, s) {
      var w :| 1 <= w <= Workers(c) && w < |s.pcs| && !s.pcs[w].Exited?;
      assert Fits(c, RoleOf(c, a), s.pcs[a]) && Fits(c, RoleOf(c, w), s.pcs[w]);
      NobodyBlocks(c, s, w, resumed);
    } else {
      NobodyBlocks(c, s, a, resumed);
    }
  }

  /**
    Over every run, at whatever moment the cancellation comes: a run whose goroutines have done all
    they can has ended every one of them, both channels are closed exactly once as far as the mode
    has them, and each fetched delivery is acked, given up unacked, or left unread in a channel.
   */
  lemma StoppedMeansExited(
      c: Config, rows: map<string, string>, failures: set<FailureRecord>, broker: map<int, int>, steps: seq<Step>)
    requires ModeOf(c) != Single && CanRun(c, Init(c, rows, failures, broker), steps)
    requires
      var s := After(c, Init(c, rows, failures, broker), steps);
      s.cancelled && forall step | Enabled(c, s, step) :: Stutters(s, step)
    ensures
      var s := After(c, Init(c, rows, failures, broker), steps);
      && AllExited(s)
      && s.eventCloses == 1 && s.deliveryCloses == (if ModeOf(c) == Pool then 1 else 0)
      && forall i: nat | i < |s.fetched| ::
           Count(s.acked, i) + Count(s.dropped, i) + Count(s.deliveryCh, i) + Count(s.eventCh, i) == 1
  {
    var s := After(c, Init(c, rows, failures, broker), steps);
    EveryRun(c, rows, failures, broker, steps);
    if !AllExited(s) { NoDeadlock(c, s, broker); }
    forall i: nat | i < |s.fetched|
      ensures Count(s.acked, i) + Count(s.dropped, i) + Count(s.deliveryCh, i) + Count(s.eventCh, i) == 1
    {
      NobodyHolds(s.pcs, i);
      assert Places(s, i) == 1;
    }
  }

  lemma FirstStep(c: Config, s: State, step: Step, rest: seq<Step>)
    requires Enabled(c, s, step) && CanRun(c, Do(c, s, step), rest)
    ensures CanRun(c, s, [step] + rest) && After(c, s, [step] + rest) == After(c, Do(c, s, step), rest)
  {
    assert ([step] + rest)[1..] == rest;
  }

  ghost predicate StopsWithin(c: Config, s: State, n: nat) {
    exists steps :: CanRun(c, s, steps) && |steps| <= n && AllExited(After(c, s, steps))
  }

  lemma StopsOneEarlier(c: Config, s: State, step: Step, n: nat)
    requires Enabled(c, s, step) && StopsWithin(c, Do(c, s, step), n)
    ensures StopsWithin(c, s, n + 1)
  {
    var t := Do(c, s, step);
    var rest :| CanRun(c, t, rest) && |rest| <= n && AllExited(After(c, t, rest));
    FirstStep(c, s, step, rest);
  }

  /** The stop is always within reach: from a stopping state some continuation ends every goroutine. */
  lemma {:induction false} StopIsReachable(c: Config, s: State, resumed: map<int, int>)
    requires Stopping(c, s) && Invariant(c, s, resumed)
    ensures StopsWithin(c, s, Measure(s))
    decreases Measure(s)
  {
    if AllExited(s) {
      assert CanRun(c, s, []) && After(c, s, []) == s;
    } else {
      NoDeadlock(c, s, resumed);
      var step :| Enabled(c, s, step) && !Stutters(s, step);
      StoppingStep(c, s, step);
      StepKeepsInvariant(c, s, step, resumed);
      StopIsReachable(c, Do(c, s, step), resumed);
      StopsOneEarlier(c, s, step, Measure(Do(c, s, step)));
    }
  }

  // ---- The single mode ----

  /** The same for the one goroutine of the single mode, which looks at the context only behind an error. */
  function SingleWeight(pc: Pc): nat {
    match pc
    case Top => 6
    case InPoll => 5
    case Transforming(_) => 4
    case Storing(_, attempt, _) => Left(attempt)
    case DeadLetter(_, rest, _) => 10 + SETTLE * |rest|
    case Acking(_, rest, _, _) => 9 + SETTLE * |rest|
    case Committing(_, rest, _, _) => 8 + SETTLE * |rest|
    case Reporting(rest, _, _) => 7 + SETTLE * |rest|
    case _ => 0
  }

  /** What a store that succeeds under the cancelled context may add: acking the delivery, and one more poll. */
  const PER_STORE := 9

  predicate Stores(step: Step) {
    step.Store? && step.store.StoreOk?
  }

  function StoreCount(steps: seq<Step>): nat
    decreases steps
  {
    if steps == [] then 0 else (if Stores(steps[0]) then 1 else 0) + StoreCount(steps[1..])
  }

  ghost predicate StoppingSingle(c: Config, s: State) {
    Protocol(c, s) && s.cancelled && ModeOf(c) == Single
  }

  lemma SingleNextOf(rest: seq<nat>, dead: bool)
    ensures SingleWeight(NextOf(rest, dead, ToTop)) <= 6 + SETTLE * |rest|
  {
  }

  lemma SingleStep(c: Config, s: State, step: Step)
    requires StoppingSingle(c, s) && Enabled(c, s, step)
    ensures StoppingSingle(c, Do(c, s, step))
    ensures 1 + SingleWeight(Do(c, s, step).pcs[0]) <= SingleWeight(s.pcs[0]) + if Stores(step) then PER_STORE else 0
  {
    StepKeepsProtocol(c, s, step);
    assert Fits(c, RoleOf(c, 0), s.pcs[0]);
    if step.Settle? { SingleNextOf(s.pcs[0].rest, s.pcs[0].DeadLetter? || s.pcs[0].dead); }
  }

  /**
    A cancelled single mode does no more steps than its weight says, and at most nine for each store
    that still succeeds.
   */
  lemma {:induction false} SingleModeBound(c: Config, s: State, steps: seq<Step>)
    requires StoppingSingle(c, s) && CanRun(c, s, steps)
    ensures StoppingSingle(c, After(c, s, steps))
    ensures |steps| + SingleWeight(After(c, s, steps).pcs[0]) <= SingleWeight(s.pcs[0]) + PER_STORE * StoreCount(steps)
    decreases steps
  {
    if steps != [] {
      SingleStep(c, s, steps[0]);
      SingleModeBound(c, Do(c, s, steps[0]), steps[1..]);
    }
  }

  /** A step that a cancelled single mode can take without a store that succeeds. */
  function SingleWayOut(s: State): Step
    requires |s.pcs| > 0
  {
    if s.pcs[0].Top? then Up(0, BeginPoll)
    else if s.pcs[0].Storing? then Store(0, StoreTerminal(0, true))
    else WayOut(s, 0)
  }

  /** The storer refuses a context that is done: of the attempts, only one already under way may succeed. */
  predicate Refuses(steps: seq<Step>) {
    forall k | 1 <= k < |steps| :: !Stores(steps[k])
  }

  lemma {:induction false} NoStores(steps: seq<Step>)
    requires forall k | 0 <= k < |steps| :: !Stores(steps[k])
    ensures StoreCount(steps) == 0
    decreases steps
  {
    if steps != [] { NoStores(steps[1..]); }
  }

  /**
    So with a storer that refuses a context that is done the single mode stops: its run is bounded,
    and wherever it has not exited it can go on without a successful store.
   */
  lemma SingleModeStops(c: Config, s: State, steps: seq<Step>, resumed: map<int, int>)
    requires StoppingSingle(c, s) && Invariant(c, s, resumed) && CanRun(c, s, steps) && Refuses(steps)
    ensures
      var t := After(c, s, steps);
      && |steps| <= SingleWeight(s.pcs[0]) + PER_STORE
      && (!AllExited(t) ==> Enabled(c, t, SingleWayOut(t)) && !Stores(SingleWayOut(t)))
  {
    if steps != [] { NoStores(steps[1..]); }
    SingleModeBound(c, s, steps);
    RunKeepsInvariant(c, s, steps, resumed);
    var t := After(c, s, steps);
    assert Fits(c, RoleOf(c, 0), t.pcs[0]);
    SettlingNeverStuck(c, t, 0, resumed);
  }

  lemma {:induction false} RunConcat(c: Config, s: State, a: seq<Step>, b: seq<Step>)
    requires CanRun(c, s, a) && CanRun(c, After(c, s, a), b)
    ensures CanRun(c, s, a + b) && After(c, s, a + b) == After(c, After(c, s, a), b)
    decreases a
  {
    if a == [] {
      assert a + b == b;
    } else {
      var rest := a[1..];
      RunConcat(c, Do(c, s, a[0]), rest, b);
      FirstStep(c, s, a[0], rest + b);
      HeadAndTail(a, b);
    }
  }

  lemma HeadAndTail(a: seq<Step>, b: seq<Step>)
    requires a != []
    ensures [a[0]] + (a[1..] + b) == a + b
  {
  }

  lemma {:induction false} StoreCountConcat(a: seq<Step>, b: seq<Step>)
    ensures StoreCount(a + b) == StoreCount(a) + StoreCount(b)
    decreases a
  {
    if a == [] {
      assert a + b == b;
    } else {
      assert (a + b)[1..] == a[1..] + b;
      StoreCountConcat(a[1..], b);
    }
  }

  lemma RunOn(c: Config, s: State, a: seq<Step>, b: seq<Step>)
    requires CanRun(c, s, a) && CanRun(c, After(c, s, a), b)
    ensures CanRun(c, s, a + b) && After(c, s, a + b) == After(c, After(c, s, a), b)
    ensures StoreCount(a + b) == StoreCount(a) + StoreCount(b)
  {
    RunConcat(c, s, a, b);
    StoreCountConcat(a, b);
  }

  lemma OneStep(c: Config, s: State, step: Step)
    requires Enabled(c, s, step)
    ensures CanRun(c, s, [step]) && After(c, s, [step]) == Do(c, s, step)
    ensures StoreCount([step]) == if Stores(step) then 1 else 0
  {
    assert [step][1..] == [];
  }

  /** A message is polled, stored and acked, and the goroutine is back at the head. */
  lemma OneMore(c: Config, s: State, m: Message) returns (steps: seq<Step>)
    requires ModeOf(c) == Single && s.pcs == [Top] && c.decodes(m)
    ensures CanRun(c, s, steps) && StoreCount(steps) == 1
    ensures After(c, s, steps).pcs == [Top] && After(c, s, steps).cancelled == s.cancelled
  {
    var s1 := Do(c, s, Up(0, BeginPoll));
    var s2 := Do(c, s1, Up(0, Fetch(m, true)));
    var s3 := Do(c, s2, Up(0, TransformOk));
    OneStep(c, s, Up(0, BeginPoll));
    OneStep(c, s1, Up(0, Fetch(m, true)));
    OneStep(c, s2, Up(0, TransformOk));
    RunOn(c, s, [Up(0, BeginPoll)], [Up(0, Fetch(m, true))]);
    RunOn(c, s, [Up(0, BeginPoll)] + [Up(0, Fetch(m, true))], [Up(0, TransformOk)]);
    var rest := SettlesAlone(c, s3, |s.fetched|);
    steps := ([Up(0, BeginPoll)] + [Up(0, Fetch(m, true))]) + [Up(0, TransformOk)];
    RunOn(c, s, steps, rest);
    steps := steps + rest;
  }

  lemma SettlesAlone(c: Config, s: State, i: nat) returns (steps: seq<Step>)
    requires s.pcs == [Storing([i], 0, ToTop)] && i < |s.fetched| && s.fetched[i].partition in s.world.parts
    ensures CanRun(c, s, steps) && StoreCount(steps) == 1
    ensures After(c, s, steps).pcs == [Top] && After(c, s, steps).cancelled == s.cancelled
  {
    var s4 := Do(c, s, Store(0, StoreOk));
    var s5 := Do(c, s4, Settle(0, CompleteAck));
    OneStep(c, s, Store(0, StoreOk));
    OneStep(c, s4, Settle(0, CompleteAck));
    RunOn(c, s, [Store(0, StoreOk)], [Settle(0, CompleteAck)]);
    steps := [Store(0, StoreOk)] + [Settle(0, CompleteAck)];
    if s5.pcs[0].Committing? {
      OneStep(c, s5, Settle(0, CommitReply(true, true, false)));
      RunOn(c, s, steps, [Settle(0, CommitReply(true, true, false))]);
      steps := steps + [Settle(0, CommitReply(true, true, false))];
    }
  }

  /**
    And only the stores bound it: as long as the reader has messages and stores succeed under the
    cancelled context, the single mode goes on, for any number of them.
   */
  lemma {:induction false} SingleModeGoesOn(c: Config, s: State, m: Message, n: nat) returns (steps: seq<Step>)
    requires ModeOf(c) == Single && s.cancelled && s.pcs == [Top] && c.decodes(m)
    ensures CanRun(c, s, steps) && StoreCount(steps) == n && After(c, s, steps).pcs == [Top]
    decreases n
  {
    steps := [];
    if n > 0 {
      steps := OneMore(c, s, m);
      var rest := SingleModeGoesOn(c, After(c, s, steps), m, n - 1);
      RunOn(c, s, steps, rest);
      steps := steps + rest;
    }
  }
}
