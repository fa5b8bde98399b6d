/**
  What every step of the pipeline keeps: goroutines stay where their code can be, channels are
  closed once and only behind their last sender, and each delivery is in exactly one place.
 */
module PipelineProtocol {
  import opened Committer
  import opened Options
  import opened Pipeline

  /** Which mode runs, and what its channels hold, told from the configured numbers; less than one counts as one. */
  lemma ConfiguredModes(c: Config)
    ensures ModeOf(c) == Single <==> c.numWorkers <= 1 && c.batchSize <= 1
    ensures ModeOf(c) == Batch <==> c.numWorkers <= 1 && c.batchSize > 1
    ensures ModeOf(c) == Pool <==> c.numWorkers > 1
    ensures ModeOf(c) == Batch ==> EventCapacity(c) == 2 * c.batchSize
    ensures ModeOf(c) == Pool ==> DeliveryCapacity(c) == 10 * c.numWorkers
    ensures ModeOf(c) == Pool && c.batchSize >= 1 ==> EventCapacity(c) == c.numWorkers * c.batchSize
    ensures ModeOf(c) == Pool && c.batchSize <= 0 ==> EventCapacity(c) == c.numWorkers
  {
  }

  // ---- Goroutines and channels ----

  /** Where a goroutine that settles deliveries in this role may go on. */
  predicate NextFits(role: Role, next: Next) {
    match role
    case Producer => next.ToTop?
    case Worker => next.ToIdle?
    case Closer => false
    case Batcher => next.ToCollect? || next.ToExit?
  }

  predicate Fits(c: Config, role: Role, pc: Pc) {
    match pc
    case Top => role == Producer
    case InPoll => role == Producer
    case Holding(_) => role == Producer && ModeOf(c) == Pool
    case Idle => role == Worker
    case Transforming(_) => role == Worker || (role == Producer && ModeOf(c) != Pool)
    case Sending(_) => role == Worker || (role == Producer && ModeOf(c) == Batch)
    case Collecting(batch, _) => role == Batcher && |batch| < BatchSize(c)
    case Storing(batch, attempt, next) =>
      && attempt < MAX_STORE_ATTEMPTS && NextFits(role, next) && 1 <= |batch| <= BatchSize(c)
      && (role == Batcher || (role == Producer && ModeOf(c) == Single))
    case DeadLetter(_, _, next) => NextFits(role, next)
    case Acking(_, _, _, next) => NextFits(role, next)
    case Committing(_, _, _, next) => NextFits(role, next)
    case Reporting(_, _, next) => NextFits(role, next)
    case Waiting => role == Closer
    case Exited => true
  }

  function ExitedCount(s: State, a: nat): nat
    requires a < |s.pcs|
  {
    if s.pcs[a].Exited? then 1 else 0
  }

  predicate WorkersExited(c: Config, s: State) {
    forall w | 1 <= w <= Workers(c) && w < |s.pcs| :: s.pcs[w].Exited?
  }

  ghost predicate Protocol(c: Config, s: State) {
    && |s.pcs| == Actors(c)
    && (forall a | 0 <= a < |s.pcs| :: Fits(c, RoleOf(c, a), s.pcs[a]))
    && s.deliveryCloses == (if ModeOf(c) == Pool then ExitedCount(s, 0) else 0)
    && s.eventCloses == (match ModeOf(c)
                         case Single => 0
                         case Batch => ExitedCount(s, 0)
                         case Pool => ExitedCount(s, Workers(c) + 1))
    && (ModeOf(c) == Pool && s.pcs[Workers(c) + 1].Exited? ==> WorkersExited(c, s))
    && |s.deliveryCh| <= DeliveryCapacity(c) && |s.eventCh| <= EventCapacity(c)
  }

  lemma InitProtocol(c: Config, rows: map<string, string>, failures: set<FailureRecord>, broker: map<int, int>)
    ensures Protocol(c, Init(c, rows, failures, broker))
  {
  }

  /** A change that leaves a live goroutine where its code can be, and the channels within capacity. */
  ghost predicate DeltaFits(c: Config, s: State, a: nat, d: Delta) {
    && a < |s.pcs| && !s.pcs[a].Exited?
    && Fits(c, RoleOf(c, a), d.pc)
    && (d.pc.Exited? && RoleOf(c, a) == Closer ==> WorkersExited(c, s))
    && |d.deliveryCh| <= DeliveryCapacity(c) && |d.eventCh| <= EventCapacity(c)
  }

  lemma UpFits(c: Config, s: State, a: nat, up: UpStep)
    requires Protocol(c, s) && UpEnabled(c, s, a, up)
    ensures DeltaFits(c, s, a, UpDelta(c, s, a, up))
  {
    assert Fits(c, RoleOf(c, a), s.pcs[a]);
  }

  lemma GatherFits(c: Config, s: State, a: nat, gather: GatherStep)
    requires Protocol(c, s) && GatherEnabled(s, a, gather)
    ensures DeltaFits(c, s, a, GatherDelta(c, s, a, gather))
  {
    assert Fits(c, RoleOf(c, a), s.pcs[a]);
  }

  lemma StoreFits(c: Config, s: State, a: nat, store: StoreStep)
    requires Protocol(c, s) && StoreEnabled(s, a, store)
    ensures DeltaFits(c, s, a, StoreDelta(c, s, a, store))
  {
    assert Fits(c, RoleOf(c, a), s.pcs[a]);
  }

  lemma SettleFits(c: Config, s: State, a: nat, settle: SettleStep)
    requires Protocol(c, s) && SettleEnabled(s, a, settle)
    ensures DeltaFits(c, s, a, SettleDelta(c, s, a, settle))
  {
    assert Fits(c, RoleOf(c, a), s.pcs[a]);
  }

  lemma ApplyKeepsProtocol(c: Config, s: State, a: nat, d: Delta)
    requires Protocol(c, s) && DeltaFits(c, s, a, d)
    ensures Protocol(c, Apply(c, s, a, d))
  {
  }

  lemma StepKeepsProtocol(c: Config, s: State, step: Step)
    requires Protocol(c, s) && Enabled(c, s, step)
    ensures Protocol(c, Do(c, s, step))
  {
    match step
    case Cancel =>
    case Up(a, up) => UpFits(c, s, a, up); ApplyKeepsProtocol(c, s, a, UpDelta(c, s, a, up));
    case Gather(a, gather) => GatherFits(c, s, a, gather); ApplyKeepsProtocol(c, s, a, GatherDelta(c, s, a, gather));
    case Store(a, store) => StoreFits(c, s, a, store); ApplyKeepsProtocol(c, s, a, StoreDelta(c, s, a, store));
    case Settle(a, settle) => SettleFits(c, s, a, settle); ApplyKeepsProtocol(c, s, a, SettleDelta(c, s, a, settle));
  }

  /**
    No goroutine sends on a closed channel, each channel is closed at most once, and once it is
    closed no goroutine is left that would send to it.
   */
  lemma ChannelDiscipline(c: Config, s: State)
    requires Protocol(c, s)
    ensures s.deliveryCloses <= 1 && s.eventCloses <= 1
    ensures s.deliveryCloses > 0 ==>
              forall a | 0 <= a < |s.pcs| :: !s.pcs[a].Holding? && !UpEnabled(c, s, a, SendDelivery)
    ensures s.eventCloses > 0 ==>
              forall a | 0 <= a < |s.pcs| :: !s.pcs[a].Sending? && !UpEnabled(c, s, a, SendEvent)
    ensures |s.deliveryCh| <= DeliveryCapacity(c) && |s.eventCh| <= EventCapacity(c)
  {
    assert forall a | 0 <= a < |s.pcs| :: Fits(c, RoleOf(c, a), s.pcs[a]);
  }

  // ---- Each delivery is in one place ----

  function Held(pc: Pc): seq<nat> {
    match pc
    case Holding(i) => [i]
    case Transforming(i) => [i]
    case Sending(i) => [i]
    case Collecting(batch, _) => batch
    case Storing(batch, _, _) => batch
    case DeadLetter(i, rest, _) => [i] + rest
    case Acking(i, rest, _, _) => [i] + rest
    case Committing(_, rest, _, _) => rest
    case Reporting(rest, _, _) => rest
    case _ => []
  }

  /** How often serial i occurs. */
  function Count(s: seq<nat>, i: nat): nat {
    if s == [] then 0 else (if s[0] == i then 1 else 0) + Count(s[1..], i)
  }

  lemma {:induction false} CountConcat(a: seq<nat>, b: seq<nat>, i: nat)
    ensures Count(a + b, i) == Count(a, i) + Count(b, i)
  {
    if a == [] {
      assert a + b == b;
    } else {
      assert (a + b)[1..] == a[1..] + b;
      CountConcat(a[1..], b, i);
    }
  }

  lemma {:induction false} CountIn(s: seq<nat>, i: nat)
    ensures i in s <==> Count(s, i) > 0
  {
    if s != [] {
      assert s == [s[0]] + s[1..];
      CountIn(s[1..], i);
    }
  }

  function HeldByAll(pcs: seq<Pc>, i: nat): nat {
    if pcs == [] then 0 else HeldByAll(pcs[..|pcs| - 1], i) + Count(Held(pcs[|pcs| - 1]), i)
  }

  lemma {:induction false} HeldByAllUpdate(pcs: seq<Pc>, a: nat, pc: Pc, i: nat)
    requires a < |pcs|
    ensures HeldByAll(pcs[a := pc], i) + Count(Held(pcs[a]), i) == HeldByAll(pcs, i) + Count(Held(pc), i)
  {
    var before, last := pcs[..|pcs| - 1], |pcs| - 1;
    if a == last {
      assert pcs[a := pc][..last] == before;
    } else {
      assert pcs[a := pc][..last] == before[a := pc];
      HeldByAllUpdate(before, a, pc, i);
    }
  }

  /** How often delivery i occurs over all places: goroutines, channels, acked, given up unacked. */
  function Places(s: State, i: nat): nat {
    HeldByAll(s.pcs, i) + Count(s.deliveryCh, i) + Count(s.eventCh, i) + Count(s.acked, i) + Count(s.dropped, i)
  }

  /** Each fetched delivery is in exactly one place, once, and no other is anywhere. */
  ghost predicate Conserved(s: State) {
    forall i: nat :: Places(s, i) == if i < |s.fetched| then 1 else 0
  }

  /** What a change takes from and puts into the goroutine's hands and the shared places balances. */
  ghost predicate Balanced(s: State, a: nat, d: Delta, i: nat) {
    a < |s.pcs| &&
    Count(Held(d.pc), i) + Count(d.deliveryCh, i) + Count(d.eventCh, i) + Count(d.drops, i) + Count(d.acks, i)
    ==
    Count(Held(s.pcs[a]), i) + Count(s.deliveryCh, i) + Count(s.eventCh, i) +
      if d.fetching != [] && i == |s.fetched| then 1 else 0
  }

  lemma NextOfHolds(rest: seq<nat>, dead: bool, next: Next)
    ensures Held(NextOf(rest, dead, next)) == rest && Held(Return(next)) == []
  {
  }

  lemma CountHead(x: nat, rest: seq<nat>, i: nat)
    ensures Count([x] + rest, i) == Count([x], i) + Count(rest, i)
    ensures Count(rest + [x], i) == Count(rest, i) + Count([x], i)
    ensures Count([x], i) == (if x == i then 1 else 0) && Count([], i) == 0
  {
    CountConcat([x], rest, i);
    CountConcat(rest, [x], i);
    assert [x][1..] == [];
  }

  lemma ChannelStepBalanced(c: Config, s: State, a: nat, up: UpStep, i: nat)
    requires UpEnabled(c, s, a, up) && (up.SendDelivery? || up.Receive? || up.SendEvent?)
    ensures Balanced(s, a, UpDelta(c, s, a, up), i)
  {
    var pc := s.pcs[a];
    if up.SendDelivery? { CountHead(pc.i, s.deliveryCh, i); }
    if up.SendEvent? { CountHead(pc.i, s.eventCh, i); }
    if up.Receive? {
      assert s.deliveryCh == [s.deliveryCh[0]] + s.deliveryCh[1..];
      CountHead(s.deliveryCh[0], s.deliveryCh[1..], i);
    }
  }

  lemma FetchBalanced(c: Config, s: State, a: nat, up: UpStep, i: nat)
    requires UpEnabled(c, s, a, up) && up.Fetch?
    ensures Balanced(s, a, UpDelta(c, s, a, up), i)
  {
    CountHead(|s.fetched|, [], i);
  }

  lemma UpBalanced(c: Config, s: State, a: nat, up: UpStep, i: nat)
    requires UpEnabled(c, s, a, up)
    ensures Balanced(s, a, UpDelta(c, s, a, up), i)
  {
    if up.SendDelivery? || up.Receive? || up.SendEvent? {
      ChannelStepBalanced(c, s, a, up, i);
    } else if up.Fetch? {
      FetchBalanced(c, s, a, up, i);
    } else {
      var d := UpDelta(c, s, a, up);
      assert d.deliveryCh == s.deliveryCh && d.eventCh == s.eventCh && d.acks == [] && d.fetching == [];
      CountHead(0, [], i);
    }
  }

  lemma GatherBalanced(c: Config, s: State, a: nat, gather: GatherStep, i: nat)
    requires GatherEnabled(s, a, gather)
    ensures Balanced(s, a, GatherDelta(c, s, a, gather), i)
  {
    if gather.Take? {
      assert s.eventCh == [s.eventCh[0]] + s.eventCh[1..];
      CountHead(s.eventCh[0], s.eventCh[1..], i);
      CountHead(s.eventCh[0], s.pcs[a].batch, i);
    }
  }

  lemma StoreBalanced(c: Config, s: State, a: nat, store: StoreStep, i: nat)
    requires StoreEnabled(s, a, store)
    ensures Balanced(s, a, StoreDelta(c, s, a, store), i)
  {
    NextOfHolds(s.pcs[a].batch, store.StoreTerminal?, s.pcs[a].next);
    assert Held(GiveUp(s, s.pcs[a].next)) == [];
  }

  lemma CompleteBalanced(c: Config, s: State, a: nat, i: nat)
    requires SettleEnabled(s, a, CompleteAck)
    ensures Balanced(s, a, SettleDelta(c, s, a, CompleteAck), i)
  {
    var pc, d := s.pcs[a], SettleDelta(c, s, a, CompleteAck);
    assert Held(d.pc) == pc.rest by { NextOfHolds(pc.rest, pc.dead, pc.next); }
    CountHead(pc.i, pc.rest, i);
  }

  lemma RecordBalanced(c: Config, s: State, a: nat, ok: bool, i: nat)
    requires SettleEnabled(s, a, RecordFailure(ok))
    ensures Balanced(s, a, SettleDelta(c, s, a, RecordFailure(ok)), i)
  {
    var pc := s.pcs[a];
    NextOfHolds(pc.rest, true, pc.next);
    CountHead(pc.i, pc.rest, i);
  }

  lemma SettleBalanced(c: Config, s: State, a: nat, settle: SettleStep, i: nat)
    requires SettleEnabled(s, a, settle)
    ensures Balanced(s, a, SettleDelta(c, s, a, settle), i)
  {
    var pc := s.pcs[a];
    match settle
    case CompleteAck => CompleteBalanced(c, s, a, i);
    case RecordFailure(ok) => RecordBalanced(c, s, a, ok, i);
    case CommitReply(_, _, _) => NextOfHolds(pc.rest, pc.dead, pc.next);
    case Report => NextOfHolds(pc.rest, pc.dead, pc.next);
  }

  lemma ApplyPlaces(c: Config, s: State, a: nat, d: Delta, i: nat)
    requires a < |s.pcs| && Balanced(s, a, d, i)
    ensures Places(Apply(c, s, a, d), i) == Places(s, i) + if d.fetching != [] && i == |s.fetched| then 1 else 0
  {
    HeldByAllUpdate(s.pcs, a, d.pc, i);
    CountConcat(s.acked, d.acks, i);
    CountConcat(s.dropped, d.drops, i);
  }

  lemma ApplyKeepsConserved(c: Config, s: State, a: nat, d: Delta)
    requires a < |s.pcs| && Conserved(s) && |d.fetching| <= 1 && forall i: nat :: Balanced(s, a, d, i)
    ensures Conserved(Apply(c, s, a, d))
  {
    forall i: nat
      ensures Places(Apply(c, s, a, d), i) == if i < |s.fetched| + |d.fetching| then 1 else 0
    {
      assert Balanced(s, a, d, i);
      assert Places(s, i) == if i < |s.fetched| then 1 else 0;
      ApplyPlaces(c, s, a, d, i);
    }
  }

  lemma StepKeepsConserved(c: Config, s: State, step: Step)
    requires Conserved(s) && Enabled(c, s, step)
    ensures Conserved(Do(c, s, step))
  {
    match step
    case Cancel =>
      assert forall i: nat :: Places(Do(c, s, step), i) == Places(s, i);
    case Up(a, up) =>
      forall i: nat { UpBalanced(c, s, a, up, i); }
      ApplyKeepsConserved(c, s, a, UpDelta(c, s, a, up));
    case Gather(a, gather) =>
      forall i: nat { GatherBalanced(c, s, a, gather, i); }
      ApplyKeepsConserved(c, s, a, GatherDelta(c, s, a, gather));
    case Store(a, store) =>
      forall i: nat { StoreBalanced(c, s, a, store, i); }
      ApplyKeepsConserved(c, s, a, StoreDelta(c, s, a, store));
    case Settle(a, settle) =>
      forall i: nat { SettleBalanced(c, s, a, settle, i); }
      ApplyKeepsConserved(c, s, a, SettleDelta(c, s, a, settle));
  }

  lemma {:induction false} NobodyHolds(pcs: seq<Pc>, i: nat)
    requires forall a | 0 <= a < |pcs| :: Held(pcs[a]) == []
    ensures HeldByAll(pcs, i) == 0
  {
    if pcs != [] { NobodyHolds(pcs[..|pcs| - 1], i); }
  }

  lemma InitConserved(c: Config, rows: map<string, string>, failures: set<FailureRecord>, broker: map<int, int>)
    ensures Conserved(Init(c, rows, failures, broker))
  {
    forall i: nat { NobodyHolds(Init(c, rows, failures, broker).pcs, i); }
  }

  /** So no delivery is acked twice, and an acked one is in no channel, with no goroutine and not given up. */
  lemma AckedOnce(s: State, i: nat)
    requires Conserved(s)
    ensures Count(s.acked, i) <= 1
    ensures i in s.acked ==>
              && i < |s.fetched| && i !in s.deliveryCh && i !in s.eventCh && i !in s.dropped
              && HeldByAll(s.pcs, i) == 0
  {
    assert Places(s, i) == if i < |s.fetched| then 1 else 0;
    CountIn(s.acked, i);
    CountIn(s.dropped, i);
    CountIn(s.deliveryCh, i);
    CountIn(s.eventCh, i);
  }

  lemma {:induction false} HeldInAll(pcs: seq<Pc>, a: nat, i: nat)
    requires a < |pcs| && i in Held(pcs[a])
    ensures HeldByAll(pcs, i) > 0
  {
    if a < |pcs| - 1 {
      HeldInAll(pcs[..|pcs| - 1], a, i);
    } else {
      CountIn(Held(pcs[a]), i);
    }
  }

  /** What a goroutine holds has been fetched. */
  lemma HeldIsFetched(s: State, a: nat, i: nat)
    requires Conserved(s) && a < |s.pcs| && i in Held(s.pcs[a])
    ensures i < |s.fetched|
  {
    HeldInAll(s.pcs, a, i);
    assert Places(s, i) == if i < |s.fetched| then 1 else 0;
  }

  // ---- What goes on to the store has decoded ----

  /** The deliveries a goroutine holds that have passed the poll and are not stored or dead-lettered yet. */
  function Passed(pc: Pc): seq<nat> {
    match pc
    case Holding(i) => [i]
    case Transforming(i) => [i]
    case Sending(i) => [i]
    case Collecting(batch, _) => batch
    case Storing(batch, _, _) => batch
    case _ => []
  }

  ghost predicate AllDecode(c: Config, fetched: seq<Message>, batch: seq<nat>) {
    forall i | i in batch :: i < |fetched| && c.decodes(fetched[i])
  }

  ghost predicate PassedDecode(c: Config, s: State) {
    && (forall a | 0 <= a < |s.pcs| :: AllDecode(c, s.fetched, Passed(s.pcs[a])))
    && AllDecode(c, s.fetched, s.deliveryCh) && AllDecode(c, s.fetched, s.eventCh)
  }

  ghost predicate DeltaDecodes(c: Config, s: State, d: Delta) {
    && AllDecode(c, s.fetched + d.fetching, Passed(d.pc))
    && AllDecode(c, s.fetched, d.deliveryCh) && AllDecode(c, s.fetched, d.eventCh)
  }

  lemma NextOfPasses(rest: seq<nat>, dead: bool, next: Next)
    ensures Passed(NextOf(rest, dead, next)) == [] && Passed(Return(next)) == []
    ensures Passed(Flush(rest, next)) == rest
  {
  }

  lemma UpDecodes(c: Config, s: State, a: nat, up: UpStep)
    requires PassedDecode(c, s) && UpEnabled(c, s, a, up)
    ensures DeltaDecodes(c, s, UpDelta(c, s, a, up))
  {
    var pc, d := s.pcs[a], UpDelta(c, s, a, up);
    assert AllDecode(c, s.fetched, Passed(pc));
    NextOfPasses([], false, Home(c, a));
    if !up.Fetch? { assert s.fetched + d.fetching == s.fetched; }
    if up.Receive? {
      assert s.deliveryCh[0] in s.deliveryCh && forall i | i in s.deliveryCh[1..] :: i in s.deliveryCh;
    }
  }

  lemma GatherDecodes(c: Config, s: State, a: nat, gather: GatherStep)
    requires PassedDecode(c, s) && GatherEnabled(s, a, gather)
    ensures DeltaDecodes(c, s, GatherDelta(c, s, a, gather))
  {
    var pc, d := s.pcs[a], GatherDelta(c, s, a, gather);
    assert AllDecode(c, s.fetched, Passed(pc)) && s.fetched + d.fetching == s.fetched;
    if gather.Take? {
      assert s.eventCh[0] in s.eventCh;
      NextOfPasses(pc.batch + [s.eventCh[0]], false, ToCollect(pc.draining));
    } else {
      NextOfPasses(pc.batch, false, if gather.Tick? then ToCollect(false) else ToExit);
    }
  }

  lemma StoreDecodes(c: Config, s: State, a: nat, store: StoreStep)
    requires PassedDecode(c, s) && StoreEnabled(s, a, store)
    ensures DeltaDecodes(c, s, StoreDelta(c, s, a, store))
  {
    var pc, d := s.pcs[a], StoreDelta(c, s, a, store);
    assert AllDecode(c, s.fetched, Passed(pc)) && s.fetched + d.fetching == s.fetched;
    NextOfPasses(pc.batch, !store.StoreOk?, pc.next);
  }

  lemma SettleDecodes(c: Config, s: State, a: nat, settle: SettleStep)
    requires PassedDecode(c, s) && SettleEnabled(s, a, settle)
    ensures DeltaDecodes(c, s, SettleDelta(c, s, a, settle))
  {
    var pc := s.pcs[a];
    assert s.fetched + SettleDelta(c, s, a, settle).fetching == s.fetched;
    NextOfPasses(pc.rest, pc.DeadLetter? || pc.dead, pc.next);
  }

  lemma ApplyKeepsDecoding(c: Config, s: State, a: nat, d: Delta)
    requires a < |s.pcs| && PassedDecode(c, s) && DeltaDecodes(c, s, d)
    ensures PassedDecode(c, Apply(c, s, a, d))
  {
    var t := Apply(c, s, a, d);
    forall b | 0 <= b < |t.pcs|
      ensures AllDecode(c, t.fetched, Passed(t.pcs[b]))
    {
      if b != a { assert AllDecode(c, s.fetched, Passed(s.pcs[b])); }
    }
  }

  lemma StepKeepsDecoding(c: Config, s: State, step: Step)
    requires PassedDecode(c, s) && Enabled(c, s, step)
    ensures PassedDecode(c, Do(c, s, step))
  {
    match step
    case Cancel =>
    case Up(a, up) => UpDecodes(c, s, a, up); ApplyKeepsDecoding(c, s, a, UpDelta(c, s, a, up));
    case Gather(a, gather) => GatherDecodes(c, s, a, gather); ApplyKeepsDecoding(c, s, a, GatherDelta(c, s, a, gather));
    case Store(a, store) => StoreDecodes(c, s, a, store); ApplyKeepsDecoding(c, s, a, StoreDelta(c, s, a, store));
    case Settle(a, settle) => SettleDecodes(c, s, a, settle); ApplyKeepsDecoding(c, s, a, SettleDelta(c, s, a, settle));
  }

  lemma InitDecodes(c: Config, rows: map<string, string>, failures: set<FailureRecord>, broker: map<int, int>)
    ensures PassedDecode(c, Init(c, rows, failures, broker))
  {
  }
}
