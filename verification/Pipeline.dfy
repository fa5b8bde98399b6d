/**
  The ingestion pipeline as a step system. The goroutines of the three modes are actors with a
  program counter; channels, the stores, the committer and the broker are shared. A step is what
  one goroutine does between two points where another may run; a run is any interleaving.
 */
module Pipeline {
  import opened Committer
  import opened Options
  import Repository
  import Retry

  const MAX_STORE_ATTEMPTS := Retry.MAX_STORE_ATTEMPTS

  /**
    `idOf` and `dataOf` are the event id and the data that the transformer gives to the message at a
    place of the log, `decodes` says whether the record there decodes to a message at all.
   */
  datatype Config = Config(
    numWorkers: int, batchSize: int,
    idOf: Message -> string, dataOf: Message -> string, decodes: Message -> bool)

  function AtLeastOne(n: int): nat {
    if n <= 0 then 1 else n
  }

  function Workers(c: Config): nat { AtLeastOne(c.numWorkers) }

  function BatchSize(c: Config): nat { AtLeastOne(c.batchSize) }

  datatype Mode = Single | Batch | Pool

  function ModeOf(c: Config): Mode {
    if Workers(c) == 1 then if BatchSize(c) == 1 then Single else Batch else Pool
  }

  datatype Role = Producer | Worker | Closer | Batcher

  function Actors(c: Config): nat {
    match ModeOf(c)
    case Single => 1
    case Batch => 2
    case Pool => Workers(c) + 3
  }

  function RoleOf(c: Config, a: nat): Role {
    if a == 0 then Producer
    else if ModeOf(c) == Pool && a <= Workers(c) then Worker
    else if ModeOf(c) == Pool && a == Workers(c) + 1 then Closer
    else Batcher
  }

  function DeliveryCapacity(c: Config): nat { Workers(c) * 10 }

  function EventCapacity(c: Config): nat {
    if ModeOf(c) == Batch then BatchSize(c) * 2 else Workers(c) * BatchSize(c)
  }

  /** Where a goroutine goes on once it has stored, dead-lettered or acked what it had. */
  datatype Next = ToTop | ToIdle | ToCollect(draining: bool) | ToExit

  /** Deliveries are named by their serial, the position in the order of fetching. */
  datatype Pc =
    | Top                                                             // at the head of the poll loop
    | InPoll
    | Holding(i: nat)                                                 // sending to the delivery channel
    | Idle                                                            // receiving from the delivery channel
    | Transforming(i: nat)
    | Sending(i: nat)                                                 // sending to the event channel
    | Collecting(batch: seq<nat>, draining: bool)
    | Storing(batch: seq<nat>, attempt: nat, next: Next)
    | DeadLetter(i: nat, rest: seq<nat>, next: Next)                  // about to write a failure record
    | Acking(i: nat, rest: seq<nat>, dead: bool, next: Next)          // about to enter the committer's lock
    | Committing(commit: Message, rest: seq<nat>, dead: bool, next: Next)   // outside the lock again
    | Reporting(rest: seq<nat>, dead: bool, next: Next)               // the commit failed
    | Waiting                                                         // for the workers to exit
    | Exited

  /** The committer's view of one partition, with what it has been told so far. */
  datatype Part = Part(start: int, done: set<int>, progress: Progress)

  /** An accepted failure record: it holds the message itself only if there was one to hold. */
  datatype FailureRecord = FailureRecord(m: Message, withMessage: bool)

  /** What outlives a step of one goroutine outside its channels: stores, committer and broker. */
  datatype World = World(
    rows: map<string, string>,     // the events table: the data under each event id
    failures: set<FailureRecord>,         // failure records that a store accepted
    parts: map<int, Part>,
    issued: set<Message>,          // messages chosen for a commit under the lock
    broker: map<int, int>)         // the broker's offsets: the next one to read

  datatype State = State(
    cancelled: bool,
    pcs: seq<Pc>,
    deliveryCh: seq<nat>, deliveryCloses: nat,
    eventCh: seq<nat>, eventCloses: nat,
    fetched: seq<Message>, acked: seq<nat>, dropped: seq<nat>,
    world: World)

  function FirstPc(c: Config, a: nat): Pc {
    match RoleOf(c, a)
    case Producer => Top
    case Worker => Idle
    case Closer => Waiting
    case Batcher => Collecting([], false)
  }

  /** A process start: nothing in memory, the stores and the broker as an earlier process left them. */
  function Init(c: Config, rows: map<string, string>, failures: set<FailureRecord>, broker: map<int, int>): State {
    State(false, seq(Actors(c), a requires 0 <= a < Actors(c) => FirstPc(c, a)), [], 0, [], 0,
          [], [], [], World(rows, failures, map[], {}, broker))
  }

  /** Polling, the transformer and the two channels, up to the sends to the event channel and its close. */
  datatype UpStep =
    | BeginPoll
    | PollError
    | Fetch(m: Message, good: bool)
    | SendDelivery
    | Receive
    | ReceiveClosed
    | TransformOk
    | TransformError(terminal: bool)
    | SendEvent
    | Quit
    | CloseEvents

  /** The batcher, between two store calls. */
  datatype GatherStep = Take | Tick | SeeClosed | SeeCancel | Deadline

  /**
    One attempt to store a batch, with the number of events a failing one has written; or giving up
    in the wait behind it.
   */
  datatype StoreStep = StoreOk | StoreTransient(n: nat) | StoreTerminal(n: nat, expired: bool) | StoreAbort

  /** Failure records, acks and commits. A failing commit may still have reached the broker. */
  datatype SettleStep =
    | RecordFailure(ok: bool)
    | CompleteAck
    | CommitReply(ok: bool, landed: bool, expired: bool)
    | Report

  datatype Step =
    | Cancel
    | Up(a: nat, up: UpStep)
    | Gather(a: nat, gather: GatherStep)
    | Store(a: nat, store: StoreStep)
    | Settle(a: nat, settle: SettleStep)

  // ---- Parts of steps ----

  /** Where an actor returns to between two deliveries. */
  function Home(c: Config, a: nat): Next {
    if RoleOf(c, a) == Worker then ToIdle else ToTop
  }

  function Return(next: Next): Pc {
    match next
    case ToTop => Top
    case ToIdle => Idle
    case ToCollect(d) => Collecting([], d)
    case ToExit => Exited
  }

  /** Go through deliveries one by one: dead-letter each, or ack each. */
  function NextOf(rest: seq<nat>, dead: bool, next: Next): Pc {
    if rest == [] then Return(next)
    else if dead then DeadLetter(rest[0], rest[1..], next)
    else Acking(rest[0], rest[1..], false, next)
  }

  function Flush(batch: seq<nat>, next: Next): Pc {
    if batch == [] then Return(next) else Storing(batch, 0, next)
  }

  /** Behind a store call that failed for good without being terminal, or whose context is done: nothing is acked. */
  function GiveUp(s: State, next: Next): Pc {
    if next == ToTop && s.cancelled then Exited else Return(next)
  }

  /** The store's context may be done: always while draining, which has its own deadline. */
  predicate MayExpire(s: State, next: Next) {
    match next
    case ToTop => s.cancelled
    case ToIdle => s.cancelled
    case ToCollect(d) => d || s.cancelled
    case ToExit => true
  }

  /** The store's context is surely done: it is the pipeline's own, and that is cancelled. */
  predicate MustExpire(s: State, next: Next) {
    s.cancelled && (next == ToTop || next == ToCollect(false))
  }

  /** INSERT OR IGNORE: an id that is there keeps its row. */
  function WithRow(c: Config, rows: map<string, string>, m: Message): map<string, string> {
    if c.idOf(m) in rows then rows else rows[c.idOf(m) := c.dataOf(m)]
  }

  function WithRows(c: Config, rows: map<string, string>, fetched: seq<Message>, batch: seq<nat>): map<string, string> {
    if batch == [] then rows
    else
      var n := |batch| - 1;
      var before := WithRows(c, rows, fetched, batch[..n]);
      if batch[n] < |fetched| then WithRow(c, before, fetched[batch[n]]) else before
  }

  /** The events of these deliveries have been written. */
  function Stored(c: Config, s: State, batch: seq<nat>): World {
    s.world.(rows := WithRows(c, s.world.rows, s.fetched, batch))
  }

  function Registered(parts: map<int, Part>, m: Message): map<int, Part> {
    if m.partition in parts then parts
    else parts[m.partition := Part(m.offset, {}, Progress(m.offset, {}))]
  }

  /** The message chosen for a commit when m is completed: the one below the watermark, if that moves. */
  function Commits(parts: map<int, Part>, m: Message): Option<Message>
    requires m.partition in parts
  {
    var p := parts[m.partition].progress;
    var q := Record(p, m.offset);
    if q.next > p.next then Some(Message(m.partition, q.next - 1)) else None
  }

  /** The critical section of the ack handler. */
  function WithCompleted(w: World, m: Message): World
    requires m.partition in w.parts
  {
    var part := w.parts[m.partition];
    w.(parts := w.parts[m.partition := Part(part.start, part.done + {m.offset}, Record(part.progress, m.offset))],
       issued := w.issued + if Commits(w.parts, m).Some? then {Commits(w.parts, m).value} else {})
  }

  // ---- Steps ----

  /**
    What a step of a goroutine changes: its program counter, the channels, and what is fetched,
    acked, given up or stored.
   */
  datatype Delta = Delta(
    pc: Pc, deliveryCh: seq<nat>, eventCh: seq<nat>,
    fetching: seq<Message>, acks: seq<nat>, drops: seq<nat>, world: World)

  function Only(s: State, pc: Pc): Delta {
    Delta(pc, s.deliveryCh, s.eventCh, [], [], [], s.world)
  }

  predicate UpEnabled(c: Config, s: State, a: nat, up: UpStep) {
    a < |s.pcs| &&
    var pc := s.pcs[a];
    match up
    case BeginPoll => pc.Top? && (ModeOf(c) == Single || !s.cancelled)
    case PollError => pc.InPoll?
    case Fetch(m, good) => pc.InPoll? && (good ==> c.decodes(m))
    case SendDelivery => pc.Holding? && |s.deliveryCh| < DeliveryCapacity(c)
    case Receive => pc.Idle? && s.deliveryCh != []
    case ReceiveClosed => pc.Idle? && s.deliveryCh == [] && s.deliveryCloses > 0
    case TransformOk => pc.Transforming?
    case TransformError(_) => pc.Transforming?
    case SendEvent => pc.Sending? && |s.eventCh| < EventCapacity(c)
    case Quit => s.cancelled && ((pc.Top? && ModeOf(c) != Single) || pc.Holding? || pc.Idle? || pc.Sending?)
    case CloseEvents => pc.Waiting? && forall w | 1 <= w <= Workers(c) && w < |s.pcs| :: s.pcs[w].Exited?
  }

  /**
    A record that does not decode or lacks a field is dead-lettered at the poll, unless the
    pipeline is stopping; an error behind the cancellation ends the goroutine and leaves its delivery unacked.
   */
  function UpDelta(c: Config, s: State, a: nat, up: UpStep): Delta
    requires UpEnabled(c, s, a, up)
  {
    var pc := s.pcs[a];
    match up
    case BeginPoll => Only(s, InPoll)
    case PollError => Only(s, if s.cancelled then Exited else Top)
    case Fetch(m, good) =>
      var i := |s.fetched|;
      var d := Only(s, if good then if ModeOf(c) == Pool then Holding(i) else Transforming(i)
                       else if s.cancelled then Exited else DeadLetter(i, [], ToTop));
      d.(fetching := [m], drops := if !good && s.cancelled then [i] else [],
         world := s.world.(parts := Registered(s.world.parts, m)))
    case SendDelivery => Only(s, Top).(deliveryCh := s.deliveryCh + [pc.i])
    case Receive => Only(s, Transforming(s.deliveryCh[0])).(deliveryCh := s.deliveryCh[1..])
    case ReceiveClosed => Only(s, Exited)
    case TransformOk => Only(s, if ModeOf(c) == Single then Storing([pc.i], 0, ToTop) else Sending(pc.i))
    case TransformError(terminal) =>
      if s.cancelled then Only(s, Exited).(drops := [pc.i])
      else if terminal then Only(s, DeadLetter(pc.i, [], Home(c, a)))
      else Only(s, Return(Home(c, a))).(drops := [pc.i])
    case SendEvent => Only(s, Return(Home(c, a))).(eventCh := s.eventCh + [pc.i])
    case Quit => Only(s, Exited).(drops := if pc.Holding? || pc.Sending? then [pc.i] else [])
    case CloseEvents => Only(s, Exited)
  }

  predicate GatherEnabled(s: State, a: nat, gather: GatherStep) {
    a < |s.pcs| && s.pcs[a].Collecting? &&
    match gather
    case Take => s.eventCh != []
    case Tick => !s.pcs[a].draining
    case SeeClosed => s.eventCh == [] && s.eventCloses > 0
    case SeeCancel => !s.pcs[a].draining && s.cancelled
    case Deadline => s.pcs[a].draining
  }

  function GatherDelta(c: Config, s: State, a: nat, gather: GatherStep): Delta
    requires GatherEnabled(s, a, gather)
  {
    var pc := s.pcs[a];
    match gather
    case Take =>
      var batch := pc.batch + [s.eventCh[0]];
      Only(s, if |batch| >= BatchSize(c) then Flush(batch, ToCollect(pc.draining)) else Collecting(batch, pc.draining))
      .(eventCh := s.eventCh[1..])
    case Tick => Only(s, Flush(pc.batch, ToCollect(false)))
    case SeeClosed => Only(s, Flush(pc.batch, ToExit))
    case SeeCancel => Only(s, Collecting(pc.batch, true))
    case Deadline => Only(s, Flush(pc.batch, ToExit))
  }

  predicate StoreEnabled(s: State, a: nat, store: StoreStep) {
    a < |s.pcs| && s.pcs[a].Storing? &&
    var Storing(batch, attempt, next) := s.pcs[a];
    match store
    case StoreOk => true
    case StoreTransient(n) => n <= |batch| && Repository.PossiblyWritten(|batch|, n)
    case StoreTerminal(n, expired) =>
      && n <= |batch| && Repository.PossiblyWritten(|batch|, n)
      && (expired ==> MayExpire(s, next)) && (MustExpire(s, next) ==> expired)
    case StoreAbort => attempt >= 1 && MayExpire(s, next)
  }

  function StoreDelta(c: Config, s: State, a: nat, store: StoreStep): Delta
    requires StoreEnabled(s, a, store)
  {
    var Storing(batch, attempt, next) := s.pcs[a];
    match store
    case StoreOk => Only(s, NextOf(batch, false, next)).(world := Stored(c, s, batch))
    case StoreTransient(n) =>
      if attempt + 1 < MAX_STORE_ATTEMPTS then
        Only(s, Storing(batch, attempt + 1, next)).(world := Stored(c, s, batch[..n]))
      else Only(s, GiveUp(s, next)).(world := Stored(c, s, batch[..n]), drops := batch)
    case StoreTerminal(n, expired) =>
      if expired then Only(s, GiveUp(s, next)).(world := Stored(c, s, batch[..n]), drops := batch)
      else Only(s, NextOf(batch, true, next)).(world := Stored(c, s, batch[..n]))
    case StoreAbort => Only(s, GiveUp(s, next)).(drops := batch)
  }

  predicate SettleEnabled(s: State, a: nat, settle: SettleStep) {
    a < |s.pcs| &&
    var pc := s.pcs[a];
    match settle
    case RecordFailure(_) => pc.DeadLetter? && pc.i < |s.fetched|
    case CompleteAck => pc.Acking? && pc.i < |s.fetched| && s.fetched[pc.i].partition in s.world.parts
    case CommitReply(_, _, _) => pc.Committing?
    case Report => pc.Reporting?
  }

  function SettleDelta(c: Config, s: State, a: nat, settle: SettleStep): Delta
    requires SettleEnabled(s, a, settle)
  {
    var pc, w := s.pcs[a], s.world;
    match settle
    case RecordFailure(ok) =>
      var m := s.fetched[pc.i];
      if ok then
        Only(s, Acking(pc.i, pc.rest, true, pc.next))
        .(world := w.(failures := w.failures + {FailureRecord(m, c.decodes(m))}))
      else Only(s, NextOf(pc.rest, true, pc.next)).(drops := [pc.i])
    case CompleteAck =>
      var m := s.fetched[pc.i];
      var commit := Commits(w.parts, m);
      Only(s, if commit.Some? then Committing(commit.value, pc.rest, pc.dead, pc.next)
              else NextOf(pc.rest, pc.dead, pc.next))
      .(acks := [pc.i], world := WithCompleted(w, m))
    case CommitReply(ok, landed, expired) =>
      Only(s, if ok || expired then NextOf(pc.rest, pc.dead, pc.next) else Reporting(pc.rest, pc.dead, pc.next))
      .(world := if ok || landed then w.(broker := w.broker[pc.commit.partition := pc.commit.offset + 1]) else w)
    case Report => Only(s, NextOf(pc.rest, pc.dead, pc.next))
  }

  predicate Enabled(c: Config, s: State, step: Step) {
    match step
    case Cancel => !s.cancelled
    case Up(a, up) => UpEnabled(c, s, a, up)
    case Gather(a, gather) => GatherEnabled(s, a, gather)
    case Store(a, store) => StoreEnabled(s, a, store)
    case Settle(a, settle) => SettleEnabled(s, a, settle)
  }

  /** The goroutine goes on at d.pc; one that returns closes the channel it was the last to send to. */
  function Apply(c: Config, s: State, a: nat, d: Delta): State
    requires a < |s.pcs|
  {
    var closesDelivery := d.pc.Exited? && RoleOf(c, a) == Producer && ModeOf(c) == Pool;
    var closesEvents := d.pc.Exited? && (RoleOf(c, a) == Closer || (RoleOf(c, a) == Producer && ModeOf(c) == Batch));
    State(s.cancelled, s.pcs[a := d.pc],
          d.deliveryCh, s.deliveryCloses + if closesDelivery then 1 else 0,
          d.eventCh, s.eventCloses + if closesEvents then 1 else 0,
          s.fetched + d.fetching, s.acked + d.acks, s.dropped + d.drops, d.world)
  }

  function Do(c: Config, s: State, step: Step): State
    requires Enabled(c, s, step)
  {
    match step
    case Cancel => s.(cancelled := true)
    case Up(a, up) => Apply(c, s, a, UpDelta(c, s, a, up))
    case Gather(a, gather) => Apply(c, s, a, GatherDelta(c, s, a, gather))
    case Store(a, store) => Apply(c, s, a, StoreDelta(c, s, a, store))
    case Settle(a, settle) => Apply(c, s, a, SettleDelta(c, s, a, settle))
  }

  // ---- Runs ----

  predicate CanRun(c: Config, s: State, steps: seq<Step>)
    decreases steps
  {
    steps == [] || (Enabled(c, s, steps[0]) && CanRun(c, Do(c, s, steps[0]), steps[1..]))
  }

  function After(c: Config, s: State, steps: seq<Step>): State
    requires CanRun(c, s, steps)
    decreases steps
  {
    if steps == [] then s else After(c, Do(c, s, steps[0]), steps[1..])
  }
}
