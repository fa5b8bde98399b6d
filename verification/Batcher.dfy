/**
  The batcher: a loop over the event channel, a ticker and the cancellation, which collects items
  in one buffer that it hands to the store and then fills again from the start.
 */
module Batchers {
  import Pipeline

  /** What the loop's select sees next. A tick while draining or a deadline before it selects nothing. */
  datatype Signal<T> = Tick | Item(x: T) | Closed | Cancelled | Deadline

  datatype Phase<T> = Running(batch: seq<T>, draining: bool) | Done

  /** Where a signal leads, and the batch it makes the loop flush, if that is not empty. */
  datatype Move<T> = Move(to: Phase<T>, flush: seq<T>)

  function Next<T>(size: nat, batch: seq<T>, draining: bool, signal: Signal<T>): Move<T> {
    match signal
    case Tick => if draining then Move(Running(batch, true), []) else Move(Running([], false), batch)
    case Item(x) =>
      if |batch| + 1 >= size then Move(Running([], draining), batch + [x]) else Move(Running(batch + [x], draining), [])
    case Closed => Move(Done, batch)
    case Cancelled => Move(Running(batch, true), [])
    case Deadline => if draining then Move(Done, batch) else Move(Running(batch, false), [])
  }

  /** A whole run: the phase it is in, the batches that reached the store, and the items received. */
  datatype Trace<T> = Trace(phase: Phase<T>, flushed: seq<seq<T>>, received: seq<T>)

  function Replay<T>(size: nat, signals: seq<Signal<T>>): Trace<T> {
    if signals == [] then Trace(Running([], false), [], [])
    else After(size, Replay(size, signals[..|signals| - 1]), signals[|signals| - 1])
  }

  function After<T>(size: nat, t: Trace<T>, signal: Signal<T>): Trace<T> {
    if t.phase.Done? then t
    else
      var m := Next(size, t.phase.batch, t.phase.draining, signal);
      Trace(m.to, if m.flush == [] then t.flushed else t.flushed + [m.flush],
            if signal.Item? then t.received + [signal.x] else t.received)
  }

  function Concat<T>(batches: seq<seq<T>>): seq<T> {
    if batches == [] then [] else Concat(batches[..|batches| - 1]) + batches[|batches| - 1]
  }

  function Pending<T>(phase: Phase<T>): seq<T> {
    if phase.Done? then [] else phase.batch
  }

  /**
    What a trace keeps: nothing received is lost, repeated or reordered, and each flush carries
    between one and `size` items; after the exit nothing is left behind.
   */
  ghost predicate Conserves<T>(size: nat, t: Trace<T>) {
    InOrder(t) && SizesFit(size, t)
  }

  ghost predicate InOrder<T>(t: Trace<T>) {
    Concat(t.flushed) + Pending(t.phase) == t.received
  }

  ghost predicate SizesFit<T>(size: nat, t: Trace<T>) {
    |Pending(t.phase)| < size && forall b | b in t.flushed :: 1 <= |b| <= size
  }

  lemma ConcatLast<T>(batches: seq<seq<T>>, b: seq<T>)
    ensures Concat(batches + [b]) == Concat(batches) + b
  {
    assert (batches + [b])[..|batches|] == batches;
  }

  /**
    A move keeps its items in order: what it flushes and what stays pending is what was pending and
    the item it took in.
   */
  lemma NextKeeps<T>(size: nat, batch: seq<T>, draining: bool, signal: Signal<T>)
    requires |batch| < size
    ensures
      var m := Next(size, batch, draining, signal);
      && m.flush + Pending(m.to) == (if signal.Item? then batch + [signal.x] else batch)
      && |m.flush| <= size && |Pending(m.to)| < size
  {
  }

  lemma FlushConserves<T>(flushed: seq<seq<T>>, flush: seq<T>, rest: seq<T>)
    ensures
      var all := if flush == [] then flushed else flushed + [flush];
      Concat(all) + rest == Concat(flushed) + (flush + rest)
  {
    ConcatLast(flushed, flush);
  }

  lemma AfterInOrder<T>(size: nat, t: Trace<T>, signal: Signal<T>)
    requires |Pending(t.phase)| < size && InOrder(t)
    ensures InOrder(After(size, t, signal))
  {
    if t.phase.Running? {
      var m := Next(size, t.phase.batch, t.phase.draining, signal);
      NextKeeps(size, t.phase.batch, t.phase.draining, signal);
      FlushConserves(t.flushed, m.flush, Pending(m.to));
      var taken := if signal.Item? then [signal.x] else [];
      assert t.phase.batch + taken == m.flush + Pending(m.to);
      assert Concat(t.flushed) + (t.phase.batch + taken) == (Concat(t.flushed) + t.phase.batch) + taken;
    }
  }

  lemma AfterSizesFit<T>(size: nat, t: Trace<T>, signal: Signal<T>)
    requires SizesFit(size, t)
    ensures SizesFit(size, After(size, t, signal))
  {
    if t.phase.Running? { NextKeeps(size, t.phase.batch, t.phase.draining, signal); }
  }

  /** Batcher conservation over every sequence of signals. */
  lemma {:induction false} ReplayConserves<T>(size: nat, signals: seq<Signal<T>>)
    requires size >= 1
    ensures Conserves(size, Replay(size, signals))
  {
    if signals != [] {
      ReplayConserves(size, signals[..|signals| - 1]);
      AfterInOrder(size, Replay(size, signals[..|signals| - 1]), signals[|signals| - 1]);
      AfterSizesFit(size, Replay(size, signals[..|signals| - 1]), signals[|signals| - 1]);
    }
  }

  lemma ReplayNext<T>(size: nat, signals: seq<Signal<T>>, k: nat)
    requires k < |signals|
    ensures Replay(size, signals[..k + 1]) == After(size, Replay(size, signals[..k]), signals[k])
  {
    assert signals[..k + 1][..k] == signals[..k];
  }

  /** An exited batcher reads nothing more. */
  lemma {:induction false} DoneForGood<T>(size: nat, signals: seq<Signal<T>>, k: nat)
    requires k <= |signals| && Replay(size, signals[..k]).phase.Done?
    ensures Replay(size, signals) == Replay(size, signals[..k])
    decreases |signals| - k
  {
    if k < |signals| {
      assert signals[..k + 1][..k] == signals[..k];
      DoneForGood(size, signals, k + 1);
    } else {
      assert signals[..k] == signals;
    }
  }

  /** The items sent up to the exit, in order. */
  function Items<T>(signals: seq<Signal<T>>): seq<T> {
    if signals == [] then []
    else
      var last := signals[|signals| - 1];
      Items(signals[..|signals| - 1]) + if last.Item? then [last.x] else []
  }

  /**
    Over every sequence of signals the loop takes in every item up to its exit, the whole of them
    if it has not exited; and it has exited once the channel is closed, or past a cancellation the deadline.
   */
  lemma {:induction false} ReceivesAll<T>(size: nat, signals: seq<Signal<T>>)
    ensures var t := Replay(size, signals);
            if t.phase.Running? then t.received == Items(signals) && Closed !in signals
            else exists k: nat ::
              k < |signals| && (signals[k].Closed? || (signals[k].Deadline? && Cancelled in signals[..k])) &&
              t.received == Items(signals[..k])
    ensures Replay(size, signals).phase.Running? ==>
              (Replay(size, signals).phase.draining <==> Cancelled in signals)
  {
    if signals != [] {
      var n := |signals| - 1;
      var before := signals[..n];
      ReceivesAll(size, before);
      assert signals == before + [signals[n]];
      var t := Replay(size, before);
      if t.phase.Done? {
        var k: nat :| k < |before| && (before[k].Closed? || (before[k].Deadline? && Cancelled in before[..k])) &&
          t.received == Items(before[..k]);
        assert before[..k] == signals[..k] && signals[k] == before[k];
      } else if Replay(size, signals).phase.Done? {
        assert signals[..n] == before && t.received == Items(signals[..n]);
      }
    }
  }

  /** The batcher of the step system moves like this one on every signal. */
  lemma GatherIsNext(c: Pipeline.Config, s: Pipeline.State, a: nat, gather: Pipeline.GatherStep)
    requires Pipeline.GatherEnabled(s, a, gather)
    ensures
      var pc := s.pcs[a];
      var signal := (match gather
                     case Take => Item(s.eventCh[0])
                     case Tick => Tick
                     case SeeClosed => Closed
                     case SeeCancel => Cancelled
                     case Deadline => Deadline);
      var m := Next(Pipeline.BatchSize(c), pc.batch, pc.draining, signal);
      var next := if m.to.Done? then Pipeline.ToExit else Pipeline.ToCollect(m.to.draining);
      Pipeline.GatherDelta(c, s, a, gather).pc ==
        if m.flush != [] then Pipeline.Storing(m.flush, 0, next)
        else if m.to.Done? then Pipeline.Exited
        else Pipeline.Collecting(m.to.batch, m.to.draining)
  {
  }

  // ---- The loop ----

  class Batcher<T(0)> {
    const buffer: array<T>            // the backing array of `batch`, made once
    var len: nat
    var flushed: seq<seq<T>>          // what the store was given, as it saw it

    constructor (batchSize: int)
      ensures buffer.Length == (if batchSize <= 0 then 1 else batchSize) && fresh(buffer)
      ensures len == 0 && flushed == []
    {
      buffer := new T[if batchSize <= 0 then 1 else batchSize];
      len, flushed := 0, [];
    }

    /** The buffer holds the pending items, and the store has had exactly the batches of the trace. */
    ghost predicate Agrees(t: Trace<T>)
      reads this, buffer
    {
      && len <= buffer.Length
      && flushed == t.flushed
      && (t.phase.Running? ==> buffer[..len] == t.phase.batch && len < buffer.Length)
    }

    method Flush()
      requires len <= buffer.Length
      modifies this`flushed
      ensures flushed == if len == 0 then old(flushed) else old(flushed) + [buffer[..len]]
    {
      if len == 0 {
        return;
      }
      flushed := flushed + [buffer[..len]];
    }

    /** Append an item; a full buffer is flushed and filled again from the start. */
    method Add(x: T, ghost t: Trace<T>)
      requires buffer.Length >= 1 && Agrees(t) && t.phase.Running?
      modifies this`len, this`flushed, buffer
      ensures Agrees(After(buffer.Length, t, Item(x)))
    {
      buffer[len] := x;
      len := len + 1;
      assert buffer[..len] == t.phase.batch + [x];
      if len >= buffer.Length {
        Flush();
        len := 0;
      }
    }

    /** The flush in front of the exit that signal k makes the loop take. */
    method FlushLast(signals: seq<Signal<T>>, ghost k: nat)
      requires buffer.Length >= 1 && k < |signals|
      requires
        var t := Replay(buffer.Length, signals[..k]);
        Agrees(t) && t.phase.Running? && (signals[k].Closed? || (signals[k].Deadline? && t.phase.draining))
      modifies this`flushed
      ensures Agrees(Replay(buffer.Length, signals)) && Replay(buffer.Length, signals).phase.Done?
    {
      Flush();
      ReplayNext(buffer.Length, signals, k);
      DoneForGood(buffer.Length, signals, k + 1);
    }

    /** The batcher from its start on: what it received is in the batches flushed and, until it exits, in the buffer. */
    method Run(signals: seq<Signal<T>>) returns (exited: bool)
      requires buffer.Length >= 1 && len == 0 && flushed == []
      modifies this, buffer
      ensures flushed == Replay(buffer.Length, signals).flushed
      ensures exited <==> Replay(buffer.Length, signals).phase.Done?
      ensures len <= buffer.Length
      ensures Concat(flushed) + (if exited then [] else buffer[..len]) == Replay(buffer.Length, signals).received
      ensures forall b | b in flushed :: 1 <= |b| <= buffer.Length
    {
      ReplayConserves(buffer.Length, signals);
      exited := Save(signals);
    }

    /** The loop before the cancellation; `exited` says whether it returned before the signals ended. */
    method Save(signals: seq<Signal<T>>) returns (exited: bool)
      requires buffer.Length >= 1 && len == 0 && flushed == []
      modifies this, buffer
      ensures Agrees(Replay(buffer.Length, signals))
      ensures exited <==> Replay(buffer.Length, signals).phase.Done?
    {
      exited := false;
      var k := 0;
      ghost var t := Replay(buffer.Length, signals[..0]);
      while k < |signals|
        invariant 0 <= k <= |signals| && t == Replay(buffer.Length, signals[..k])
        invariant Agrees(t) && t.phase.Running? && !t.phase.draining
      {
        ReplayNext(buffer.Length, signals, k);
        match signals[k] {
          case Tick =>
            Flush();
            len := 0;
          case Item(x) =>
            Add(x, t);
          case Closed =>
            FlushLast(signals, k);
            return true;
          case Cancelled =>
            exited := Drain(signals, k + 1);
            return;
          case Deadline =>
        }
        t := After(buffer.Length, t, signals[k]);
        k := k + 1;
      }
      assert signals[..k] == signals;
    }

    /** The loop behind the cancellation, from signal `from` on. */
    method Drain(signals: seq<Signal<T>>, from: nat) returns (exited: bool)
      requires buffer.Length >= 1 && from <= |signals|
      requires
        var t := Replay(buffer.Length, signals[..from]);
        Agrees(t) && t.phase.Running? && t.phase.draining
      modifies this, buffer
      ensures Agrees(Replay(buffer.Length, signals))
      ensures exited <==> Replay(buffer.Length, signals).phase.Done?
    {
      var k := from;
      ghost var t := Replay(buffer.Length, signals[..from]);
      while k < |signals|
        invariant from <= k <= |signals| && t == Replay(buffer.Length, signals[..k])
        invariant Agrees(t) && t.phase.Running? && t.phase.draining
      {
        ReplayNext(buffer.Length, signals, k);
        if signals[k].Closed? || signals[k].Deadline? {
          FlushLast(signals, k);
          return true;
        }
        if signals[k].Item? {
          Add(signals[k].x, t);
        }
        t := After(buffer.Length, t, signals[k]);
        k := k + 1;
      }
      assert signals[..k] == signals;
      return false;
    }
  }
}
