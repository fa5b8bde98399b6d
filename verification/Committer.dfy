/**
  The offset committer. Kafka keeps one offset per partition, so a commit acknowledges everything
  below it; the committer only ever commits across the contiguous run of completed offsets.
 */
module Committer {
  import opened Options

  datatype Message = Message(partition: int, offset: int)

  /** The value of a partitionProgress: the next offset to commit and the keys of `completed`. */
  datatype Progress = Progress(next: int, completed: set<int>)

  /** The walk of `complete`: take offsets out of `completed` as long as the next one is there. */
  function Walk(p: Progress): Progress
    decreases |p.completed|
  {
    if p.next in p.completed then Walk(Progress(p.next + 1, p.completed - {p.next})) else p
  }

  /** The locked part of `complete`: record the offset, then walk. */
  function Record(p: Progress, offset: int): Progress {
    Walk(Progress(p.next, p.completed + {offset}))
  }

  lemma {:induction false} WalkMeaning(p: Progress)
    ensures var q := Walk(p);
            && p.next <= q.next
            && q.next !in p.completed
            && (forall o | p.next <= o < q.next :: o in p.completed)
            && (forall o :: o in q.completed <==> o in p.completed && !(p.next <= o < q.next))
    decreases |p.completed|
  {
    if p.next in p.completed {
      var rest := Progress(p.next + 1, p.completed - {p.next});
      WalkMeaning(rest);
      forall o | p.next <= o < Walk(rest).next
        ensures o in p.completed
      {
        assert o == p.next || o in rest.completed;
      }
    }
  }

  // ---- The specification: the least offset not yet done ----

  /** w is the least offset at or above `start` that is not in `done`. */
  ghost predicate IsWatermark(start: int, done: set<int>, w: int) {
    start <= w && w !in done && forall o | start <= o < w :: o in done
  }

  lemma WatermarkUnique(start: int, done: set<int>, w1: int, w2: int)
    requires IsWatermark(start, done, w1) && IsWatermark(start, done, w2)
    ensures w1 == w2
  {
  }

  /**
    The progress of a partition whose first registered offset is `start` and whose completed
    offsets so far are `done`. Keys below `next`, left behind by a repeated ack, are not constrained.
   */
  ghost predicate Tracks(p: Progress, start: int, done: set<int>) {
    && IsWatermark(start, done, p.next)
    && forall o | p.next <= o :: o in p.completed <==> o in done
  }

  lemma RecordTracks(p: Progress, start: int, done: set<int>, offset: int)
    requires Tracks(p, start, done)
    ensures Tracks(Record(p, offset), start, done + {offset})
    ensures p.next <= Record(p, offset).next
    ensures Record(p, offset).next > p.next <==> offset == p.next
  {
    WalkMeaning(Progress(p.next, p.completed + {offset}));
  }

  // ---- Whole runs of one partition ----

  datatype Op = Register(offset: int) | Complete(offset: int)

  /** The progress after a run and the offsets chosen for a commit, in the order the lock saw them. */
  datatype Run = Run(progress: Option<Progress>, commits: seq<int>)

  /** An ack handler exists only once its message has been registered. */
  predicate Legal(ops: seq<Op>) {
    ops == [] || ops[0].Register?
  }

  function Replay(ops: seq<Op>): (r: Run)
    requires Legal(ops)
    ensures r.progress.None? <==> ops == []
  {
    if ops == [] then
      Run(None, [])
    else
      var last := ops[|ops| - 1];
      var before := Replay(ops[..|ops| - 1]);
      match last
      case Register(o) =>
        if before.progress.Some? then before else Run(Some(Progress(o, {})), [])
      case Complete(o) =>
        var p := before.progress.value;
        var q := Record(p, o);
        Run(Some(q), if q.next > p.next then before.commits + [q.next - 1] else before.commits)
  }

  function Completed(ops: seq<Op>): (done: set<int>) {
    set k | 0 <= k < |ops| && ops[k].Complete? :: ops[k].offset
  }

  lemma CompletedGrows(ops: seq<Op>)
    requires ops != []
    ensures
      var last := ops[|ops| - 1];
      Completed(ops) == Completed(ops[..|ops| - 1]) + (if last.Complete? then {last.offset} else {})
  {
    var before, last := ops[..|ops| - 1], ops[|ops| - 1];
    forall o | o in Completed(ops)
      ensures o in Completed(before) || (last.Complete? && o == last.offset)
    {
      var k :| 0 <= k < |ops| && ops[k].Complete? && ops[k].offset == o;
      if k < |ops| - 1 { assert before[k] == ops[k]; }
    }
    forall o | o in Completed(before)
      ensures o in Completed(ops)
    {
      var k :| 0 <= k < |before| && before[k].Complete? && before[k].offset == o;
      assert ops[k] == before[k];
    }
  }

  /**
    After any run, repeats included, `next` is the least offset from the first registered one on
    that was never completed.
   */
  lemma {:induction false} ReplayTracks(ops: seq<Op>)
    requires Legal(ops) && ops != []
    ensures Tracks(Replay(ops).progress.value, ops[0].offset, Completed(ops))
  {
    CompletedGrows(ops);
    var before := ops[..|ops| - 1];
    if before != [] {
      ReplayTracks(before);
      var last := ops[|ops| - 1];
      if last.Complete? {
        RecordTracks(Replay(before).progress.value, ops[0].offset, Completed(before), last.offset);
      }
    }
  }

  /** Offset o was completed at a time when the watermark already stood above it. */
  ghost predicate CompletedLate(ops: seq<Op>, o: int) {
    exists k :: LateAt(ops, o, k)
  }

  ghost predicate LateAt(ops: seq<Op>, o: int, k: int) {
    && 0 < k < |ops| && ops[k] == Complete(o) && Legal(ops[..k])
    && o < Replay(ops[..k]).progress.value.next
  }

  lemma LateGrows(ops: seq<Op>, o: int)
    requires Legal(ops) && |ops| > 1
    ensures CompletedLate(ops, o) <==> CompletedLate(ops[..|ops| - 1], o) || LateAt(ops, o, |ops| - 1)
  {
    var before := ops[..|ops| - 1];
    assert forall k | 0 <= k <= |before| :: before[..k] == ops[..k];
    forall k
      ensures k != |ops| - 1 ==> (LateAt(ops, o, k) <==> LateAt(before, o, k))
    {
      if 0 < k < |before| { assert before[k] == ops[k]; }
    }
  }

  lemma RecordBelow(p: Progress, offset: int, o: int)
    ensures
      var q := Record(p, offset);
      o in q.completed && o < q.next <==> o < p.next && (o in p.completed || o == offset)
  {
    WalkMeaning(Progress(p.next, p.completed + {offset}));
  }

  /** `completed` holds a key below `next` exactly for the offsets that were completed late; it is never taken out. */
  lemma {:induction false} KeysBelowNext(ops: seq<Op>, o: int)
    requires Legal(ops) && ops != []
    ensures
      var p := Replay(ops).progress.value;
      o in p.completed && o < p.next <==> CompletedLate(ops, o)
  {
    if |ops| > 1 {
      var before, last := ops[..|ops| - 1], ops[|ops| - 1];
      KeysBelowNext(before, o);
      LateGrows(ops, o);
      if last.Complete? { RecordBelow(Replay(before).progress.value, last.offset, o); }
    } else {
      assert ops[..0] == [];
      assert !CompletedLate(ops, o);
    }
  }

  /** The shortest such run: an offset acked twice. */
  lemma RepeatedAckStaysBehind(o: int)
    ensures
      var p := Replay([Register(o), Complete(o), Complete(o)]).progress.value;
      o in p.completed && o < p.next
  {
    var ops := [Register(o), Complete(o), Complete(o)];
    var two := ops[..2];
    ReplayTracks(two);
    assert two[1] == Complete(o);
    assert LateAt(ops, o, 2);
    KeysBelowNext(ops, o);
  }

  /** The watermark depends on which offsets were completed, not on their order or their repetition. */
  lemma WatermarkIgnoresOrder(ops1: seq<Op>, ops2: seq<Op>)
    requires Legal(ops1) && Legal(ops2) && ops1 != [] && ops2 != []
    requires ops1[0] == ops2[0] && Completed(ops1) == Completed(ops2)
    ensures Replay(ops1).progress.value.next == Replay(ops2).progress.value.next
  {
    ReplayTracks(ops1);
    ReplayTracks(ops2);
    WatermarkUnique(ops1[0].offset, Completed(ops1),
                    Replay(ops1).progress.value.next, Replay(ops2).progress.value.next);
  }

  ghost predicate Increasing(s: seq<int>) {
    forall i, j | 0 <= i < j < |s| :: s[i] < s[j]
  }

  /**
    The commits chosen under the lock strictly increase, start at the first registered offset or
    above, and the last is the offset just below the watermark; there is none while the watermark
    still stands at the first registered offset.
   */
  lemma {:induction false} CommitsFollowWatermark(ops: seq<Op>)
    requires Legal(ops) && ops != []
    ensures
      var r := Replay(ops);
      var next := r.progress.value.next;
      && Increasing(r.commits)
      && (forall c | c in r.commits :: ops[0].offset <= c < next)
      && (if r.commits == [] then next == ops[0].offset else r.commits[|r.commits| - 1] == next - 1)
  {
    var before := ops[..|ops| - 1];
    if before != [] {
      CommitsFollowWatermark(before);
      var last := ops[|ops| - 1];
      if last.Complete? {
        ReplayTracks(before);
        RecordTracks(Replay(before).progress.value, ops[0].offset, Completed(before), last.offset);
      }
    }
  }

  /** An offset that is never completed holds back every commit at or above it, whatever else completes. */
  lemma GapBlocksCommits(ops: seq<Op>, gap: int)
    requires Legal(ops) && ops != []
    requires ops[0].offset <= gap && gap !in Completed(ops)
    ensures forall c | c in Replay(ops).commits :: c < gap
  {
    ReplayTracks(ops);
    CommitsFollowWatermark(ops);
  }

  lemma SameElements(a: seq<int>, b: seq<int>)
    requires multiset(a) == multiset(b)
    ensures forall x :: x in a <==> x in b
  {
    assert forall x :: x in a <==> x in multiset(a);
    assert forall x :: x in b <==> x in multiset(b);
  }

  /**
    What the broker holds after commit requests arrived in some order: the last one, kept as the
    next offset to read.
   */
  function BrokerAfter(initial: int, arrivals: seq<int>): int {
    if arrivals == [] then initial else arrivals[|arrivals| - 1] + 1
  }

  /**
    CommitMessages runs outside the lock, so commits may arrive in any order and the broker may
    step back. However they arrive: at no point does the broker stand above the watermark, every
    position it takes is covered by completed offsets, and some arrival reaches exactly the watermark.
   */
  lemma AnyArrivalOrder(ops: seq<Op>, arrivals: seq<int>, k: nat)
    requires Legal(ops) && ops != []
    requires multiset(arrivals) == multiset(Replay(ops).commits)
    requires k <= |arrivals|
    ensures
      var next := Replay(ops).progress.value.next;
      && ops[0].offset <= BrokerAfter(ops[0].offset, arrivals[..k]) <= next
      && (forall o | ops[0].offset <= o < BrokerAfter(ops[0].offset, arrivals[..k]) :: o in Completed(ops))
      && (next > ops[0].offset ==> next - 1 in arrivals)
      && (forall c | c in arrivals :: c <= next - 1)
  {
    var commits := Replay(ops).commits;
    ReplayTracks(ops);
    CommitsFollowWatermark(ops);
    SameElements(arrivals, commits);
    if k > 0 {
      assert arrivals[..k][k - 1] == arrivals[k - 1] && arrivals[k - 1] in arrivals;
    }
  }

  // ---- The committer object ----

  class PartitionProgress {
    var next: int
    var completed: map<int, Message>

    constructor (offset: int)
      ensures View() == Progress(offset, {}) && completed == map[]
    {
      next, completed := offset, map[];
    }

    ghost function View(): Progress
      reads this
    {
      Progress(next, completed.Keys)
    }

    ghost predicate HoldsPartition(p: int)
      reads this
    {
      forall o | o in completed :: completed[o] == Message(p, o)
    }

    /** The body of the critical section of the committer's Complete. */
    method RecordAndWalk(msg: Message) returns (commit: Option<Message>)
      requires HoldsPartition(msg.partition)
      modifies this
      ensures HoldsPartition(msg.partition)
      ensures View() == Record(old(View()), msg.offset)
      ensures commit == if next > old(next) then Some(Message(msg.partition, next - 1)) else None
    {
      completed := completed[msg.offset := msg];
      ghost var recorded := View();
      assert recorded == Progress(old(next), old(completed).Keys + {msg.offset});
      commit := None;
      while next in completed
        invariant old(next) <= next
        invariant Walk(View()) == Walk(recorded)
        invariant HoldsPartition(msg.partition)
        invariant commit == if next > old(next) then Some(Message(msg.partition, next - 1)) else None
        decreases |completed.Keys|
      {
        commit := Some(completed[next]);
        ghost var keys := completed.Keys;
        completed := completed - {next};
        assert completed.Keys == keys - {next};
        next := next + 1;
      }
    }
  }

  class OffsetCommitter {
    var parts: map<int, PartitionProgress>

    constructor ()
      ensures Valid() && parts == map[]
    {
      parts := map[];
    }

    /** Each partition has its own progress object, which holds messages of that partition under their offsets. */
    ghost predicate Valid()
      reads this, parts.Values
    {
      && (forall p, q | p in parts && q in parts && p != q :: parts[p] != parts[q])
      && (forall p | p in parts :: parts[p].HoldsPartition(p))
    }

    ghost function View(): map<int, Progress>
      reads this, parts.Values
    {
      map p | p in parts :: parts[p].View()
    }

    /** Called at fetch time; the first offset of a partition becomes its starting watermark. */
    method Register(msg: Message)
      requires Valid()
      modifies this
      ensures Valid()
      ensures View() == if msg.partition in old(View()) then old(View())
                        else old(View())[msg.partition := Progress(msg.offset, {})]
      ensures forall p | p in old(parts) :: p in parts && parts[p] == old(parts[p])
      ensures fresh(parts.Values - old(parts.Values))
    {
      if msg.partition in parts {
        return;
      }
      var progress := new PartitionProgress(msg.offset);
      parts := parts[msg.partition := progress];
    }

    /**
      The locked part of the ack handler. Its message was registered when it was fetched. The
      result is the message to commit after the lock is released, if the watermark advanced.
     */
    method Complete(msg: Message) returns (commit: Option<Message>)
      requires Valid() && msg.partition in parts
      modifies parts[msg.partition]
      ensures Valid()
      ensures View() == old(View())[msg.partition := Record(old(View())[msg.partition], msg.offset)]
      ensures
        var before, after := old(View())[msg.partition].next, View()[msg.partition].next;
        commit == if after > before then Some(Message(msg.partition, after - 1)) else None
    {
      commit := parts[msg.partition].RecordAndWalk(msg);
      assert forall q | q in parts && q != msg.partition :: parts[q].View() == old(View())[q];
    }
  }
}
