/**
  What becomes of a batch of deliveries at the store: retried writes, then acks, or failure records
  with acks behind them, or nothing. The objects are those of one process; the step system
  interleaves these calls.
 */
module Ingestion {
  import opened Committer
  import opened Errors
  import opened EventStore
  import Intake
  import opened Options
  import opened Repository
  import Pipeline
  import Retry

  /** An event, the place of its record in the log, and the message that the record decoded to. */
  datatype EventWithDelivery = EventWithDelivery(event: Event, msg: Message, message: Intake.DeviceMessage)

  function EventsOf(batch: seq<EventWithDelivery>): (events: seq<Event>)
    ensures |events| == |batch| && forall k | 0 <= k < |events| :: events[k] == batch[k].event
  {
    seq(|batch|, k requires 0 <= k < |batch| => batch[k].event)
  }

  /**
    What the outside answers while one delivery is settled: its failure stores, its commit, and the
    stores again for a failed ack.
   */
  datatype Reply = Reply(dbUp: bool, topicUp: bool, commitOk: bool, expired: bool, noteDbUp: bool, noteTopicUp: bool)

  predicate Recorded(r: Reply) {
    r.dbUp || r.topicUp
  }

  /** The commit failed in a live context, and some store takes a note of it. */
  predicate Notes(r: Reply) {
    !r.commitOk && !r.expired && (r.noteDbUp || r.noteTopicUp)
  }

  // ---- Acks in a row ----

  /** The committer after acks in a row, and the commits they ask for. */
  datatype Acks = Acks(view: map<int, Progress>, commits: seq<Message>)

  /** One ack: record and walk; the message below the new watermark is asked for if it moved. */
  function AckOne(a: Acks, m: Message): Acks {
    if m.partition !in a.view then a
    else
      var p := a.view[m.partition];
      var q := Record(p, m.offset);
      Acks(a.view[m.partition := q],
           if q.next > p.next then a.commits + [Message(m.partition, q.next - 1)] else a.commits)
  }

  function AckAll(a: Acks, batch: seq<EventWithDelivery>): Acks {
    if batch == [] then a else AckOne(AckAll(a, batch[..|batch| - 1]), batch[|batch| - 1].msg)
  }

  function OffsetsOf(batch: seq<EventWithDelivery>, p: int): set<int> {
    set x | x in batch && x.msg.partition == p :: x.msg.offset
  }

  /** The commits asked for in partition p lie from where it stood up to where it stands, and reach that. */
  ghost predicate CommitsReach(a: Acks, p: int, from: int) {
    && p in a.view && from <= a.view[p].next
    && (forall m | m in a.commits && m.partition == p :: from <= m.offset < a.view[p].next)
    && (a.view[p].next > from ==> Message(p, a.view[p].next - 1) in a.commits)
  }

  lemma AckOneReaches(a: Acks, m: Message, p: int, from: int, start: int, done: set<int>)
    requires CommitsReach(a, p, from) && Tracks(a.view[p], start, done)
    ensures CommitsReach(AckOne(a, m), p, from)
    ensures Tracks(AckOne(a, m).view[p], start, if m.partition == p then done + {m.offset} else done)
  {
    if m.partition == p { RecordTracks(a.view[p], start, done, m.offset); }
  }

  lemma OffsetsOfMore(batch: seq<EventWithDelivery>, x: EventWithDelivery, p: int)
    ensures OffsetsOf(batch + [x], p) == OffsetsOf(batch, p) + if x.msg.partition == p then {x.msg.offset} else {}
  {
  }

  /**
    Acking a batch leaves each partition at the least offset acked neither before nor now, whatever
    the order in the batch, and every commit asked for lies below the watermark it ends at.
   */
  lemma {:induction false} AckAllTracks(
      view: map<int, Progress>, batch: seq<EventWithDelivery>, p: int, start: int, done: set<int>)
    requires p in view && Tracks(view[p], start, done)
    ensures CommitsReach(AckAll(Acks(view, []), batch), p, view[p].next)
    ensures Tracks(AckAll(Acks(view, []), batch).view[p], start, done + OffsetsOf(batch, p))
  {
    if batch == [] {
      assert done + OffsetsOf(batch, p) == done;
    } else {
      var before, last := batch[..|batch| - 1], batch[|batch| - 1];
      AckAllTracks(view, before, p, start, done);
      AckOneReaches(AckAll(Acks(view, []), before), last.msg, p, view[p].next, start, done + OffsetsOf(before, p));
      OffsetsOfMore(before, last, p);
      assert batch == before + [last];
      assert done + (OffsetsOf(before, p) + {last.msg.offset}) == done + OffsetsOf(before, p) + {last.msg.offset};
    }
  }

  function ProgressOf(parts: map<int, Pipeline.Part>): map<int, Progress> {
    map p | p in parts :: parts[p].progress
  }

  /** The locked part of an ack in the step system is one ack here: the same progress, the same commit chosen. */
  lemma CompletionIsAckOne(w: Pipeline.World, m: Message)
    requires m.partition in w.parts
    ensures
      var a := AckOne(Acks(ProgressOf(w.parts), []), m);
      var v := Pipeline.WithCompleted(w, m);
      && ProgressOf(v.parts) == a.view
      && v.issued == w.issued + (set x | x in a.commits)
      && (Pipeline.Commits(w.parts, m) == if a.commits == [] then None else Some(a.commits[0]))
  {
    assert ProgressOf(Pipeline.WithCompleted(w, m).parts).Keys == ProgressOf(w.parts).Keys;
  }

  /** The deliveries whose failure record some store accepts: the others stay unacked. */
  function Kept(batch: seq<EventWithDelivery>, replies: nat -> Reply): (kept: seq<EventWithDelivery>)
    ensures forall x :: x in kept <==> exists k :: 0 <= k < |batch| && batch[k] == x && Recorded(replies(k))
  {
    if batch == [] then []
    else
      var n := |batch| - 1;
      var before := Kept(batch[..n], replies);
      assert forall k | 0 <= k < n :: batch[..n][k] == batch[k];
      if Recorded(replies(n)) then before + [batch[n]] else before
  }

  const TERMINAL := "terminal"
  const ACK_FAILED := "ack_failed"
  const COMMIT_ERROR: Error := Leaf(Other("commit"))

  /** The failure record of a delivery: it holds the message if the record in the log decoded to one. */
  function Dead(
      stage: string, error: Error, retryCount: nat, m: Message, message: Option<Intake.DeviceMessage>): FailedMessage
  {
    FailedMessage(stage, TERMINAL, error, retryCount, message, m.partition, m.offset)
  }

  /** What both kinds of failure store keep of a batch's delivery: its message. */
  function DeadRow(x: EventWithDelivery, error: Error): FailedRow {
    FailedRow("store_batch", Some(x.message), error)
  }

  ghost predicate AllDead(batch: seq<EventWithDelivery>, error: Error, records: set<FailedRow>) {
    forall x | x in batch :: DeadRow(x, error) in records
  }

  lemma KeptNext(batch: seq<EventWithDelivery>, replies: nat -> Reply, k: nat)
    requires k < |batch|
    ensures
      var kept := Kept(batch[..k], replies);
      Kept(batch[..k + 1], replies) == (if Recorded(replies(k)) then kept + [batch[k]] else kept) &&
      forall a: Acks :: AckAll(a, kept + [batch[k]]) == AckOne(AckAll(a, kept), batch[k].msg)
  {
    assert batch[..k + 1][..k] == batch[..k];
    var kept := Kept(batch[..k], replies);
    assert (kept + [batch[k]])[..|kept|] == kept;
  }

  // ---- Stored or dead-lettered ----

  /** The batch's events are new to the table, and no two of them have the same id. */
  ghost predicate AllNew(t: Table, batch: seq<EventWithDelivery>) {
    && (forall k | 0 <= k < |batch| :: batch[k].event.id !in Ids(t))
    && (forall j, k | 0 <= j < k < |batch| :: batch[j].event.id != batch[k].event.id)
  }

  /** A new event is in the table afterwards exactly if it is in the prefix that was written. */
  lemma StoredExactly(before: Table, after: Table, batch: seq<EventWithDelivery>, written: nat, k: nat)
    requires Wrote(before, after, EventsOf(batch), written) && AllNew(before, batch) && k < |batch|
    ensures batch[k].event.id in Ids(after) <==> k < written
  {
    var rows := RowsOf(EventsOf(batch)[..written]);
    InsertAllMeaning(before, rows);
    assert forall j | 0 <= j < written :: rows[j].id == batch[j].event.id;
    if k < written { assert rows[k] in rows; }
  }

  /** Behind a terminal failure a delivery is stored, or dead-lettered, and not both. */
  ghost predicate ExactlyOne(after: Table, batch: seq<EventWithDelivery>, replies: nat -> Reply, k: nat)
    requires k < |batch|
  {
    (batch[k].event.id in Ids(after)) != Recorded(replies(k))
  }

  /**
    Exactly one of stored and dead-lettered holds for each delivery of a new batch that failed for
    good if and only if the failure stores took exactly the records of the unwritten ones; as they
    are given all of them, an accepted record inside the written prefix is the one way to be in both.
   */
  lemma ExactlyOneEach(before: Table, after: Table, batch: seq<EventWithDelivery>, written: nat, replies: nat -> Reply)
    requires Wrote(before, after, EventsOf(batch), written) && AllNew(before, batch)
    ensures (forall k | 0 <= k < |batch| :: ExactlyOne(after, batch, replies, k)) <==>
            (forall k | 0 <= k < |batch| :: Recorded(replies(k)) <==> written <= k)
  {
    forall k | 0 <= k < |batch|
      ensures ExactlyOne(after, batch, replies, k) <==> (Recorded(replies(k)) <==> written <= k)
    {
      StoredExactly(before, after, batch, written, k);
    }
  }

  /**
    A failed batch of two to ninety events has written nothing, so no delivery of it is in both:
    each is dead-lettered or, where no store took its record, in neither and left for a redelivery.
   */
  lemma OneChunkIsNeverBoth(
      before: Table, after: Table, batch: seq<EventWithDelivery>, written: nat, replies: nat -> Reply, k: nat)
    requires Wrote(before, after, EventsOf(batch), written) && AllNew(before, batch) && k < |batch|
    requires PossiblyWritten(|batch|, written) && 2 <= |batch| <= MAX_EVENTS_PER_CHUNK
    ensures written == 0 && batch[k].event.id !in Ids(after)
    ensures ExactlyOne(after, batch, replies, k) <==> Recorded(replies(k))
  {
    PartialWritesExactly(|batch|);
    StoredExactly(before, after, batch, written, k);
  }

  /** The retry loop over what the attempts to store these events return. */
  function LoopOutcome(events: seq<Event>, env: nat -> Attempt): Retry.Outcome {
    Retry.RetryTransient((k: nat) => AttemptError(events, env(k)), (k: nat) => env(k).cancelled)
  }

  // ---- Objects ----

  class DeadLetterTopic {
    var records: seq<FailedMessage>

    constructor ()
      ensures records == []
    {
      records := [];
    }

    method StoreFailure(m: FailedMessage, up: bool) returns (ok: bool)
      modifies this
      ensures ok == up && records == if ok then old(records) + [m] else old(records)
    {
      if up { records := records + [m]; }
      return up;
    }
  }

  /** The primary store, and the secondary one when that fails. */
  class FallbackFailureStorer {
    const primary: Repo
    const secondary: DeadLetterTopic

    constructor (primary: Repo, secondary: DeadLetterTopic)
      ensures this.primary == primary && this.secondary == secondary
    {
      this.primary, this.secondary := primary, secondary;
    }

    /** The record is in exactly one store, the secondary only if the primary is down, and in none if both are. */
    method StoreFailure(m: FailedMessage, primaryUp: bool, secondaryUp: bool) returns (ok: bool)
      modifies primary`failed, secondary
      ensures ok <==> primaryUp || secondaryUp
      ensures primary.failed == if primaryUp then old(primary.failed) + [FailedRowOf(m)] else old(primary.failed)
      ensures secondary.records ==
                if !primaryUp && secondaryUp then old(secondary.records) + [m] else old(secondary.records)
      ensures Records() == old(Records()) + if ok then {FailedRowOf(m)} else {}
    {
      ok := primary.StoreFailure(m, primaryUp);
      if !ok {
        ok := secondary.StoreFailure(m, secondaryUp);
      }
    }

    /** What the two stores have in common: stage, message and error. Only the topic also keeps the place in the log. */
    ghost function Records(): set<FailedRow>
      reads primary, secondary
    {
      (set f | f in primary.failed) + (set f | f in secondary.records :: FailedRowOf(f))
    }
  }

  class Ingestor {
    const repo: Repo
    const failures: FallbackFailureStorer
    const committer: OffsetCommitter
    var requests: seq<Message>            // what CommitMessages was called with

    constructor (repo: Repo, failures: FallbackFailureStorer, committer: OffsetCommitter)
      ensures this.repo == repo && this.failures == failures && this.committer == committer && requests == []
    {
      this.repo, this.failures, this.committer, requests := repo, failures, committer, [];
    }

    ghost predicate Valid()
      reads this, committer, committer.parts.Values
    {
      committer.Valid() && failures.primary == repo
    }

    ghost function Handled(): Acks
      reads this, committer, committer.parts.Values
    {
      Acks(committer.View(), requests)
    }

    /** Ack handlers exist only for messages registered at their fetch. */
    ghost predicate Registered(batch: seq<EventWithDelivery>)
      reads committer
    {
      forall x | x in batch :: x.msg.partition in committer.parts
    }

    /** The ack handler of a delivery: complete it and ask for the commit, if one is due. */
    method RunHandler(m: Message) returns (asked: bool)
      requires Valid() && m.partition in committer.parts
      modifies this`requests, committer.parts.Values
      ensures Valid() && Handled() == AckOne(old(Handled()), m)
      ensures asked <==> requests != old(requests)
    {
      var commit := committer.Complete(m);
      if commit.Some? {
        requests := requests + [commit.value];
      }
      return commit.Some?;
    }

    /** Ack a delivery; a commit that fails while the context is live leaves a note in the failure stores. */
    method Ack(m: Message, stage: string, reply: Reply)
      requires Valid() && m.partition in committer.parts
      modifies this`requests, committer.parts.Values, repo`failed, failures.secondary
      ensures Valid() && Handled() == AckOne(old(Handled()), m)
      ensures requests != old(requests) && Notes(reply) ==>
                failures.Records() == old(failures.Records()) + {FailedRow(stage, None, COMMIT_ERROR)}
      ensures requests == old(requests) || !Notes(reply) ==> failures.Records() == old(failures.Records())
      ensures old(failures.secondary.records) <= failures.secondary.records
    {
      var asked := RunHandler(m);
      if asked && !reply.commitOk && !reply.expired {
        var note := FailedMessage(stage, ACK_FAILED, COMMIT_ERROR, 0, None, m.partition, m.offset);
        var _ := failures.StoreFailure(note, reply.noteDbUp, reply.noteTopicUp);
      }
    }

    /** Ack only behind an accepted failure record, which holds the message if there is one. */
    method FailTerminalAndAck(
      m: Message, message: Option<Intake.DeviceMessage>, stage: string, error: Error, retryCount: nat, reply: Reply)
      requires Valid() && m.partition in committer.parts
      modifies this`requests, committer.parts.Values, repo`failed, failures.secondary
      ensures Valid() && Handled() == if Recorded(reply) then AckOne(old(Handled()), m) else old(Handled())
      ensures !Recorded(reply) ==> failures.Records() == old(failures.Records())
      ensures Recorded(reply) ==>
                var dead := old(failures.Records()) + {FailedRow(stage, message, error)};
                failures.Records() == if requests != old(requests) && Notes(reply)
                                      then dead + {FailedRow(stage, None, COMMIT_ERROR)} else dead
      ensures !reply.dbUp && reply.topicUp ==>
                FailedMessage(stage, "terminal", error, retryCount, message, m.partition, m.offset)
                in failures.secondary.records
    {
      var dead := Dead(stage, error, retryCount, m, message);
      var ok := failures.StoreFailure(dead, reply.dbUp, reply.topicUp);
      if ok {
        ghost var topic := failures.secondary.records;
        Ack(m, stage, reply);
        assert forall f | f in topic :: f in failures.secondary.records;
        assert TERMINAL == "terminal";
      }
    }

    method AckEach(batch: seq<EventWithDelivery>, replies: nat -> Reply)
      requires Valid() && Registered(batch)
      modifies this`requests, committer.parts.Values, repo`failed, failures.secondary
      ensures Valid() && Handled() == AckAll(old(Handled()), batch)
      ensures old(failures.Records()) <= failures.Records()
    {
      for k := 0 to |batch|
        invariant Valid() && Handled() == AckAll(old(Handled()), batch[..k])
        invariant old(failures.Records()) <= failures.Records()
      {
        assert batch[..k + 1][..k] == batch[..k];
        Ack(batch[k].msg, "store_batch", replies(k));
      }
      assert batch[..|batch|] == batch;
    }

    method FailEach(batch: seq<EventWithDelivery>, error: Error, replies: nat -> Reply)
      requires Valid() && Registered(batch)
      modifies this`requests, committer.parts.Values, repo`failed, failures.secondary
      ensures Valid() && Handled() == AckAll(old(Handled()), Kept(batch, replies))
      ensures AllDead(Kept(batch, replies), error, failures.Records())
      ensures old(failures.Records()) <= failures.Records()
    {
      for k := 0 to |batch|
        invariant Valid() && Handled() == AckAll(old(Handled()), Kept(batch[..k], replies))
        invariant AllDead(Kept(batch[..k], replies), error, failures.Records())
        invariant old(failures.Records()) <= failures.Records()
      {
        KeptNext(batch, replies, k);
        FailTerminalAndAck(
          batch[k].msg, Some(batch[k].message), "store_batch", error, Retry.MAX_STORE_ATTEMPTS, replies(k));
      }
      assert batch[..|batch|] == batch;
    }

    /** What becomes of the deliveries behind the store call: all acked, or dead-lettered, or left alone. */
    method SettleBatch(batch: seq<EventWithDelivery>, stored: Option<Error>, replies: nat -> Reply, expired: bool)
      returns (err: Option<Error>)
      requires Valid() && Registered(batch)
      modifies this`requests, committer.parts.Values, repo`failed, failures.secondary
      ensures Valid() && (err == None <==> stored == None)
      ensures !expired && stored != Some(Leaf(ContextDone)) ==> err == stored
      ensures stored.Some? && (expired || stored == Some(Leaf(ContextDone))) ==> err == Some(Leaf(ContextDone))
      ensures err == None ==> Handled() == AckAll(old(Handled()), batch)
      ensures err.Some? && Classify(err) == Terminal ==>
                && Handled() == AckAll(old(Handled()), Kept(batch, replies))
                && AllDead(Kept(batch, replies), err.value, failures.Records())
      ensures err.Some? && Classify(err) == Transient ==>
                Handled() == old(Handled()) && failures.Records() == old(failures.Records())
      ensures old(failures.Records()) <= failures.Records()
    {
      if stored.None? {
        AckEach(batch, replies);
        return None;
      }
      if expired || stored == Some(Leaf(ContextDone)) {
        return Some(Leaf(ContextDone));
      }
      if Classify(stored) == Terminal {
        FailEach(batch, stored.value, replies);
      }
      return stored;
    }

    /**
      Store a batch and settle its deliveries. Without an error the batch is in the table, written
      once, and all of it is acked. With a terminal error exactly the deliveries with a failure
      record are acked, and their messages are in it. Otherwise nothing is acked and no commit is
      asked for, though a prefix of the batch may be in the table.
     */
    method StoreBatchWithDeliveries(
      batch: seq<EventWithDelivery>, env: nat -> Attempt, replies: nat -> Reply, expired: bool)
      returns (err: Option<Error>, written: nat)
      requires Valid() && Registered(batch)
      modifies repo, this`requests, committer.parts.Values, failures.secondary
      ensures Valid() && Wrote(old(repo.events), repo.events, EventsOf(batch), written)
      ensures if err == None then written == |batch| else PossiblyWritten(|batch|, written)
      ensures
        var outcome := LoopOutcome(EventsOf(batch), env);
        if batch == [] || outcome.err.None? then err == None
        else if expired then err == Some(Leaf(ContextDone))
        else err == outcome.err
      ensures err == None ==> Handled() == AckAll(old(Handled()), batch)
      ensures err.Some? && Classify(err) == Terminal ==>
                && Handled() == AckAll(old(Handled()), Kept(batch, replies))
                && AllDead(Kept(batch, replies), err.value, failures.Records())
      ensures err.Some? && Classify(err) == Transient ==>
                Handled() == old(Handled()) && failures.Records() == old(failures.Records())
      ensures old(failures.Records()) <= failures.Records()
    {
      err, written := None, 0;
      if |batch| == 0 {
        WroteNothing(repo.events, EventsOf(batch));
        return;
      }
      var attempts, waited;
      var events := EventsOf(batch);
      err, attempts, waited, written := repo.StoreWithRetry(events, env);
      ghost var table := repo.events;
      assert Wrote(old(repo.events), table, events, written) && Handled() == old(Handled());
      err := SettleBatch(batch, err, replies, expired);
      assert repo.events == table;
    }
  }
}
