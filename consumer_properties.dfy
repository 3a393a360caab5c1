/** Properties of the consumer that span several operations: how consume
    drains a batch, how a poll's outcome sets the stall status, how the
    shutdown signal and rebalances override everything else, and how stored
    offsets reach a commit. */
module ConsumerProperties {
  import opened KafkaMessage
  import opened ConsumerModel

  /** While messages remain, consume serves the one at the cursor from the
      buffer and moves the cursor by exactly one; the poll inputs are ignored. */
  lemma ConsumeServesBuffer(c: ConsumerState, batch: seq<Message>, stoppedAfterPoll: bool)
    requires Valid(c) && HasMorePolledMessages(c)
    ensures Consume(c, false, batch, stoppedAfterPoll)
         == (c.(current := c.current + 1), Some(c.messages[c.current]))
  {
  }

  /** A shutdown signal seen on entry, or seen when a poll returns, stops the
      consumer whatever the poll brought: nothing is delivered and the buffer
      is gone. A poll that was issued without an assignment still counts as a
      wait. */
  lemma ConsumeHonoursShutdown(c: ConsumerState, stopped: bool, batch: seq<Message>, stoppedAfterPoll: bool)
    requires Valid(c)
    requires stopped || (stoppedAfterPoll && !HasMorePolledMessages(c))
    ensures var r := Consume(c, stopped, batch, stoppedAfterPoll);
      r.1 == None && r.0.status == ConsumerStopped && PolledDataUnusable(r.0) && r.0.messages == []
    ensures Consume(c, stopped, batch, stoppedAfterPoll).0.waitedForAssignment
         == c.waitedForAssignment + (if !stopped && c.assignment == None then 1 else 0)
  {
  }

  /** What a poll leaves behind when consume issues one: an empty batch stalls
      with NoAssignment or NoMessagesReturned depending on whether an
      assignment exists; a batch of errors only stalls with ErrorsReturned and
      an empty buffer; otherwise the error-free part of the batch, in order,
      becomes the buffer and its first message is delivered. */
  lemma PollOutcome(c: ConsumerState, batch: seq<Message>)
    requires Valid(c) && !HasMorePolledMessages(c)
    ensures var r := Consume(c, false, batch, false);
      && r.0.waitedForAssignment == c.waitedForAssignment + (if c.assignment == None then 1 else 0)
      && (batch == [] ==>
            r.1 == None && r.0.messages == []
            && r.0.status == (if c.assignment == None then NoAssignment else NoMessagesReturned))
      && (batch != [] && ErrorCount(batch) == |batch| ==>
            r.1 == None && r.0.status == ErrorsReturned && r.0.messages == [])
      && (ErrorCount(batch) < |batch| ==>
            && r.0.status == NotStalled
            && r.0.messages == WithoutErrors(batch)
            && |r.0.messages| == |batch| - ErrorCount(batch)
            && r.0.current == 1
            && r.1 == Some(r.0.messages[0]))
  {
  }

  /** `k` consume calls in a row with no shutdown signal and empty polls; gives
      the final state and what each call returned. */
  function ConsumeRepeatedly(c: ConsumerState, k: nat): (r: (ConsumerState, seq<Option<Message>>))
    requires Valid(c)
    ensures Valid(r.0) && |r.1| == k
    decreases k
  {
    if k == 0 then (c, [])
    else
      var next := Consume(c, false, [], false);
      var rest := ConsumeRepeatedly(next.0, k - 1);
      (rest.0, [next.1] + rest.1)
  }

  /** Draining a usable buffer: `k` consumes hand out the next `k` messages in
      buffer order without polling, and messages remain exactly until the
      cursor reaches the end of the buffer. */
  lemma {:induction false} DrainDeliversInOrder(c: ConsumerState, k: nat)
    requires Valid(c) && c.status == NotStalled && c.current + k <= |c.messages|
    ensures ConsumeRepeatedly(c, k).0 == c.(current := c.current + k)
    ensures forall i :: 0 <= i < k ==> ConsumeRepeatedly(c, k).1[i] == Some(c.messages[c.current + i])
    ensures HasMorePolledMessages(ConsumeRepeatedly(c, k).0) <==> c.current + k < |c.messages|
    decreases k
  {
    if k > 0 {
      ConsumeServesBuffer(c, [], false);
      var c1 := c.(current := c.current + 1);
      DrainDeliversInOrder(c1, k - 1);
      var r := ConsumeRepeatedly(c, k);
      assert r.1 == [Some(c.messages[c.current])] + ConsumeRepeatedly(c1, k - 1).1;
      forall i | 0 <= i < k
        ensures r.1[i] == Some(c.messages[c.current + i])
      {
        if i > 0 {
          assert r.1[i] == ConsumeRepeatedly(c1, k - 1).1[i - 1];
        }
      }
    }
  }

  /** A poll that returns N messages none of which carries an error: the consume
      that polled delivers the first, the next N - 1 consumes deliver the rest
      in order, and only then does the consumer run out of polled messages, so
      the consume after them polls again. */
  lemma BatchDeliveredInFull(c: ConsumerState, batch: seq<Message>)
    requires Valid(c) && !HasMorePolledMessages(c)
    requires batch != [] && ErrorCount(batch) == 0
    ensures var first := Consume(c, false, batch, false);
      && first.1 == Some(batch[0])
      && first.0.messages == batch
      && (forall i :: 1 <= i < |batch| ==>
            ConsumeRepeatedly(first.0, |batch| - 1).1[i - 1] == Some(batch[i]))
      && !HasMorePolledMessages(ConsumeRepeatedly(first.0, |batch| - 1).0)
  {
    WithoutErrorsUnchanged(batch);
    var first := Consume(c, false, batch, false);
    DrainDeliversInOrder(first.0, |batch| - 1);
  }

  /** Without an assignment an empty poll stalls with NoAssignment; once the
      assign callback has run, a poll that brings usable data ends the stall. */
  lemma AssignmentEndsNoAssignment(c: ConsumerState, partitions: seq<TopicPartition>, batch: seq<Message>)
    requires Valid(c) && !HasMorePolledMessages(c) && c.assignment == None
    requires ErrorCount(batch) < |batch|
    ensures var waiting := Consume(c, false, [], false).0;
      && waiting.status == NoAssignment
      && var resumed := Consume(OnPartitionsAssigned(waiting, partitions), false, batch, false);
      && resumed.0.status == NotStalled
      && resumed.1.Some?
  {
  }

  /** A revocation makes the buffered data unusable and forgets the
      assignment, so the next consume polls, and if the poll is empty the
      consumer waits for an assignment again. */
  lemma RevocationLeadsToNoAssignment(c: ConsumerState, revoked: seq<TopicPartition>)
    requires Valid(c)
    ensures var r := OnPartitionsRevoked(c, revoked);
      && PolledDataUnusable(r)
      && Consume(r, false, [], false).0.status == NoAssignment
  {
  }

  /** A commit right after an offset was stored goes to the broker and leaves
      nothing pending; a second commit straight after it is a no-op. */
  lemma StoreThenCommit(c: ConsumerState)
    requires Valid(c) && c.current > 0
    ensures var committed := Commit(StoreLastReadMessageOffset(c).0);
      && committed == (c.(offsetsStored := 0), true)
      && Commit(committed.0) == (committed.0, false)
  {
  }

  /** After a reset to the last commit the next consume cannot be served from
      the buffer: it polls, so whatever was not committed is read again. */
  lemma ResetForcesPoll(c: ConsumerState, batch: seq<Message>)
    requires ErrorCount(batch) < |batch|
    ensures var r := Consume(ResetToLastCommitted(c), false, batch, false);
      r.0.messages == WithoutErrors(batch) && r.1 == Some(WithoutErrors(batch)[0])
  {
  }
}
