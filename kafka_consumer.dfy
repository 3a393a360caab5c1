/** The consumer adapter as an object whose fields its methods update in place.
    Each method is proved to move the object's state exactly as the
    corresponding function of ConsumerModel says. */
module KafkaConsumer {
  import opened KafkaMessage
  import opened ConsumerModel

  class KafkaConsumer {
    const batchSize: nat
    const pollTimeout: nat
    const intermediateCommit: bool
    const topics: seq<string>

    var messages: seq<Message>
    var current: nat
    var stalledStatus: StalledStatus
    var offsetsStored: nat
    var waitedForAssignment: nat
    var assignment: Option<seq<TopicPartition>>
    var inUse: bool

    /** The fields read as a ConsumerModel state. */
    function State(): ConsumerState
      reads this
    {
      ConsumerState(messages, current, stalledStatus, offsetsStored, waitedForAssignment, assignment, inUse)
    }

    /** The model's invariant, and a buffer no larger than one poll can fill. */
    ghost predicate Valid()
      reads this
    {
      ConsumerModel.Valid(State()) && |messages| <= batchSize
    }

    constructor (batchSize: nat, pollTimeout: nat, intermediateCommit: bool, topics: seq<string>)
      ensures Valid() && State() == Initial()
      ensures this.batchSize == batchSize && this.pollTimeout == pollTimeout
      ensures this.intermediateCommit == intermediateCommit && this.topics == topics
    {
      this.batchSize := batchSize;
      this.pollTimeout := pollTimeout;
      this.intermediateCommit := intermediateCommit;
      this.topics := topics;
      messages := [];
      current := 0;
      stalledStatus := NoMessagesReturned;
      offsetsStored := 0;
      waitedForAssignment := 0;
      assignment := None;
      inUse := false;
    }

    predicate HasMorePolledMessages()
      reads this
      ensures Valid() ==> (HasMorePolledMessages() <==> stalledStatus == NotStalled && current < |messages|)
    {
      ConsumerModel.HasMorePolledMessages(State())
    }

    predicate PolledDataUnusable()
      reads this
      ensures PolledDataUnusable() <==> stalledStatus !in {NotStalled, NoMessagesReturned}
      ensures PolledDataUnusable() ==> IsStalled()
    {
      ConsumerModel.PolledDataUnusable(State())
    }

    predicate IsStalled()
      reads this
      ensures IsStalled() <==> stalledStatus != NotStalled
    {
      ConsumerModel.IsStalled(State())
    }

    // Accessors for the message behind the cursor, i.e. the one consume
    // returned last.

    function CurrentTopic(): (v: string)
      reads this
      requires Valid() && current > 0
      ensures v == messages[current - 1].topic
    {
      CurrentMessage(State()).topic
    }

    function CurrentKey(): (v: string)
      reads this
      requires Valid() && current > 0
      ensures v == messages[current - 1].key
    {
      CurrentMessage(State()).key
    }

    function CurrentOffset(): (v: int)
      reads this
      requires Valid() && current > 0
      ensures v == messages[current - 1].offset
    {
      CurrentMessage(State()).offset
    }

    function CurrentPartition(): (v: int)
      reads this
      requires Valid() && current > 0
      ensures v == messages[current - 1].partition
    {
      CurrentMessage(State()).partition
    }

    function CurrentTimestamp(): (v: int)
      reads this
      requires Valid() && current > 0
      ensures v == messages[current - 1].timestamp
    {
      CurrentMessage(State()).timestamp
    }

    function CurrentHeaderList(): (v: seq<Header>)
      reads this
      requires Valid() && current > 0
      ensures v == messages[current - 1].headers
    {
      CurrentMessage(State()).headers
    }

    function CurrentPayload(): (v: string)
      reads this
      requires Valid() && current > 0
      ensures v == messages[current - 1].payload
    {
      CurrentMessage(State()).payload
    }

    method InUse()
      modifies this
      ensures State() == old(State()).(inUse := true)
      ensures old(Valid()) ==> Valid()
    {
      inUse := true;
    }

    method NotInUse()
      modifies this
      ensures State() == old(State()).(inUse := false)
      ensures old(Valid()) ==> Valid()
    {
      inUse := false;
    }

    method CleanUnprocessed()
      modifies this
      ensures State() == ConsumerModel.CleanUnprocessed(old(State()))
      ensures Valid()
    {
      messages := [];
      current := 0;
    }

    method ResetIfStopped(stopped: bool)
      requires Valid()
      modifies this
      ensures State() == ConsumerModel.ResetIfStopped(old(State()), stopped)
      ensures Valid()
    {
      if stopped {
        stalledStatus := ConsumerStopped;
        CleanUnprocessed();
      }
    }

    method GetNextMessage() returns (m: Option<Message>)
      requires Valid()
      modifies this
      ensures (State(), m) == ConsumerModel.GetNextMessage(old(State()))
      ensures Valid()
    {
      if current == |messages| {
        m := None;
      } else {
        m := Some(messages[current]);
        current := current + 1;
      }
    }

    /** Sweeps the freshly polled buffer once, keeping the messages that carry
        no error and counting the others. */
    method FilterMessageErrors() returns (skipped: nat)
      requires current == 0 && |messages| <= batchSize
      modifies this
      ensures (State(), skipped) == ConsumerModel.FilterMessageErrors(old(State()))
      ensures Valid()
    {
      var polled := messages;
      var kept: seq<Message> := [];
      skipped := 0;
      var i := 0;
      while i < |polled|
        invariant i <= |polled|
        invariant kept == WithoutErrors(polled[..i])
        invariant skipped == ErrorCount(polled[..i])
        invariant unchanged(this)
      {
        assert polled[..i + 1] == polled[..i] + [polled[i]];
        WithoutErrorsAppend(polled[..i], [polled[i]]);
        if polled[i].hasError {
          skipped := skipped + 1;
        } else {
          kept := kept + [polled[i]];
        }
        i := i + 1;
      }
      assert polled[..i] == polled;
      messages := kept;
    }

    /** Serves the next buffered message, or polls: `batch` is what the poll
        returns, `stopped` and `stoppedAfterPoll` the shutdown signal on entry
        and when the poll returns. */
    method Consume(stopped: bool, batch: seq<Message>, stoppedAfterPoll: bool) returns (m: Option<Message>)
      requires Valid() && |batch| <= batchSize
      modifies this
      ensures (State(), m) == ConsumerModel.Consume(old(State()), stopped, batch, stoppedAfterPoll)
      ensures Valid()
    {
      ResetIfStopped(stopped);
      if stopped {
        return None;
      }
      if HasMorePolledMessages() {
        m := GetNextMessage();
        return;
      }
      if assignment.None? {
        waitedForAssignment := waitedForAssignment + 1;
      }
      if stoppedAfterPoll {
        ResetIfStopped(true);
        return None;
      }
      messages := batch;
      current := 0;
      if batch == [] {
        stalledStatus := if assignment.None? then NoAssignment else NoMessagesReturned;
        return None;
      }
      var _ := FilterMessageErrors();
      if messages == [] {
        stalledStatus := ErrorsReturned;
        return None;
      }
      stalledStatus := NotStalled;
      m := GetNextMessage();
    }

    /** Hands the message behind the cursor to the client's offset store and
        counts one more pending offset. */
    method StoreLastReadMessageOffset() returns (stored: Message)
      requires Valid() && current > 0
      modifies this
      ensures (State(), stored) == ConsumerModel.StoreLastReadMessageOffset(old(State()))
      ensures Valid()
    {
      stored := messages[current - 1];
      offsetsStored := offsetsStored + 1;
    }

    /** Commits the pending offsets, if there are any; `committed` tells
        whether a commit was sent to the broker. */
    method Commit() returns (committed: bool)
      requires Valid()
      modifies this
      ensures (State(), committed) == ConsumerModel.Commit(old(State()))
      ensures Valid()
    {
      committed := offsetsStored > 0;
      if committed {
        offsetsStored := 0;
      }
    }

    /** `reason` (the C++ `msg`) has no effect on the state in this model. */
    method ResetToLastCommitted(reason: string)
      modifies this
      ensures State() == ConsumerModel.ResetToLastCommitted(old(State()))
      ensures Valid()
    {
      CleanUnprocessed();
      offsetsStored := 0;
    }

    method OnPartitionsAssigned(partitions: seq<TopicPartition>)
      modifies this
      ensures State() == ConsumerModel.OnPartitionsAssigned(old(State()), partitions)
      ensures old(Valid()) ==> Valid()
    {
      assignment := Some(partitions);
    }

    method OnPartitionsRevoked(revoked: seq<TopicPartition>)
      requires Valid()
      modifies this
      ensures State() == ConsumerModel.OnPartitionsRevoked(old(State()), revoked)
      ensures Valid()
    {
      messages := messages[..current] + OutsidePartitions(messages[current..], revoked);
      assignment := None;
      stalledStatus := RebalanceHappened;
    }
  }
}
