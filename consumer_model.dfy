/** The consumer's state as a value, and every operation on it as a function
    from the old state (and the inputs the outside world supplies) to the new
    one. The class in KafkaConsumer is proved to follow these functions. */
module ConsumerModel {
  import opened KafkaMessage

  /** Why the last poll gave nothing to process. Only NotStalled makes the
      buffer usable; NoMessagesReturned is the one benign stall. */
  datatype StalledStatus =
    | NotStalled
    | NoMessagesReturned
    | RebalanceHappened
    | ConsumerStopped
    | NoAssignment
    | ErrorsReturned

  /** `current` is the cursor: it sits one past the last message handed out
      from `messages`. `offsetsStored` counts offsets marked ready for commit
      since the last commit. */
  datatype ConsumerState = ConsumerState(
    messages: seq<Message>,
    current: nat,
    status: StalledStatus,
    offsetsStored: nat,
    waitedForAssignment: nat,
    assignment: Option<seq<TopicPartition>>,
    inUse: bool)

  /** The cursor stays within the buffer, and the buffer never holds a message
      carrying a broker error. */
  predicate Valid(c: ConsumerState) {
    c.current <= |c.messages| && ErrorFree(c.messages)
  }

  /** True when the last poll left nothing to process, for any of the five
      stall reasons. */
  function IsStalled(c: ConsumerState): (r: bool)
    ensures r <==> c.status in {NoMessagesReturned, RebalanceHappened, ConsumerStopped, NoAssignment, ErrorsReturned}
  {
    c.status != NotStalled
  }

  /** True when the next consume can be served from the buffer without a poll. */
  function HasMorePolledMessages(c: ConsumerState): (r: bool)
    ensures r ==> !IsStalled(c)
    ensures Valid(c) ==> (r <==> !IsStalled(c) && c.current < |c.messages|)
  {
    c.status == NotStalled && c.current != |c.messages|
  }

  /** True when the consumer is stalled for a reason that needs the caller's
      attention, i.e. for any reason but an idle topic. */
  function PolledDataUnusable(c: ConsumerState): (r: bool)
    ensures r ==> IsStalled(c) && !HasMorePolledMessages(c)
    ensures (IsStalled(c) && !r) <==> c.status == NoMessagesReturned
  {
    c.status != NotStalled && c.status != NoMessagesReturned
  }

  /** A freshly constructed consumer: stalled, but benignly, with nothing buffered. */
  function Initial(): (c: ConsumerState)
    ensures Valid(c) && c.messages == [] && c.offsetsStored == 0 && c.waitedForAssignment == 0
    ensures c.status == NoMessagesReturned && c.assignment == None && !c.inUse
    ensures IsStalled(c) && !PolledDataUnusable(c) && !HasMorePolledMessages(c)
  {
    ConsumerState([], 0, NoMessagesReturned, 0, 0, None, false)
  }

  /** The message behind the cursor: the one the accessors read. */
  function CurrentMessage(c: ConsumerState): (m: Message)
    requires Valid(c) && c.current > 0
    ensures m in c.messages[..c.current] && !m.hasError
  {
    c.messages[c.current - 1]
  }

  /** Drops the buffer and its cursor; nothing is committed. */
  function CleanUnprocessed(c: ConsumerState): (r: ConsumerState)
    ensures Valid(r) && r.messages == [] && !HasMorePolledMessages(r)
    ensures r.(messages := c.messages, current := c.current) == c
  {
    c.(messages := [], current := 0)
  }

  /** Reacts to the shutdown signal: when it is set the consumer is stopped and
      its buffer dropped; otherwise nothing changes. */
  function ResetIfStopped(c: ConsumerState, stopped: bool): (r: ConsumerState)
    ensures stopped ==> Valid(r) && r.status == ConsumerStopped && PolledDataUnusable(r) && r.messages == []
    ensures stopped ==> r.offsetsStored == c.offsetsStored && r.assignment == c.assignment
    ensures stopped ==> r.(messages := c.messages, current := c.current, status := c.status) == c
    ensures !stopped ==> r == c
  {
    if stopped then CleanUnprocessed(c).(status := ConsumerStopped) else c
  }

  /** Hands out the message at the cursor and moves the cursor past it, or
      gives None when the buffer is exhausted. */
  function GetNextMessage(c: ConsumerState): (r: (ConsumerState, Option<Message>))
    requires Valid(c)
    ensures Valid(r.0) && r.0.messages == c.messages && r.0.status == c.status
    ensures r.1.Some? <==> c.current < |c.messages|
    ensures r.1.Some? ==> r.0.current == c.current + 1 && CurrentMessage(r.0) == r.1.value
    ensures r.1.Some? ==> r.0.(current := c.current) == c
    ensures r.1.None? ==> r.0 == c
  {
    if c.current == |c.messages| then (c, None)
    else (c.(current := c.current + 1), Some(c.messages[c.current]))
  }

  /** Removes the messages carrying an error from a freshly polled buffer and
      gives how many there were. */
  function FilterMessageErrors(c: ConsumerState): (r: (ConsumerState, nat))
    requires c.current == 0
    ensures Valid(r.0) && r.0.current == 0
    ensures |c.messages| == |r.0.messages| + r.1
    ensures r.1 == ErrorCount(c.messages)
    ensures r.0.messages == WithoutErrors(c.messages)
    ensures forall m :: m in r.0.messages <==> m in c.messages && !m.hasError
    ensures r.0.(messages := c.messages) == c
  {
    WithoutErrorsCount(c.messages);
    assert forall m :: m in WithoutErrors(c.messages) <==> m in c.messages && !m.hasError by {
      forall m: Message {
        WithoutErrorsMembership(c.messages, m);
      }
    }
    (c.(messages := WithoutErrors(c.messages)), ErrorCount(c.messages))
  }

  /** One consume call. `stopped` is the shutdown signal seen on entry,
      `stoppedAfterPoll` the one seen when the poll returns, and `batch` what
      the poll returned; the last two matter only when a poll is issued. */
  function Consume(c: ConsumerState, stopped: bool, batch: seq<Message>, stoppedAfterPoll: bool)
    : (r: (ConsumerState, Option<Message>))
    requires Valid(c)
    ensures Valid(r.0)
    ensures r.1.Some? <==> !IsStalled(r.0)
    ensures r.1.Some? ==> r.0.current > 0 && CurrentMessage(r.0) == r.1.value
    ensures r.0.offsetsStored == c.offsetsStored && r.0.assignment == c.assignment && r.0.inUse == c.inUse
  {
    if stopped then (ResetIfStopped(c, true), None)
    else if HasMorePolledMessages(c) then GetNextMessage(c)
    else
      var waited := if c.assignment.None? then c.waitedForAssignment + 1 else c.waitedForAssignment;
      if stoppedAfterPoll then (ResetIfStopped(c.(waitedForAssignment := waited), true), None)
      else
        var polled := c.(messages := batch, current := 0, waitedForAssignment := waited);
        if batch == [] then
          (polled.(status := if c.assignment.None? then NoAssignment else NoMessagesReturned), None)
        else
          var filtered := FilterMessageErrors(polled).0;
          if filtered.messages == [] then (filtered.(status := ErrorsReturned), None)
          else GetNextMessage(filtered.(status := NotStalled))
  }

  /** Marks the offset of the message behind the cursor as ready to commit;
      gives the message whose offset goes to the client's offset store. */
  function StoreLastReadMessageOffset(c: ConsumerState): (r: (ConsumerState, Message))
    requires Valid(c) && c.current > 0
    ensures Valid(r.0) && r.1 == CurrentMessage(c)
    ensures r.0.offsetsStored == c.offsetsStored + 1
    ensures r.0.(offsetsStored := c.offsetsStored) == c
  {
    (c.(offsetsStored := c.offsetsStored + 1), c.messages[c.current - 1])
  }

  /** Commits the stored offsets; the flag says whether a commit went to the
      broker, which happens exactly when some offset was pending. */
  function Commit(c: ConsumerState): (r: (ConsumerState, bool))
    ensures r.1 <==> c.offsetsStored > 0
    ensures r.0.offsetsStored == 0
    ensures r.0.(offsetsStored := c.offsetsStored) == c
  {
    if c.offsetsStored == 0 then (c, false) else (c.(offsetsStored := 0), true)
  }

  /** Drops the buffer and every pending offset, so that the next polls
      deliver again whatever was not committed. */
  function ResetToLastCommitted(c: ConsumerState): (r: ConsumerState)
    ensures Valid(r) && r.messages == [] && r.offsetsStored == 0
    ensures !HasMorePolledMessages(r)
    ensures r.(messages := c.messages, current := c.current, offsetsStored := c.offsetsStored) == c
  {
    CleanUnprocessed(c).(offsetsStored := 0)
  }

  /** The effect of the on-assign rebalance callback. */
  function OnPartitionsAssigned(c: ConsumerState, partitions: seq<TopicPartition>): (r: ConsumerState)
    ensures r.assignment == Some(partitions)
    ensures r.(assignment := c.assignment) == c
  {
    c.(assignment := Some(partitions))
  }

  /** The effect of the on-revoke rebalance callback: the assignment is gone,
      the buffer may no longer be used, and the undelivered messages of the
      revoked partitions are dropped. */
  function OnPartitionsRevoked(c: ConsumerState, revoked: seq<TopicPartition>): (r: ConsumerState)
    requires Valid(c)
    ensures Valid(r) && r.current == c.current
    ensures r.messages[..r.current] == c.messages[..c.current]
    ensures forall i :: r.current <= i < |r.messages| ==> r.messages[i].Position() !in revoked
    ensures forall i :: c.current <= i < |c.messages| && c.messages[i].Position() !in revoked
              ==> c.messages[i] in r.messages[r.current..]
    ensures r.assignment == None && r.status == RebalanceHappened && PolledDataUnusable(r)
    ensures r.messages[r.current..] == OutsidePartitions(c.messages[c.current..], revoked)
    ensures r.(messages := c.messages, assignment := c.assignment, status := c.status) == c
  {
    var kept := OutsidePartitions(c.messages[c.current..], revoked);
    var r := c.(messages := c.messages[..c.current] + kept, assignment := None, status := RebalanceHappened);
    assert r.messages[..r.current] == c.messages[..c.current];
    assert r.messages[r.current..] == kept;
    forall i | c.current <= i < |c.messages| && c.messages[i].Position() !in revoked
      ensures c.messages[i] in kept
    {
      assert c.messages[i] == c.messages[c.current..][i - c.current];
      OutsidePartitionsMembership(c.messages[c.current..], revoked, c.messages[i]);
    }
    forall i | 0 <= i < |r.messages|
      ensures !r.messages[i].hasError
    {
      if i >= c.current {
        assert r.messages[i] in kept;
        assert r.messages[i] in c.messages;
      }
    }
    r
  }
}
