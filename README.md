# KafkaConsumer: the consumer-side state machine

This project models the consumer adapter that ClickHouse's Kafka storage puts
over a Kafka client handle (`KafkaConsumer`). The adapter polls batches of
messages and hands them out one at a time through `consume`. It tracks why the
last poll gave nothing usable: the six-valued stalled status. It counts the
offsets marked ready to commit, commits them, and recovers after a shutdown
signal, an empty poll, a missing partition assignment, a rebalance or messages
that carry broker errors.

The model has four modules:

- `KafkaMessage` (`kafka_message.dfy`): the polled message as a value, with
  topic, key, partition, offset, timestamp, headers, payload and an error flag.
  It also holds the two ways the buffer is thinned out, by dropping messages
  that carry an error and by dropping messages of revoked partitions, with
  their properties.
- `ConsumerModel` (`consumer_model.dfy`): the adapter's state as a value
  `ConsumerState`: the buffer `messages`, the cursor `current`, the stalled
  status, `offsetsStored`, `waitedForAssignment`, the optional assignment and
  the in-use flag. Each operation is a function from the old state to the new
  one. Its contract states the invariant it keeps and what the operation
  promises. The invariant says the cursor stays within the buffer and the
  buffer never holds a message that carries an error.
- `ConsumerProperties` (`consumer_properties.dfy`): properties that span
  several calls. They cover draining a batch, what a poll's outcome does to the
  status, how shutdown and rebalances take priority, and how stored offsets
  reach a commit.
- `KafkaConsumer` (`kafka_consumer.dfy`): the class. Its fields are updated in
  place by its methods, and each method is proved to move `State()` exactly as
  the matching `ConsumerModel` function does. The three status predicates and
  the seven `current*` accessors of the class read the same state through the
  `ConsumerModel` definitions, so each concept is defined once.

The C++ `current` is an iterator one past the last delivered message. Here it
is the index `current`, and the accessors read `messages[current - 1]`. They
require `current > 0`, because the C++ accessors dereference `current[-1]` and
are undefined before the first delivery. The shutdown flag, the poll result and
the rebalance notifications come from outside, so they are parameters of the
operations.

Only the header `src/Storages/Kafka/KafkaConsumer.h` is part of this model. The
bodies of `consume`, `commit`, `storeLastReadMessageOffset`,
`resetToLastCommitted`, `filterMessageErrors`, `cleanUnprocessed`,
`resetIfStopped` and `getNextMessage` live in `KafkaConsumer.cpp`, which is not
part of this model. The header does not show what they do, so the bullets
below are the behaviour this model assumes for those bodies; they are not read
from the header:

- `consume` first reacts to the shutdown signal. It then serves the buffer
  while `hasMorePolledMessages()` holds, and otherwise polls. A shutdown seen
  when the poll returns wins over any data. An empty poll stalls with
  `NO_ASSIGNMENT` when there is no assignment and with `NO_MESSAGES_RETURNED`
  otherwise. A batch made only of errors stalls with `ERRORS_RETURNED`. Any
  other batch is filtered of its errors, the status becomes `NOT_STALLED`, and
  its first message is delivered.
- Every poll attempted without an assignment adds one to
  `waitedForAssignment`.
- `consume` does not refuse to poll when `polledDataUnusable()` holds. The
  caller recovers from every stall except `CONSUMER_STOPPED` by calling
  `consume` again. `CONSUMER_STOPPED` ends the session: the shutdown flag is a
  reference to a shared atomic that the adapter never clears, so once it is set
  every later `consume` stops again.
- `cleanUnprocessed` drops the buffer and the cursor.
  `resetToLastCommitted` also drops the pending-offset count.
- The on-assign callback stores the assignment. The on-revoke callback clears
  it, sets `REBALANCE_HAPPENED` and drops the undelivered buffered messages of
  the revoked partitions.

## Model

| member | source | states |
|---|---|---|
| KafkaMessage.WithoutErrors | src/Storages/Kafka/KafkaConsumer.h:158-159 | the filtered buffer is no longer than the polled one and holds no message that carries an error |
| KafkaMessage.ErrorCount | src/Storages/Kafka/KafkaConsumer.h:158-159 | the number of messages with an error is at most the batch size |
| KafkaMessage.WithoutErrorsCount | src/Storages/Kafka/KafkaConsumer.h:158-159 | kept messages plus messages with an error make up the whole batch: old length = new length + returned count |
| KafkaMessage.WithoutErrorsAppend | src/Storages/Kafka/KafkaConsumer.h:158-159 | filtering and counting work piecewise over concatenation, so the kept messages stay in their original order |
| KafkaMessage.WithoutErrorsMembership | src/Storages/Kafka/KafkaConsumer.h:158-159 | a message survives the filter iff it was polled and carries no error |
| KafkaMessage.WithoutErrorsEmpty | src/Storages/Kafka/KafkaConsumer.h:158-159 | the filter empties the batch iff every message carried an error |
| KafkaMessage.WithoutErrorsUnchanged | src/Storages/Kafka/KafkaConsumer.h:158-159 | the filter leaves the batch as it is iff no message carried an error |
| KafkaMessage.OutsidePartitions | src/Storages/Kafka/KafkaConsumer.h:138 | after a revocation no kept message belongs to a revoked partition, and every kept message was in the buffer |
| KafkaMessage.OutsidePartitionsMembership | src/Storages/Kafka/KafkaConsumer.h:138 | a message survives a revocation iff it was buffered and its partition was not revoked |
| ConsumerModel.HasMorePolledMessages | src/Storages/Kafka/KafkaConsumer.h:72-75 | more polled messages implies not stalled; for a valid state it holds iff the status is NOT_STALLED and the cursor is before the end of the buffer |
| ConsumerModel.IsStalled | src/Storages/Kafka/KafkaConsumer.h:82 | stalled iff the status is one of the five stall reasons, i.e. anything but NOT_STALLED |
| ConsumerModel.PolledDataUnusable | src/Storages/Kafka/KafkaConsumer.h:77-82 | unusable implies stalled and no more polled messages; a stalled consumer is usable iff its status is NO_MESSAGES_RETURNED |
| ConsumerModel.Initial | src/Storages/Kafka/KafkaConsumer.h:122-153 | a new consumer has an empty buffer, zero stored offsets, no wait, no assignment, is not in use, and has status NO_MESSAGES_RETURNED: stalled, not unusable, no more polled messages |
| ConsumerModel.CurrentMessage | src/Storages/Kafka/KafkaConsumer.h:91-98 | with at least one message delivered, the accessors read a delivered message, which carries no error |
| ConsumerModel.CleanUnprocessed | src/Storages/Kafka/KafkaConsumer.h:156 | the buffer is empty, nothing more is polled, and every other part of the state is unchanged |
| ConsumerModel.ResetIfStopped | src/Storages/Kafka/KafkaConsumer.h:131-157 | with the shutdown signal set the status is CONSUMER_STOPPED, the data is unusable and the buffer empty, and every other part of the state (pending offsets, wait count, assignment, in-use flag) is unchanged; without it nothing changes |
| ConsumerModel.GetNextMessage | src/Storages/Kafka/KafkaConsumer.h:160 | a message is returned iff the cursor is before the end; it is then the one the accessors read and the cursor moved by one, with the rest of the state unchanged; otherwise nothing changes |
| ConsumerModel.FilterMessageErrors | src/Storages/Kafka/KafkaConsumer.h:158-159 | returns the number of messages with an error; old length = new length + result; the buffer becomes exactly the error-free messages in their original order; the rest of the state is unchanged |
| ConsumerModel.Consume | src/Storages/Kafka/KafkaConsumer.h:87-89 | keeps the invariant; returns a message iff the consumer ends NOT_STALLED, and that message is the one the accessors then read; pending offsets, assignment and in-use flag are unchanged |
| ConsumerModel.StoreLastReadMessageOffset | src/Storages/Kafka/KafkaConsumer.h:84 | the stored message is the one behind the cursor; the pending count grows by one and nothing else changes |
| ConsumerModel.Commit | src/Storages/Kafka/KafkaConsumer.h:66 | a commit goes to the broker iff some offset is pending; afterwards none is pending and nothing else changes |
| ConsumerModel.ResetToLastCommitted | src/Storages/Kafka/KafkaConsumer.h:85 | the buffer and the pending offsets are dropped, so there are no more polled messages; the status, assignment and counters are unchanged |
| ConsumerModel.OnPartitionsAssigned | src/Storages/Kafka/KafkaConsumer.h:138 | the assignment becomes the given partitions; nothing else changes |
| ConsumerModel.OnPartitionsRevoked | src/Storages/Kafka/KafkaConsumer.h:138 | the assignment is gone and the status is REBALANCE_HAPPENED, so the data is unusable; delivered messages and the cursor stay; after the cursor the buffer is exactly the old undelivered messages of non-revoked partitions, in order; the counters and in-use flag are unchanged |
| ConsumerProperties.ConsumeServesBuffer | src/Storages/Kafka/KafkaConsumer.h:72-89 | while messages remain, consume returns the message at the cursor and advances it by exactly one, whatever a poll would have returned |
| ConsumerProperties.ConsumeHonoursShutdown | src/Storages/Kafka/KafkaConsumer.h:131-157 | a shutdown signal on entry or after the poll makes consume return nothing, with status CONSUMER_STOPPED, data unusable and an empty buffer; the wait count grows by one only when the poll was issued without an assignment |
| ConsumerProperties.PollOutcome | src/Storages/Kafka/KafkaConsumer.h:110-118 | a poll counts one wait when there is no assignment; empty poll: NO_ASSIGNMENT or NO_MESSAGES_RETURNED; N messages with N errors: ERRORS_RETURNED and nothing usable; with K < N errors: NOT_STALLED, N - K messages in original order, first one delivered |
| ConsumerProperties.ConsumeRepeatedly | src/Storages/Kafka/KafkaConsumer.h:87-89 | k consume calls keep the invariant and return k results |
| ConsumerProperties.DrainDeliversInOrder | src/Storages/Kafka/KafkaConsumer.h:72-75 | k consumes from a usable buffer return the next k messages in order and advance the cursor by k; messages remain iff the cursor is still before the end |
| ConsumerProperties.BatchDeliveredInFull | src/Storages/Kafka/KafkaConsumer.h:72-89 | an error-free batch of N messages is delivered in full and in order by the polling consume and N - 1 more, after which no polled message remains |
| ConsumerProperties.AssignmentEndsNoAssignment | src/Storages/Kafka/KafkaConsumer.h:116-138 | without an assignment an empty poll gives NO_ASSIGNMENT; after the assign callback a poll with usable data gives NOT_STALLED and a message |
| ConsumerProperties.RevocationLeadsToNoAssignment | src/Storages/Kafka/KafkaConsumer.h:114-138 | after a revocation the data is unusable and an empty poll gives NO_ASSIGNMENT |
| ConsumerProperties.StoreThenCommit | src/Storages/Kafka/KafkaConsumer.h:66-84 | a commit after a store goes to the broker and clears the pending count; a second commit right after is a no-op |
| ConsumerProperties.ResetForcesPoll | src/Storages/Kafka/KafkaConsumer.h:85-89 | after a reset to the last commit, the next consume polls and delivers from the new batch |
| KafkaConsumer.KafkaConsumer.constructor | src/Storages/Kafka/KafkaConsumer.h:55-63 | the new object is valid, in the initial state, and keeps its configuration |
| KafkaConsumer.KafkaConsumer.HasMorePolledMessages | src/Storages/Kafka/KafkaConsumer.h:72-75 | on a valid object: true iff the status is NOT_STALLED and the cursor is before the end of the buffer |
| KafkaConsumer.KafkaConsumer.PolledDataUnusable | src/Storages/Kafka/KafkaConsumer.h:77-80 | true iff the status is neither NOT_STALLED nor NO_MESSAGES_RETURNED; implies stalled |
| KafkaConsumer.KafkaConsumer.IsStalled | src/Storages/Kafka/KafkaConsumer.h:82 | true iff the status is not NOT_STALLED |
| KafkaConsumer.KafkaConsumer.CurrentTopic | src/Storages/Kafka/KafkaConsumer.h:92 | with a message delivered, the topic of the message just behind the cursor |
| KafkaConsumer.KafkaConsumer.CurrentKey | src/Storages/Kafka/KafkaConsumer.h:93 | with a message delivered, the key of the message just behind the cursor |
| KafkaConsumer.KafkaConsumer.CurrentOffset | src/Storages/Kafka/KafkaConsumer.h:94 | with a message delivered, the offset of the message just behind the cursor |
| KafkaConsumer.KafkaConsumer.CurrentPartition | src/Storages/Kafka/KafkaConsumer.h:95 | with a message delivered, the partition of the message just behind the cursor |
| KafkaConsumer.KafkaConsumer.CurrentTimestamp | src/Storages/Kafka/KafkaConsumer.h:96 | with a message delivered, the timestamp of the message just behind the cursor |
| KafkaConsumer.KafkaConsumer.CurrentHeaderList | src/Storages/Kafka/KafkaConsumer.h:97 | with a message delivered, the headers of the message just behind the cursor |
| KafkaConsumer.KafkaConsumer.CurrentPayload | src/Storages/Kafka/KafkaConsumer.h:98 | with a message delivered, the payload of the message just behind the cursor |
| KafkaConsumer.KafkaConsumer.InUse | src/Storages/Kafka/KafkaConsumer.h:100 | sets the in-use flag and changes nothing else |
| KafkaConsumer.KafkaConsumer.NotInUse | src/Storages/Kafka/KafkaConsumer.h:101 | clears the in-use flag and changes nothing else |
| KafkaConsumer.KafkaConsumer.CleanUnprocessed | src/Storages/Kafka/KafkaConsumer.h:156 | moves the state as ConsumerModel.CleanUnprocessed |
| KafkaConsumer.KafkaConsumer.ResetIfStopped | src/Storages/Kafka/KafkaConsumer.h:157 | moves the state as ConsumerModel.ResetIfStopped |
| KafkaConsumer.KafkaConsumer.GetNextMessage | src/Storages/Kafka/KafkaConsumer.h:160 | moves the state and returns as ConsumerModel.GetNextMessage |
| KafkaConsumer.KafkaConsumer.FilterMessageErrors | src/Storages/Kafka/KafkaConsumer.h:158-159 | one sweep over the buffer leaves it and returns the count as ConsumerModel.FilterMessageErrors |
| KafkaConsumer.KafkaConsumer.Consume | src/Storages/Kafka/KafkaConsumer.h:87-89 | moves the state and returns as ConsumerModel.Consume, keeping the buffer within the batch size |
| KafkaConsumer.KafkaConsumer.StoreLastReadMessageOffset | src/Storages/Kafka/KafkaConsumer.h:84 | moves the state and returns as ConsumerModel.StoreLastReadMessageOffset |
| KafkaConsumer.KafkaConsumer.Commit | src/Storages/Kafka/KafkaConsumer.h:66 | moves the state and returns as ConsumerModel.Commit |
| KafkaConsumer.KafkaConsumer.ResetToLastCommitted | src/Storages/Kafka/KafkaConsumer.h:85 | moves the state as ConsumerModel.ResetToLastCommitted |
| KafkaConsumer.KafkaConsumer.OnPartitionsAssigned | src/Storages/Kafka/KafkaConsumer.h:138 | moves the state as ConsumerModel.OnPartitionsAssigned |
| KafkaConsumer.KafkaConsumer.OnPartitionsRevoked | src/Storages/Kafka/KafkaConsumer.h:138 | moves the state as ConsumerModel.OnPartitionsRevoked |

## Left out

- Calls into the Kafka client: `subscribe`, `unsubscribe`, `getMemberId`,
  `drain`, registering the rebalance callbacks, the broker side of `commit`,
  and the seek to committed offsets in `resetToLastCommitted`. They belong to a
  foreign library whose behaviour is not visible. The poll result is a
  parameter of `Consume`. The client's promise to return at most `batch_size`
  messages is a precondition of `KafkaConsumer.Consume`.
- The `Stat` snapshot (`getStat`, `setExceptionInfo`, `exception_mutex`, the
  atomic counters and the last-event timestamps). They exist so that a
  monitoring thread can read safely, and they have no sequential behaviour of
  their own. For the same reason the commit, message and rebalance counters are
  not modelled.
- Wall-clock time, and with it `last_poll_time` and the poll timeout's effect.
  `pollTimeout` is kept as a constant field, which is all `pollTimeout()`
  returns.
- The `KafkaConsumers` metric gauge and the logger: process-wide side channels.
- The `ReadBuffer` over the payload: `consume` returns the message itself.
- The cadence of intermediate commits: `intermediateCommit` is recorded and has
  no effect, because no rule for it appears in the header.
- The shared `stopped` flag as a concurrent signal. It is a boolean seen on
  entry and one seen when the poll returns.
- ConsumerModel.Consume: takes the shutdown signal afresh on every call, so the
  model lets it fall back to false between calls, which the real flag never
  does once set. A consume after `CONSUMER_STOPPED` with the signal clear
  therefore polls again in the model; the model does not capture that shutdown
  is terminal for the session. The same holds for KafkaConsumer.KafkaConsumer.Consume.
- The stall transitions of `consume` (which status an empty poll, a batch of
  errors or a shutdown leaves, and that `waitedForAssignment` counts polls made
  without an assignment), the effect of `resetToLastCommitted`, and the two
  rebalance callbacks are assumptions about bodies in `KafkaConsumer.cpp`, not
  behaviour read from `KafkaConsumer.h`. The header gives only the fields and
  the signatures. For example, `waited_for_assignment` may measure time waited
  rather than count polls.
- Rebalance callbacks firing inside a poll: the assign and revoke effects are
  separate operations applied between consume calls.
- Destruction order of the buffer, the assignment and the client handle: C++
  object lifetime.
- The widths of `size_t` counters: `offsetsStored` and `waitedForAssignment`
  are unbounded, so their wrap-around after 2^64 increments is not modelled.
