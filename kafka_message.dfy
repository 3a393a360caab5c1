/** Messages as the broker client hands them to the consumer, and the two ways the
    consumer thins out a buffer of them: dropping messages that carry a broker
    error, and dropping messages of partitions that were revoked. */
module KafkaMessage {

  datatype Option<T> = None | Some(value: T)

  /** One element of a partition assignment. */
  datatype TopicPartition = TopicPartition(topic: string, partition: int)

  datatype Header = Header(name: string, value: string)

  /** A polled message. `hasError` is set when the broker reported a per-message
      error in place of data. */
  datatype Message = Message(
    topic: string,
    key: string,
    partition: int,
    offset: int,
    timestamp: int,
    headers: seq<Header>,
    payload: string,
    hasError: bool)
  {
    function Position(): TopicPartition {
      TopicPartition(topic, partition)
    }
  }

  predicate ErrorFree(s: seq<Message>) {
    forall i :: 0 <= i < |s| ==> !s[i].hasError
  }

  /** The messages of `s` that carry no error, in their original order. */
  function WithoutErrors(s: seq<Message>): (r: seq<Message>)
    ensures |r| <= |s|
    ensures ErrorFree(r)
  {
    if s == [] then []
    else if s[0].hasError then WithoutErrors(s[1..])
    else [s[0]] + WithoutErrors(s[1..])
  }

  /** The number of messages of `s` that carry an error. */
  function ErrorCount(s: seq<Message>): (n: nat)
    ensures n <= |s|
  {
    if s == [] then 0
    else (if s[0].hasError then 1 else 0) + ErrorCount(s[1..])
  }

  /** Every message is either kept or counted as an error, never both. */
  lemma {:induction false} WithoutErrorsCount(s: seq<Message>)
    ensures |WithoutErrors(s)| + ErrorCount(s) == |s|
  {
    if s != [] {
      WithoutErrorsCount(s[1..]);
    }
  }

  /** Filtering works piecewise: the kept messages of `a + b` are those of `a`
      followed by those of `b`, so the original order survives. */
  lemma {:induction false} WithoutErrorsAppend(a: seq<Message>, b: seq<Message>)
    ensures WithoutErrors(a + b) == WithoutErrors(a) + WithoutErrors(b)
    ensures ErrorCount(a + b) == ErrorCount(a) + ErrorCount(b)
  {
    if a == [] {
      assert a + b == b;
    } else {
      assert (a + b)[0] == a[0];
      assert (a + b)[1..] == a[1..] + b;
      WithoutErrorsAppend(a[1..], b);
    }
  }

  /** A message survives the filter exactly when it was in the buffer and
      carries no error. */
  lemma {:induction false} WithoutErrorsMembership(s: seq<Message>, m: Message)
    ensures m in WithoutErrors(s) <==> m in s && !m.hasError
  {
    if s != [] {
      WithoutErrorsMembership(s[1..], m);
      assert s == [s[0]] + s[1..];
    }
  }

  /** The filter empties the buffer exactly when every message was an error. */
  lemma WithoutErrorsEmpty(s: seq<Message>)
    ensures WithoutErrors(s) == [] <==> ErrorCount(s) == |s|
  {
  }

  /** The filter changes nothing exactly when no message was an error. */
  lemma {:induction false} WithoutErrorsUnchanged(s: seq<Message>)
    ensures WithoutErrors(s) == s <==> ErrorCount(s) == 0
  {
    WithoutErrorsCount(s);
    if s != [] {
      WithoutErrorsUnchanged(s[1..]);
      if !s[0].hasError && WithoutErrors(s[1..]) == s[1..] {
        assert [s[0]] + s[1..] == s;
      }
    }
  }

  /** The messages of `s` whose partition is not among `revoked`, in their
      original order. */
  function OutsidePartitions(s: seq<Message>, revoked: seq<TopicPartition>): (r: seq<Message>)
    ensures |r| <= |s|
    ensures forall i :: 0 <= i < |r| ==> r[i].Position() !in revoked
    ensures forall m :: m in r ==> m in s
  {
    if s == [] then []
    else if s[0].Position() in revoked then OutsidePartitions(s[1..], revoked)
    else [s[0]] + OutsidePartitions(s[1..], revoked)
  }

  /** A message survives a revocation exactly when it was in the buffer and its
      partition was not revoked. */
  lemma {:induction false} OutsidePartitionsMembership(s: seq<Message>, revoked: seq<TopicPartition>, m: Message)
    ensures m in OutsidePartitions(s, revoked) <==> m in s && m.Position() !in revoked
  {
    if s != [] {
      OutsidePartitionsMembership(s[1..], revoked, m);
      assert s == [s[0]] + s[1..];
    }
  }
}
