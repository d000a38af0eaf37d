/**
 * The consumer's per-message retry/dead-letter decision. A message that
 * cannot be decoded goes to the dead-letter topic as a hex wrapper; a decoded
 * record is processed, or on failure requeued with its retry count raised by
 * one, or, once the count has reached MaxRetries, sent to the dead-letter
 * topic as the decoded record. Every path ends with one commit of the
 * message's offset, after its publish has been flushed.
 */
module Consumer {
  import opened Wrappers
  import opened Codec
  import opened Orders
  import opened RetryHeaders

  const MainTopic: string := "orders"
  const DlqTopic: string := "orders-dlq"
  const MaxRetries: int := 3

  /** A message as polled: its offset, its payload bytes and its headers (`msg.headers() or []`). */
  datatype Message = Message(offset: nat, value: seq<byte>, headers: seq<Header>)

  /** The JSON document sent to the dead-letter topic. */
  datatype DlqBody = RawBytesHex(hex: string) | DecodedRecord(record: Order)

  /** What a publish carries: the original bytes, or a dead-letter document. */
  datatype Payload = Raw(bytes: seq<byte>) | Json(body: DlqBody)

  /** What the consumer asks of the broker, in order. */
  datatype Event =
    | Publish(topic: string, payload: Payload, headers: seq<Header>)
    | Flush
    | Commit(offset: nat)

  /** The one outcome of handling a message. */
  datatype Outcome = Processed | Requeued(nextRetry: int) | DeadLetteredRecord | DeadLetteredRaw

  /** `process_record` raises exactly for prices above 95. */
  predicate ProcessFails(o: Order) {
    o.price > 95.0
  }

  /** The outcome for a message whose decoding gave `decoded` and whose headers carry `retryCount`. */
  function Decide(decoded: Option<Order>, retryCount: int): Outcome {
    match decoded
    case None => DeadLetteredRaw
    case Some(o) =>
      if !ProcessFails(o) then Processed
      else if retryCount < MaxRetries then Requeued(retryCount + 1)
      else DeadLetteredRecord
  }

  /** The broker events handling `msg` produces. */
  function StepEvents(msg: Message, decoded: Option<Order>): seq<Event> {
    match Decide(decoded, ParseRetry(msg.headers))
    case Processed => [Commit(msg.offset)]
    case Requeued(n) =>
      [Publish(MainTopic, Raw(msg.value), WithRetry(msg.headers, n)), Flush, Commit(msg.offset)]
    case DeadLetteredRecord =>
      [Publish(DlqTopic, Json(DecodedRecord(decoded.value)), msg.headers), Flush, Commit(msg.offset)]
    case DeadLetteredRaw =>
      [Publish(DlqTopic, Json(RawBytesHex(Hex(msg.value))), msg.headers), Flush, Commit(msg.offset)]
  }

  function CommitCount(events: seq<Event>): nat {
    if |events| == 0 then 0
    else (if events[0].Commit? then 1 else 0) + CommitCount(events[1..])
  }

  /** The consumer's own state: the running aggregate and the events sent to the broker. */
  class ConsumerLoop {
    var runningTotal: real
    var count: nat
    var log: seq<Event>

    constructor ()
      ensures runningTotal == 0.0 && count == 0 && log == []
    {
      runningTotal := 0.0;
      count := 0;
      log := [];
    }

    /** `send_to_dlq`: publish the document with the given headers, then flush. */
    method SendToDlq(body: DlqBody, headers: seq<Header>)
      modifies this
      ensures log == old(log) + [Publish(DlqTopic, Json(body), headers), Flush]
      ensures runningTotal == old(runningTotal) && count == old(count)
    {
      log := log + [Publish(DlqTopic, Json(body), headers), Flush];
    }

    /** `requeue_with_retry`: republish the bytes unchanged with the rewritten headers, then flush. */
    method RequeueWithRetry(recordBytes: seq<byte>, headers: seq<Header>, nextRetry: int)
      modifies this
      ensures log == old(log) + [Publish(MainTopic, Raw(recordBytes), WithRetry(headers, nextRetry)), Flush]
      ensures runningTotal == old(runningTotal) && count == old(count)
    {
      var newHeaders := RewriteHeaders(headers, nextRetry);
      log := log + [Publish(MainTopic, Raw(recordBytes), newHeaders), Flush];
    }

    /** `consumer.commit(message=msg)`. */
    method CommitMessage(msg: Message)
      modifies this
      ensures log == old(log) + [Commit(msg.offset)]
      ensures runningTotal == old(runningTotal) && count == old(count)
    {
      log := log + [Commit(msg.offset)];
    }

    /**
     * One iteration of the consumer's poll loop for a message that arrived
     * without a transport error. `decode` is the schema reader, which may fail.
     */
    method HandleMessage(msg: Message, decode: seq<byte> -> Option<Order>) returns (outcome: Outcome)
      modifies this
      ensures outcome == Decide(decode(msg.value), ParseRetry(msg.headers))
      ensures log == old(log) + StepEvents(msg, decode(msg.value))
      ensures outcome == Processed ==>
        count == old(count) + 1 && runningTotal == old(runningTotal) + decode(msg.value).value.price
      ensures outcome != Processed ==>
        count == old(count) && runningTotal == old(runningTotal)
    {
      var value := msg.value;
      var headers := msg.headers;
      var retryCount := ParseRetry(headers);
      var decoded := decode(value);
      if decoded.None? {
        SendToDlq(RawBytesHex(Hex(value)), headers);
        CommitMessage(msg);
        return DeadLetteredRaw;
      }
      var record := decoded.value;
      if !ProcessFails(record) {
        runningTotal := runningTotal + record.price;
        count := count + 1;
        CommitMessage(msg);
        outcome := Processed;
      } else if retryCount < MaxRetries {
        var nextRetry := retryCount + 1;
        RequeueWithRetry(value, headers, nextRetry);
        CommitMessage(msg);
        outcome := Requeued(nextRetry);
      } else {
        SendToDlq(DecodedRecord(record), headers);
        CommitMessage(msg);
        outcome := DeadLetteredRecord;
      }
    }
  }

  // Properties of one step.

  /**
   * Every path ends with exactly one commit, of this message's offset; a path
   * that publishes does so first and flushes before the commit.
   */
  lemma CommitLastAndOnce(msg: Message, decoded: Option<Order>)
    ensures var ev := StepEvents(msg, decoded);
      && CommitCount(ev) == 1
      && ev[|ev| - 1] == Commit(msg.offset)
      && (Decide(decoded, ParseRetry(msg.headers)) == Processed <==> ev == [Commit(msg.offset)])
      && (|ev| == 1 || (|ev| == 3 && ev[0].Publish? && ev[1] == Flush))
  {
    var ev := StepEvents(msg, decoded);
    var c := Commit(msg.offset);
    if |ev| == 1 {
      assert ev == [c] && ev[1..] == [];
    } else {
      var p := ev[0];
      assert p.Publish?;
      assert ev == [p, Flush, c];
      assert CommitCount([c]) == 1;
      assert CommitCount([Flush, c]) == 1;
      assert ev[1..] == [Flush, c] && ev[1..][1..] == [c] && ev[1..][1..][1..] == [];
    }
  }

  /**
   * An undecodable payload is dead-lettered as its hex text with the original
   * headers and committed, whatever retry count the headers carry.
   */
  lemma DecodeFailureDeadLetters(msg: Message, r1: int, r2: int)
    ensures Decide(None, r1) == Decide(None, r2) == DeadLetteredRaw
    ensures StepEvents(msg, None) ==
      [Publish(DlqTopic, Json(RawBytesHex(Hex(msg.value))), msg.headers), Flush, Commit(msg.offset)]
    ensures |Hex(msg.value)| == 2 * |msg.value|
  {
  }

  /** A decoded record is processed exactly when its price is at most 95. */
  lemma ProcessedIff(o: Order, r: int)
    ensures Decide(Some(o), r) == Processed <==> o.price <= 95.0
  {
  }

  /**
   * A failed record below the ceiling is republished to the main topic with
   * its original bytes; the new headers read back as the count plus one and
   * keep every other entry.
   */
  lemma RequeueRepublishesOriginal(msg: Message, o: Order)
    requires ProcessFails(o) && ParseRetry(msg.headers) < MaxRetries
    ensures var r := ParseRetry(msg.headers);
      var ev := StepEvents(msg, Some(o));
      && Decide(Some(o), r) == Requeued(r + 1)
      && ev[0].Publish? && ev[0].topic == MainTopic && ev[0].payload == Raw(msg.value)
      && ParseRetry(ev[0].headers) == r + 1
      && Others(ev[0].headers) == Others(msg.headers)
  {
    var r := ParseRetry(msg.headers);
    NextRetryWithinLimit(msg.headers);
    WithRetryParse(msg.headers, r + 1);
    WithRetryKeepsOthers(msg.headers, r + 1);
  }

  /** A failed record at or above the ceiling goes to the dead-letter topic as the decoded record. */
  lemma ExhaustedDeadLetters(msg: Message, o: Order)
    requires ProcessFails(o) && ParseRetry(msg.headers) >= MaxRetries
    ensures StepEvents(msg, Some(o)) ==
      [Publish(DlqTopic, Json(DecodedRecord(o)), msg.headers), Flush, Commit(msg.offset)]
  {
  }

  // Across redeliveries.

  /** The count a requeue writes is one that `str()` and `int()` handle exactly. */
  lemma NextRetryWithinLimit(hs: seq<Header>)
    requires ParseRetry(hs) < MaxRetries
    ensures WithinDigitLimit(ParseRetry(hs) + 1)
  {
    ParseRetryWithinLimit(hs);
    SuccessorWithinLimit(ParseRetry(hs));
  }

  /** The message the broker delivers again after a requeue with count n. */
  function Redelivered(msg: Message, offset: nat, n: int): (m: Message)
    requires WithinDigitLimit(n)
    ensures m.value == msg.value && ParseRetry(m.headers) == n
  {
    WithRetryParse(msg.headers, n);
    Message(offset, msg.value, WithRetry(msg.headers, n))
  }

  /**
   * How many times a message is requeued before it reaches a final outcome,
   * given that its bytes always decode to `decoded` (they are resent unchanged).
   */
  function RequeueCount(msg: Message, decoded: Option<Order>): nat
    decreases MaxRetries - ParseRetry(msg.headers)
  {
    match Decide(decoded, ParseRetry(msg.headers))
    case Requeued(n) =>
      NextRetryWithinLimit(msg.headers);
      1 + RequeueCount(Redelivered(msg, msg.offset, n), decoded)
    case _ => 0
  }

  /** The outcome a message finally reaches after all its requeues. */
  function FinalOutcome(msg: Message, decoded: Option<Order>): Outcome
    decreases MaxRetries - ParseRetry(msg.headers)
  {
    match Decide(decoded, ParseRetry(msg.headers))
    case Requeued(n) =>
      NextRetryWithinLimit(msg.headers);
      FinalOutcome(Redelivered(msg, msg.offset, n), decoded)
    case other => other
  }

  /**
   * A record that always fails is requeued until its count reaches the
   * ceiling, MaxRetries - r times from count r, and then dead-lettered as the
   * decoded record.
   */
  lemma {:induction false} AlwaysFailingIsBounded(msg: Message, o: Order)
    requires ProcessFails(o)
    ensures var r := ParseRetry(msg.headers);
      RequeueCount(msg, Some(o)) == (if r < MaxRetries then MaxRetries - r else 0)
    ensures FinalOutcome(msg, Some(o)) == DeadLetteredRecord
    decreases MaxRetries - ParseRetry(msg.headers)
  {
    var r := ParseRetry(msg.headers);
    if r < MaxRetries {
      NextRetryWithinLimit(msg.headers);
      AlwaysFailingIsBounded(Redelivered(msg, msg.offset, r + 1), o);
    }
  }

  /** A record that is processed is never requeued. */
  lemma SucceedingIsNotRequeued(msg: Message, o: Order)
    requires !ProcessFails(o)
    ensures RequeueCount(msg, Some(o)) == 0 && FinalOutcome(msg, Some(o)) == Processed
  {
  }

  /** A fresh message (no `retry` header) that always fails is requeued three times. */
  lemma FreshFailingRequeuedThrice(msg: Message, o: Order)
    requires !HasRetry(msg.headers) && ProcessFails(o)
    ensures RequeueCount(msg, Some(o)) == 3
  {
    ParseRetryAbsent(msg.headers);
    AlwaysFailingIsBounded(msg, o);
  }

  /**
   * A failing message whose `retry` is 1 followed by 4300 zeros reads as
   * count 0, since `int()` refuses that many digits, and is requeued three times.
   */
  lemma OverlongRetryRequeuedThrice(offset: nat, value: seq<byte>, o: Order)
    requires ProcessFails(o)
    ensures var hs := [Header(RetryKey, Bytes([Zero + 1] + seq(MaxStrDigits, _ => Zero)))];
      RequeueCount(Message(offset, value, hs), Some(o)) == 3
  {
    var hs := [Header(RetryKey, Bytes([Zero + 1] + seq(MaxStrDigits, _ => Zero)))];
    ParseRetryOverlong();
    AlwaysFailingIsBounded(Message(offset, value, hs), o);
  }

  // Worked runs of the consumer step.

  /** A cheap order without headers is processed: the count becomes 1, the total its price, one commit. */
  method ProcessesCheapOrder(bytes: seq<byte>) returns (outcome: Outcome, count: nat, total: real, log: seq<Event>)
    ensures outcome == Processed && count == 1 && total == 10.0 && log == [Commit(0)]
  {
    var order := Order("x1", "Item1", 10.0);
    var decode := (_: seq<byte>) => Some(order);
    var c := new ConsumerLoop();
    outcome := c.HandleMessage(Message(0, bytes, []), decode);
    count, total, log := c.count, c.runningTotal, c.log;
  }

  /**
   * An expensive order without headers is requeued with `retry` 1; delivered
   * again with `retry` 3 it is dead-lettered as the decoded record.
   */
  method RequeuesThenDeadLetters(bytes: seq<byte>) returns (first: Outcome, second: Outcome, count: nat)
    ensures first == Requeued(1) && second == DeadLetteredRecord && count == 0
  {
    var order := Order("x2", "Item2", 100.0);
    var decode := (_: seq<byte>) => Some(order);
    var c := new ConsumerLoop();
    first := c.HandleMessage(Message(0, bytes, []), decode);
    var again := Message(1, bytes, [RetryHeader(3)]);
    assert WithinDigitLimit(3);
    assert ParseRetry(again.headers) == 3;
    second := c.HandleMessage(again, decode);
    count := c.count;
  }

  /** An undecodable message is dead-lettered as its hex text and committed, with no requeue. */
  method DeadLettersUndecodable(bytes: seq<byte>, headers: seq<Header>) returns (outcome: Outcome, log: seq<Event>)
    ensures outcome == DeadLetteredRaw
    ensures log == [Publish(DlqTopic, Json(RawBytesHex(Hex(bytes))), headers), Flush, Commit(7)]
  {
    var decode := (_: seq<byte>) => None;
    var c := new ConsumerLoop();
    outcome := c.HandleMessage(Message(7, bytes, headers), decode);
    log := c.log;
  }
}
