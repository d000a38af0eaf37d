/**
 * The producer's publish-with-backoff loop. Each attempt serializes the
 * record, hands the bytes to the Kafka client with `produce` and serves the
 * client's callbacks with `poll(0)`; an exception from any of the three is
 * caught, counted, and followed by a sleep that starts at one unit and
 * doubles after every failure.
 */
module Producer {
  import opened Wrappers
  import opened Codec
  import opened Orders

  const Topic: string := "orders"
  const DefaultMaxAttempts: int := 5

  /** What the loop does that is visible outside it. */
  datatype ProducerEvent = Sleep(units: nat) | Produce(topic: string, value: seq<byte>)

  function Pow2(k: nat): (p: nat)
    ensures p >= 1
  {
    if k == 0 then 1 else 2 * Pow2(k - 1)
  }

  function Max0(n: int): nat {
    if n < 0 then 0 else n
  }

  /** The backoff schedule for k failures: 1, 2, 4, ... units. */
  function Backoff(k: nat): seq<nat> {
    if k == 0 then [] else Backoff(k - 1) + [Pow2(k - 1)]
  }

  function Sum(xs: seq<nat>): nat {
    if |xs| == 0 then 0 else Sum(xs[..|xs| - 1]) + xs[|xs| - 1]
  }

  /** The durations of the sleeps in a trace, in order. */
  function Sleeps(trace: seq<ProducerEvent>): seq<nat> {
    if |trace| == 0 then []
    else Sleeps(trace[..|trace| - 1]) + (match trace[|trace| - 1] case Sleep(d) => [d] case _ => [])
  }

  /** The total time a trace spends asleep. */
  function TotalSleep(trace: seq<ProducerEvent>): nat {
    Sum(Sleeps(trace))
  }

  /** Whether `produce` returned on attempt i, so that the bytes are queued in the client. */
  predicate Queued(serialized: Option<seq<byte>>, produceOk: nat -> bool, i: nat) {
    serialized.Some? && produceOk(i)
  }

  /** Whether attempt i (counting from 0) gets through: serialized, queued, and `poll` returned. */
  predicate AttemptSucceeds(serialized: Option<seq<byte>>, produceOk: nat -> bool, pollOk: nat -> bool, i: nat) {
    Queued(serialized, produceOk, i) && pollOk(i)
  }

  /** The events of k failed attempts: each one's produce, if `produce` returned, then its sleep. */
  function FailedTrace(serialized: Option<seq<byte>>, produceOk: nat -> bool, k: nat): seq<ProducerEvent> {
    if k == 0 then []
    else
      FailedTrace(serialized, produceOk, k - 1)
      + (if Queued(serialized, produceOk, k - 1) then [Produce(Topic, serialized.value)] else [])
      + [Sleep(Pow2(k - 1))]
  }

  /**
   * `produce_order(record, max_attempts)`. `serialize` stands for the Avro
   * writer, `produceOk(i)` for whether `produce` returns normally on attempt
   * i and `pollOk(i)` for whether `poll(0)` then does. Returns whether the
   * function returned True, the final value of the failure counter
   * `attempt`, and the trace.
   */
  method ProduceOrder(record: Order, serialize: Order -> Option<seq<byte>>,
                      produceOk: nat -> bool, pollOk: nat -> bool, maxAttempts: int)
    returns (delivered: bool, attempt: nat, trace: seq<ProducerEvent>)
    ensures attempt <= Max0(maxAttempts)
    ensures attempt + (if delivered then 1 else 0) <= Max0(maxAttempts)
    ensures forall i :: 0 <= i < attempt ==> !AttemptSucceeds(serialize(record), produceOk, pollOk, i)
    ensures delivered ==> AttemptSucceeds(serialize(record), produceOk, pollOk, attempt)
    ensures !delivered ==> attempt == Max0(maxAttempts)
    ensures delivered <==>
      exists i :: 0 <= i < maxAttempts && AttemptSucceeds(serialize(record), produceOk, pollOk, i)
    ensures trace == FailedTrace(serialize(record), produceOk, attempt) +
      (if delivered then [Produce(Topic, serialize(record).value)] else [])
  {
    attempt := 0;
    var backoff: nat := 1;
    trace := [];
    while attempt < maxAttempts
      invariant attempt <= Max0(maxAttempts)
      invariant backoff == Pow2(attempt)
      invariant trace == FailedTrace(serialize(record), produceOk, attempt)
      invariant forall i :: 0 <= i < attempt ==> !AttemptSucceeds(serialize(record), produceOk, pollOk, i)
      decreases maxAttempts - attempt
    {
      var dataBytes := serialize(record);
      if dataBytes.Some? && produceOk(attempt) {
        trace := trace + [Produce(Topic, dataBytes.value)];
        if pollOk(attempt) {
          assert AttemptSucceeds(serialize(record), produceOk, pollOk, attempt);
          return true, attempt, trace;
        }
      }
      attempt := attempt + 1;
      trace := trace + [Sleep(backoff)];
      backoff := backoff * 2;
    }
    delivered := false;
  }

  // The backoff schedule.

  /** The k-th sleep, counting from 1, lasts 2^(k-1) units. */
  lemma {:induction false} BackoffAt(k: nat)
    ensures |Backoff(k)| == k
    ensures forall j :: 0 <= j < k ==> Backoff(k)[j] == Pow2(j)
  {
    if k > 0 {
      BackoffAt(k - 1);
    }
  }

  /** The schedule for k failures adds up to 2^k - 1 units. */
  lemma {:induction false} SumBackoff(k: nat)
    ensures Sum(Backoff(k)) == Pow2(k) - 1
  {
    if k > 0 {
      var b := Backoff(k);
      assert b[..|b| - 1] == Backoff(k - 1);
      SumBackoff(k - 1);
    }
  }

  /** Appending an event adds its duration to the sleeps if it is a sleep, and nothing otherwise. */
  lemma SleepsSnoc(t: seq<ProducerEvent>, e: ProducerEvent)
    ensures Sleeps(t + [e]) == Sleeps(t) + (match e case Sleep(d) => [d] case _ => [])
  {
    var u := t + [e];
    assert u[..|u| - 1] == t;
  }

  /** The sleeps of k failed attempts are the backoff schedule, whatever was produced in between. */
  lemma {:induction false} SleepsOfFailedTrace(serialized: Option<seq<byte>>, produceOk: nat -> bool, k: nat)
    ensures Sleeps(FailedTrace(serialized, produceOk, k)) == Backoff(k)
  {
    if k > 0 {
      var prev := FailedTrace(serialized, produceOk, k - 1);
      SleepsOfFailedTrace(serialized, produceOk, k - 1);
      var mid := prev;
      if Queued(serialized, produceOk, k - 1) {
        mid := prev + [Produce(Topic, serialized.value)];
        SleepsSnoc(prev, Produce(Topic, serialized.value));
      } else {
        assert prev + [] == prev;
      }
      assert Sleeps(mid) == Backoff(k - 1);
      assert FailedTrace(serialized, produceOk, k) == mid + [Sleep(Pow2(k - 1))];
      SleepsSnoc(mid, Sleep(Pow2(k - 1)));
    }
  }

  /** After k failures the loop has slept 2^k - 1 units in all; the final produce adds nothing. */
  lemma TotalSleepOfFailures(serialized: Option<seq<byte>>, produceOk: nat -> bool, k: nat, value: seq<byte>)
    ensures TotalSleep(FailedTrace(serialized, produceOk, k)) == Pow2(k) - 1
    ensures TotalSleep(FailedTrace(serialized, produceOk, k) + [Produce(Topic, value)]) == Pow2(k) - 1
  {
    var t := FailedTrace(serialized, produceOk, k);
    SleepsOfFailedTrace(serialized, produceOk, k);
    SumBackoff(k);
    var u := t + [Produce(Topic, value)];
    SleepsSnoc(t, Produce(Topic, value));
    assert Sleeps(t) + [] == Sleeps(t);
    assert TotalSleep(u) == Sum(Sleeps(t));
  }

  // Worked runs.

  /** Four failures, then success on the fifth of five attempts: delivered after 1+2+4+8 units. */
  method FourFailuresThenSuccess(record: Order, bytes: seq<byte>) returns (delivered: bool, slept: nat)
    ensures delivered && slept == 15
  {
    var serialize := (_: Order) => Some(bytes);
    var produceOk := (i: nat) => i >= 4;
    var pollOk := (_: nat) => true;
    var attempt, trace;
    delivered, attempt, trace := ProduceOrder(record, serialize, produceOk, pollOk, DefaultMaxAttempts);
    assert AttemptSucceeds(serialize(record), produceOk, pollOk, 4);
    TotalSleepOfFailures(serialize(record), produceOk, 4, bytes);
    slept := TotalSleep(trace);
  }

  /** Five failures of five: not delivered, no exception, after 1+2+4+8+16 units. */
  method AllAttemptsFail(record: Order, bytes: seq<byte>) returns (delivered: bool, attempts: nat, slept: nat)
    ensures !delivered && attempts == 5 && slept == 31
  {
    var serialize := (_: Order) => Some(bytes);
    var produceOk := (_: nat) => false;
    var pollOk := (_: nat) => true;
    var trace;
    delivered, attempts, trace := ProduceOrder(record, serialize, produceOk, pollOk, DefaultMaxAttempts);
    assert !delivered;
    assert trace == FailedTrace(serialize(record), produceOk, 5);
    TotalSleepOfFailures(serialize(record), produceOk, 5, bytes);
    assert Pow2(5) == 32 by {
      assert Pow2(1) == 2 && Pow2(2) == 4 && Pow2(3) == 8 && Pow2(4) == 16;
    }
    slept := TotalSleep(trace);
  }

  /**
   * `produce` returns on the first attempt but `poll(0)` raises: the loop
   * treats that as a failure and produces again, so the bytes are queued twice.
   */
  method PollFailureProducesTwice(record: Order, bytes: seq<byte>) returns (delivered: bool, trace: seq<ProducerEvent>)
    ensures delivered
    ensures trace == [Produce(Topic, bytes), Sleep(1), Produce(Topic, bytes)]
  {
    var serialize := (_: Order) => Some(bytes);
    var produceOk := (_: nat) => true;
    var pollOk := (i: nat) => i >= 1;
    var attempt;
    delivered, attempt, trace := ProduceOrder(record, serialize, produceOk, pollOk, DefaultMaxAttempts);
    assert AttemptSucceeds(serialize(record), produceOk, pollOk, 1);
    assert !AttemptSucceeds(serialize(record), produceOk, pollOk, 0);
    assert attempt == 1;
    assert FailedTrace(serialize(record), produceOk, 1) == [Produce(Topic, bytes), Sleep(1)];
  }
}
