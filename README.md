# Retry and dead-letter core of an order pipeline, in Dafny

A producer publishes Avro-serialized orders to the Kafka topic `orders`; a
consumer reads them back, processes each one and, when processing fails,
either republishes the original bytes with a `retry` header one higher or,
once that counter has reached `MAX_RETRIES = 3`, sends the decoded record to
the topic `orders-dlq`. A payload that cannot be decoded goes to `orders-dlq`
at once, wrapped as `{"raw_bytes_hex": ...}`. Every outcome ends with a commit
of the message's offset. The producer makes at most `max_attempts = 5`
attempts to publish an order, sleeping 1, 2, 4, ... time units after each
failed one.

This project models that core and proves its properties:

- `codec.dfy` (module `Codec`): the decimal text of the `retry` value
  (`str(n).encode()` and `int(v.decode())`) and `bytes.hex()`.
- `headers.dfy` (module `RetryHeaders`): `parse_retry_from_headers` as a
  recursive function, and the header-rewriting loop of `requeue_with_retry`
  as a method proved equal to a function `WithRetry`, with the
  parse/rewrite round trip, idempotence and preservation of other headers.
- `consumer.dfy` (module `Consumer`): the per-message decision of the
  consumer's loop. `Decide` chooses the outcome and `StepEvents` lists the
  broker events it causes (`Publish(topic, payload, headers)`, `Flush`,
  `Commit(offset)`). The class `ConsumerLoop` holds the running total, the
  count and the event log; `HandleMessage` runs one message step by step.
  Lemmas follow a message across requeues and bound how often it is requeued.
- `producer.dfy` (module `Producer`): `produce_order` as a `while` loop over
  oracles for serialization, for the client's `produce` and for its
  `poll(0)`, with each queued publish and each sleep recorded as an event.
- `orders.dfy`, `wrappers.dfy`: the order record and `Option`.

Choices made in the model:

- The broker is a trace of events. Avro decoding is a parameter
  `decode: seq<byte> -> Option<Order>` (`None` when `schemaless_reader`
  raises). Avro encoding is `serialize: Order -> Option<seq<byte>>`.
  Whether `produce` returns normally on attempt i is `produceOk(i)`, and
  whether `poll(0)` then does is `pollOk(i)`.
- `int()` is modelled as a decimal parser: an optional `+` or `-`, then
  between 1 and 4300 ASCII digits. 4300 is CPython's default limit on the
  digits `int()` converts from text. Leading zeros are accepted. Header
  values are bytes or `None`, as the Kafka client gives them. `int(None)`,
  text that fails to decode, text that is not decimal and text with too
  many digits all give 0.
- Prices are `real` and the running total is an exact sum.
- The retry counter can be negative: `int()` accepts `-2`
  (consumer/consumer.py:74). A failing message with `retry = -2` is
  therefore requeued `3 - (-2) = 5` times before it is dead-lettered.
  `AlwaysFailingIsBounded` states the count for every value.
- `avro_serialize` runs again on every attempt, inside the `try`
  (producer/producer.py:37).
- If `produce` returns but `poll(0)` raises, the attempt counts as failed
  and the next attempt queues the bytes again, so the record can be sent
  twice (`PollFailureProducesTwice`).
- The commit follows `producer.flush()` whatever the delivery result: the
  code looks neither at what `flush()` returns nor at any delivery report.
- `str()` raises for an integer of more than 4300 digits. The count a
  requeue writes is at most 3, or a negative number no longer than the one
  read, so the rewrite never meets that case (`NextRetryWithinLimit`).
- After the last failed attempt the producer still sleeps before it leaves
  the loop. Five failures out of five therefore sleep 1+2+4+8+16 = 31 units.

## Model

| member | source | states |
|---|---|---|
| `Codec.ParseDecimal` | consumer/consumer.py:74 | `int()` accepts exactly an optional `+` or `-` followed by 1 to 4300 digits; the value is the digits' value, negated after `-`; a text without any digit is rejected |
| `Codec.ParseDecimalExamples` | consumer/consumer.py:74 | `+7` and `007` read as 7, `-0` as 0, `-42` as -42; the empty text and a bare `-` are rejected |
| `Codec.ParseDecimalOverlong` | consumer/consumer.py:73-76 | a run of more than 4300 digits is rejected |
| `Codec.FormatNat` | consumer/consumer.py:46 | `str(n)` of a natural is a non-empty run of digits with no leading zero unless n is 0 |
| `Codec.FormatInt` | consumer/consumer.py:46 | `str(n)` is non-empty and starts with `-` exactly when n is negative |
| `Codec.DigitsOfFormatNat` | consumer/consumer.py:46 | the digits of `str(n)` denote n |
| `Codec.ParseFormatInt` | consumer/consumer.py:74 | `int(str(n))` is n for every integer of at most 4300 digits |
| `Codec.FormatNatMonotone` | consumer/consumer.py:46 | a smaller natural never has a longer `str()` |
| `Codec.FormatNatOfDigits` | consumer/consumer.py:74 | the value of a digit run has a `str()` no longer than the run |
| `Codec.ParsedWithinLimit` | consumer/consumer.py:74 | every integer `int()` accepts has at most 4300 digits |
| `Codec.SuccessorWithinLimit` | consumer/consumer.py:128 | one more than a count below 9 that has at most 4300 digits also has at most 4300 digits |
| `Codec.Hex` | consumer/consumer.py:107 | `bytes.hex()` has two characters per byte: the high nibble's lower-case digit, then the low nibble's |
| `Codec.HexInjective` | consumer/consumer.py:107 | two payloads with the same hex wrapper are the same bytes |
| `RetryHeaders.RetryValue` | consumer/consumer.py:73-76 | the count one header value stands for: the parsed integer, or 0 for `None` and for text `int()` rejects |
| `RetryHeaders.ParseRetry` | consumer/consumer.py:68-77 | `parse_retry_from_headers`: the scan that returns the value of the first `retry` entry, or 0 at the end |
| `RetryHeaders.RetryHeader` | consumer/consumer.py:46 | the entry written by a rewrite is a `retry` entry whose value reads back as the count written, for any count of at most 4300 digits |
| `RetryHeaders.ParseRetryAbsent` | consumer/consumer.py:68-77 | headers without a `retry` entry, the empty list included, give 0 |
| `RetryHeaders.ParseRetryFirst` | consumer/consumer.py:71-76 | the result is the value of the first `retry` entry; later entries are ignored |
| `RetryHeaders.ParseRetryMalformed` | consumer/consumer.py:73-76 | a first `retry` entry that is null or rejected by `int()` gives 0, whatever entries follow |
| `RetryHeaders.ParseRetryWellFormed` | consumer/consumer.py:72-74 | a first `retry` entry holding `str(k)` gives k |
| `RetryHeaders.ParseRetryWithinLimit` | consumer/consumer.py:68-77 | every count read from headers has at most 4300 digits |
| `RetryHeaders.ParseRetryOverlong` | consumer/consumer.py:73-76 | a `retry` of 1 followed by 4300 zeros reads as 0 |
| `RetryHeaders.WithRetry` | consumer/consumer.py:40-50 | the headers `requeue_with_retry` publishes: each `retry` entry replaced by `str(n)`, and one appended when none was found |
| `RetryHeaders.RewriteHeaders` | consumer/consumer.py:40-50 | the loop with its `found` flag builds exactly `WithRetry(headers, n)` |
| `RetryHeaders.ReplaceRetryAt` | consumer/consumer.py:43-48 | the loop's output so far has the input's length, with each `retry` entry replaced and each other entry copied at its index |
| `RetryHeaders.WithRetryShape` | consumer/consumer.py:40-50 | every `retry` entry becomes `str(n)` at its index, every other entry stays; with no `retry` entry the result is the input plus one appended entry, otherwise the length is unchanged; the result always has a `retry` entry |
| `RetryHeaders.WithRetryIdempotent` | consumer/consumer.py:38-50 | rewriting twice with the same count gives the same headers as rewriting once |
| `RetryHeaders.FirstRetry` | consumer/consumer.py:71-72 | the index of the first `retry` entry: every earlier entry has another key, and the length means there is none |
| `RetryHeaders.WithRetryParse` | consumer/consumer.py:38-77 | parsing the rewritten headers gives exactly the count written, for any count of at most 4300 digits |
| `RetryHeaders.OthersOfReplaceRetry` | consumer/consumer.py:43-48 | replacing `retry` entries leaves the other entries, in order |
| `RetryHeaders.WithRetryKeepsOthers` | consumer/consumer.py:40-50 | the rewrite keeps the entries other than `retry`, their values and their order |
| `Consumer.ProcessFails` | consumer/consumer.py:59-61 | `process_record` raises exactly when the price is above 95 |
| `Consumer.Decide` | consumer/consumer.py:102-135 | the outcome of a message: dead-letter raw when decoding failed; processed when processing succeeds; requeue with count + 1 below 3; otherwise dead-letter the record |
| `Consumer.StepEvents` | consumer/consumer.py:102-135 | the broker events of each outcome: a commit alone, or a publish (to `orders` with the original bytes and rewritten headers, or to `orders-dlq` with the record or the hex wrapper and the original headers), a flush and a commit |
| `Consumer.ConsumerLoop.constructor` | consumer/consumer.py:65-66 | the running total and count start at 0, with nothing sent to the broker |
| `Consumer.ConsumerLoop.SendToDlq` | consumer/consumer.py:31-35 | publishes the document to `orders-dlq` with the given headers, then flushes; the aggregate is untouched |
| `Consumer.ConsumerLoop.RequeueWithRetry` | consumer/consumer.py:38-53 | publishes the bytes unchanged to `orders` with the rewritten headers, then flushes; the aggregate is untouched |
| `Consumer.ConsumerLoop.CommitMessage` | consumer/consumer.py:108 | appends one commit of the message's offset |
| `Consumer.ConsumerLoop.HandleMessage` | consumer/consumer.py:98-135 | the outcome is `Decide(decoded, retry count)`; the log grows by exactly `StepEvents`; the count rises by one and the total by the price on success only, and both are untouched on every other path |
| `Consumer.CommitLastAndOnce` | consumer/consumer.py:102-135 | every path ends with exactly one commit, of this message's offset; success commits only; every other path publishes first and flushes before the commit |
| `Consumer.DecodeFailureDeadLetters` | consumer/consumer.py:102-109 | an undecodable payload goes to `orders-dlq` as its hex text, whose length is twice the payload's, with the original headers; then one commit; the outcome does not depend on the retry count |
| `Consumer.ProcessedIff` | consumer/consumer.py:59-63 | a decoded record is processed exactly when its price is at most 95 |
| `Consumer.RequeueRepublishesOriginal` | consumer/consumer.py:126-130 | a failure below the ceiling republishes the original bytes to `orders`; the new headers read back as the count plus one and keep every other entry |
| `Consumer.ExhaustedDeadLetters` | consumer/consumer.py:131-135 | a failure at or above the ceiling sends the decoded record to `orders-dlq` with the original headers, then commits |
| `Consumer.NextRetryWithinLimit` | consumer/consumer.py:126-129 | the count a requeue writes has at most 4300 digits, so `str()` and `int()` handle it exactly |
| `Consumer.Redelivered` | consumer/consumer.py:52 | a requeued message carries the same bytes and reads back the count it was given |
| `Consumer.AlwaysFailingIsBounded` | consumer/consumer.py:124-135 | a record that always fails, starting at count r, is requeued 3 - r times (none if r is at least 3) and then dead-lettered as the decoded record |
| `Consumer.SucceedingIsNotRequeued` | consumer/consumer.py:113-122 | a record that processes is never requeued and ends processed |
| `Consumer.FreshFailingRequeuedThrice` | consumer/consumer.py:126-130 | a failing message without a `retry` header is requeued exactly three times |
| `Consumer.OverlongRetryRequeuedThrice` | consumer/consumer.py:73-76 | a failing message whose `retry` is 1 followed by 4300 zeros counts as 0 and is requeued exactly three times |
| `Consumer.ProcessesCheapOrder` | consumer/consumer.py:113-122 | an order at price 10 without headers is processed: count 1, total 10, one commit |
| `Consumer.RequeuesThenDeadLetters` | consumer/consumer.py:124-135 | an order at price 100 without headers is requeued with `retry` 1; delivered with `retry` 3 it is dead-lettered as the record, and the count stays 0 |
| `Consumer.DeadLettersUndecodable` | consumer/consumer.py:102-109 | an undecodable message yields exactly a hex-wrapper publish to `orders-dlq`, a flush and a commit |
| `Producer.FailedTrace` | producer/producer.py:36-45 | the events of k failed attempts: for each, a produce when `produce` returned, then a sleep of the current backoff |
| `Producer.ProduceOrder` | producer/producer.py:32-47 | returns true exactly when some attempt below `max_attempts` succeeds, and then at the first one; at most `max_attempts` attempts, none when it is 0 or less; on false all of them failed; the trace is that of the failed attempts, then the produce of the serialized bytes if delivered |
| `Producer.BackoffAt` | producer/producer.py:42-45 | the k-th sleep, counting from 1, lasts 2^(k-1) units |
| `Producer.SumBackoff` | producer/producer.py:34-45 | the first k sleeps add up to 2^k - 1 units |
| `Producer.SleepsOfFailedTrace` | producer/producer.py:41-45 | the sleeps of k failed attempts are exactly the backoff schedule, whatever was produced in between |
| `Producer.TotalSleepOfFailures` | producer/producer.py:34-45 | after k failures the time slept is 2^k - 1 units, and the final produce adds nothing |
| `Producer.FourFailuresThenSuccess` | producer/producer.py:32-47 | four failures and a success on the fifth of five attempts deliver after 15 units of sleep |
| `Producer.AllAttemptsFail` | producer/producer.py:32-47 | five failures of five return false after five attempts and 31 units of sleep, with no exception |
| `Producer.PollFailureProducesTwice` | producer/producer.py:38-44 | when `produce` returns and `poll(0)` raises on the first attempt, the bytes are queued again on the second: produce, sleep 1, produce |

## Left out

- Kafka client set-up, `subscribe`, `poll`, `close` and the `while True` loops of both programs: broker I/O and drivers. The model handles one polled message at a time.
- The `msg.error()` branches (consumer/consumer.py:90-96): transport errors that skip the message.
- A failure of the broker calls themselves. If `produce` or `flush` raises inside `requeue_with_retry` or `send_to_dlq`, the exception leaves `main` uncommitted. If `consumer.commit` raises at consumer/consumer.py:122, `count` and `running_total` have already been raised (consumer/consumer.py:117-118); the processing-error handler then requeues the message when its count is below 3 and dead-letters it otherwise. The model's publishes and commits always succeed.
- A message whose value is `None`: `value.hex()` would raise inside the decode-error handler. The model's payloads are always bytes.
- Header values that are `str` rather than bytes (the `isinstance` branch at consumer/consumer.py:74): the Kafka client returns bytes or `None`.
- Python `int()` leniency: surrounding whitespace, `_` separators and non-ASCII digits. The digit limit is CPython's default of 4300; a different `sys.set_int_max_str_digits` setting, or a Python older than 3.11 without the limit, is not modelled.
- `Codec.FormatInt`: writes integers of any length, while `str()` raises beyond 4300 digits; the consumer never writes such a count.
- `Producer.ProduceOrder`: does not model `time.sleep` raising `OverflowError`. Once the backoff passes about 9.2e9 seconds, at the 35th sleep (2^34), that error is raised inside the `except` at producer/producer.py:44 and escapes `produce_order`. The model keeps sleeping for any number of attempts. The default of 5 attempts never gets there.
- fastavro `schemaless_reader`/`schemaless_writer` and loading `order.avsc`: file and library code, replaced by the `decode` and `serialize` oracles.
- `json.dumps` of the dead-letter document: it stays an abstract `DlqBody`.
- Floating point: the running average at consumer/consumer.py:119 and the rounding of the float total.
- Other exceptions inside the processing `try`, such as a record without a `price`: a decoded `Order` always has one.
- `print`, `time.sleep` (kept only as `Sleep` events), the `delivery_report` callback, `KeyboardInterrupt` handling and `gen_random_order`.
