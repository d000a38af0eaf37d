/**
 * The retry counter carried out of band in a Kafka message's headers: an
 * ordered list of (key, value) pairs in which the key `retry` holds the
 * decimal text of the number of times the message has been requeued.
 */
module RetryHeaders {
  import opened Wrappers
  import opened Codec

  const RetryKey: string := "retry"

  /** A header value as the Kafka client hands it over: bytes, or no value at all. */
  datatype HeaderValue = Null | Bytes(data: seq<byte>)

  datatype Header = Header(key: string, value: HeaderValue)

  predicate IsRetry(h: Header) {
    h.key == RetryKey
  }

  predicate HasRetry(hs: seq<Header>) {
    exists i :: 0 <= i < |hs| && IsRetry(hs[i])
  }

  /** The count one `retry` value stands for; a missing or malformed value counts as 0. */
  function RetryValue(v: HeaderValue): int {
    match v
    case Null => 0
    case Bytes(d) => ParseDecimal(d).GetOr(0)
  }

  /** `parse_retry_from_headers`: the value of the first `retry` entry, else 0. */
  function ParseRetry(hs: seq<Header>): int {
    if |hs| == 0 then 0
    else if IsRetry(hs[0]) then RetryValue(hs[0].value)
    else ParseRetry(hs[1..])
  }

  /** The entry `("retry", str(n).encode())`. */
  function RetryHeader(n: int): (h: Header)
    ensures IsRetry(h)
    ensures WithinDigitLimit(n) ==> RetryValue(h.value) == n
  {
    var h := Header(RetryKey, Bytes(FormatInt(n)));
    assert WithinDigitLimit(n) ==> RetryValue(h.value) == n by {
      if WithinDigitLimit(n) {
        ParseFormatInt(n);
      }
    }
    h
  }

  /** What the rewrite loop appends for one input entry. */
  function Rewrite(h: Header, n: int): Header {
    if IsRetry(h) then RetryHeader(n) else h
  }

  /** The list the rewrite loop has built after reading `hs`. */
  function ReplaceRetry(hs: seq<Header>, n: int): seq<Header> {
    if |hs| == 0 then []
    else ReplaceRetry(hs[..|hs| - 1], n) + [Rewrite(hs[|hs| - 1], n)]
  }

  /** The headers `requeue_with_retry` publishes: every `retry` entry replaced, or one appended. */
  function WithRetry(hs: seq<Header>, n: int): seq<Header> {
    if HasRetry(hs) then ReplaceRetry(hs, n) else ReplaceRetry(hs, n) + [RetryHeader(n)]
  }

  /** The entries other than `retry`, in order. */
  function Others(hs: seq<Header>): seq<Header> {
    if |hs| == 0 then []
    else Others(hs[..|hs| - 1]) + (if IsRetry(hs[|hs| - 1]) then [] else [hs[|hs| - 1]])
  }

  /** The header-rewriting loop of `requeue_with_retry`, with its `found` flag. */
  method RewriteHeaders(headers: seq<Header>, nextRetry: int) returns (newHeaders: seq<Header>)
    ensures newHeaders == WithRetry(headers, nextRetry)
  {
    newHeaders := [];
    var found := false;
    var i := 0;
    while i < |headers|
      invariant 0 <= i <= |headers|
      invariant newHeaders == ReplaceRetry(headers[..i], nextRetry)
      invariant found <==> HasRetry(headers[..i])
    {
      assert headers[..i + 1][..i] == headers[..i];
      var h := headers[i];
      if h.key == RetryKey {
        found := true;
        newHeaders := newHeaders + [RetryHeader(nextRetry)];
      } else {
        newHeaders := newHeaders + [h];
      }
      i := i + 1;
    }
    assert headers[..i] == headers;
    if !found {
      newHeaders := newHeaders + [RetryHeader(nextRetry)];
    }
  }

  // Properties of the parse.

  /** Without a `retry` entry the count is 0. */
  lemma {:induction false} ParseRetryAbsent(hs: seq<Header>)
    requires !HasRetry(hs)
    ensures ParseRetry(hs) == 0
  {
    if |hs| > 0 {
      assert forall i :: 0 <= i < |hs| - 1 ==> hs[1..][i] == hs[i + 1];
      ParseRetryAbsent(hs[1..]);
    }
  }

  /** Only the first `retry` entry is read; later ones are ignored. */
  lemma {:induction false} ParseRetryFirst(hs: seq<Header>, i: nat)
    requires i < |hs| && IsRetry(hs[i])
    requires forall j :: 0 <= j < i ==> !IsRetry(hs[j])
    ensures ParseRetry(hs) == RetryValue(hs[i].value)
  {
    if i > 0 {
      assert !IsRetry(hs[0]);
      assert forall j :: 0 <= j < i - 1 ==> hs[1..][j] == hs[j + 1];
      ParseRetryFirst(hs[1..], i - 1);
    }
  }

  /** A first `retry` entry that is not decimal text yields 0, whatever follows it. */
  lemma ParseRetryMalformed(hs: seq<Header>, i: nat)
    requires i < |hs| && IsRetry(hs[i])
    requires forall j :: 0 <= j < i ==> !IsRetry(hs[j])
    requires hs[i].value.Null? || ParseDecimal(hs[i].value.data).None?
    ensures ParseRetry(hs) == 0
  {
    ParseRetryFirst(hs, i);
  }

  /** A first `retry` entry holding `str(k)` yields k. */
  lemma ParseRetryWellFormed(hs: seq<Header>, i: nat, k: int)
    requires i < |hs| && hs[i] == RetryHeader(k) && WithinDigitLimit(k)
    requires forall j :: 0 <= j < i ==> !IsRetry(hs[j])
    ensures ParseRetry(hs) == k
  {
    ParseRetryFirst(hs, i);
  }

  /** A retry count read from headers is always within the digit limit. */
  lemma ParseRetryWithinLimit(hs: seq<Header>)
    ensures WithinDigitLimit(ParseRetry(hs))
  {
    var i := FirstRetry(hs);
    if i < |hs| {
      ParseRetryFirst(hs, i);
      var v := hs[i].value;
      if v.Bytes? && ParseDecimal(v.data).Some? {
        ParsedWithinLimit(v.data);
      }
    } else {
      ParseRetryAbsent(hs);
    }
  }

  /** A `retry` of 1 followed by 4300 zeros is too long for `int()` and counts as 0. */
  lemma ParseRetryOverlong()
    ensures ParseRetry([Header(RetryKey, Bytes([Zero + 1] + seq(MaxStrDigits, _ => Zero)))]) == 0
  {
    var text := [Zero + 1] + seq(MaxStrDigits, _ => Zero);
    ParseDecimalOverlong(text);
  }

  // Properties of the rewrite.

  lemma {:induction false} ReplaceRetryAt(hs: seq<Header>, n: int)
    ensures |ReplaceRetry(hs, n)| == |hs|
    ensures forall i :: 0 <= i < |hs| ==> ReplaceRetry(hs, n)[i] == Rewrite(hs[i], n)
  {
    if |hs| > 0 {
      ReplaceRetryAt(hs[..|hs| - 1], n);
    }
  }

  /**
   * Every `retry` entry becomes `str(n)`, every other entry stays at its
   * index, and a `retry` entry is appended exactly when there was none.
   */
  lemma WithRetryShape(hs: seq<Header>, n: int)
    ensures |WithRetry(hs, n)| == if HasRetry(hs) then |hs| else |hs| + 1
    ensures forall i :: 0 <= i < |hs| ==>
      WithRetry(hs, n)[i] == if IsRetry(hs[i]) then RetryHeader(n) else hs[i]
    ensures !HasRetry(hs) ==> WithRetry(hs, n) == hs + [RetryHeader(n)]
    ensures HasRetry(WithRetry(hs, n))
  {
    ReplaceRetryAt(hs, n);
    var r := WithRetry(hs, n);
    if HasRetry(hs) {
      var i :| 0 <= i < |hs| && IsRetry(hs[i]);
      assert IsRetry(r[i]);
    } else {
      assert IsRetry(r[|hs|]);
    }
  }

  /** Rewriting twice with the same count is rewriting once. */
  lemma WithRetryIdempotent(hs: seq<Header>, n: int)
    ensures WithRetry(WithRetry(hs, n), n) == WithRetry(hs, n)
  {
    var r := WithRetry(hs, n);
    WithRetryShape(hs, n);
    WithRetryShape(r, n);
    ReplaceRetryAt(r, n);
  }

  /** The index of the first `retry` entry, or the length when there is none. */
  function FirstRetry(hs: seq<Header>): (i: nat)
    ensures i <= |hs|
    ensures i < |hs| ==> IsRetry(hs[i])
    ensures i == |hs| ==> !HasRetry(hs)
    ensures forall j :: 0 <= j < i ==> !IsRetry(hs[j])
  {
    if |hs| == 0 then 0
    else if IsRetry(hs[0]) then 0
    else
      var k := FirstRetry(hs[1..]);
      assert forall j :: 1 <= j < |hs| ==> hs[1..][j - 1] == hs[j];
      1 + k
  }

  /** The rewritten headers read back as exactly the count they were given. */
  lemma WithRetryParse(hs: seq<Header>, n: int)
    requires WithinDigitLimit(n)
    ensures ParseRetry(WithRetry(hs, n)) == n
  {
    var r := WithRetry(hs, n);
    WithRetryShape(hs, n);
    var i := FirstRetry(hs);
    assert r[i] == RetryHeader(n);
    forall j | 0 <= j < i
      ensures !IsRetry(r[j])
    {
      assert r[j] == hs[j];
    }
    ParseRetryFirst(r, i);
  }

  lemma {:induction false} OthersOfReplaceRetry(hs: seq<Header>, n: int)
    ensures Others(ReplaceRetry(hs, n)) == Others(hs)
  {
    if |hs| > 0 {
      var ini := hs[..|hs| - 1];
      OthersOfReplaceRetry(ini, n);
      var r := ReplaceRetry(hs, n);
      assert r[..|r| - 1] == ReplaceRetry(ini, n);
    }
  }

  /** The rewrite keeps the entries other than `retry`, their values and their order. */
  lemma WithRetryKeepsOthers(hs: seq<Header>, n: int)
    ensures Others(WithRetry(hs, n)) == Others(hs)
  {
    OthersOfReplaceRetry(hs, n);
    if !HasRetry(hs) {
      var r := ReplaceRetry(hs, n) + [RetryHeader(n)];
      assert r[..|r| - 1] == ReplaceRetry(hs, n);
    }
  }
}
