/** Fetching one block: a bounded retry loop over whatever the RPC node answers. */
module BlockFetch {
  import opened GoArith
  import opened Chain

  datatype BlockInfo = BlockInfo(height: Option<int>, time: Option<int>, transactions: seq<Transaction>)

  /** One answer of the RPC client: an error, or a possibly nil block. */
  datatype Answer = Error(message: string) | Block(block: Option<BlockInfo>)

  /** The answer to one request, and whether the service is stopped while waiting after it. */
  datatype Attempt = Attempt(answer: Answer, stopped: bool)

  const MAX_RETRIES := 10
  const CANCELED := "context canceled"

  const RETRY_PATTERNS := [
    "block not available for slot", "context deadline exceeded", "rate limit", "too many requests", "429"]

  /** isRetryableGetBlockErr: the data is not ready, or the node limits the rate. */
  predicate IsRetryableMessage(message: string) {
    ContainsAny(ToLower(message), RETRY_PATTERNS)
  }

  /** The patterns that are retried. */
  lemma RetryableIff(message: string)
    ensures IsRetryableMessage(message) <==>
      var m := ToLower(message);
      || Contains(m, "block not available for slot") || Contains(m, "context deadline exceeded")
      || Contains(m, "rate limit") || Contains(m, "too many requests") || Contains(m, "429")
  {
    ContainsAnyIff(ToLower(message), RETRY_PATTERNS);
    assert RETRY_PATTERNS[0] == "block not available for slot" && RETRY_PATTERNS[1] == "context deadline exceeded";
    assert RETRY_PATTERNS[2] == "rate limit" && RETRY_PATTERNS[3] == "too many requests" && RETRY_PATTERNS[4] == "429";
  }

  predicate IsRetryable(a: Answer) {
    a.Error? && IsRetryableMessage(a.message)
  }

  /** The request after which the loop returns. */
  predicate Stops(attempts: nat -> Attempt, k: nat) {
    !IsRetryable(attempts(k).answer) || k >= MAX_RETRIES || attempts(k).stopped
  }

  function FirstStop(attempts: nat -> Attempt, k: nat): (n: nat)
    requires k <= MAX_RETRIES
    ensures k <= n <= MAX_RETRIES && Stops(attempts, n)
    ensures forall i | k <= i < n :: !Stops(attempts, i)
    decreases MAX_RETRIES - k
  {
    if Stops(attempts, k) then k else FirstStop(attempts, k + 1)
  }

  /** What the loop returns after request k, the last one. */
  function AnswerAt(attempts: nat -> Attempt, k: nat): Answer {
    if IsRetryable(attempts(k).answer) && k < MAX_RETRIES then Error(CANCELED) else attempts(k).answer
  }

  function FetchResult(attempts: nat -> Attempt): Answer {
    AnswerAt(attempts, FirstStop(attempts, 0))
  }

  /** How often the loop waits when request k is the last one. */
  function WaitsUpTo(attempts: nat -> Attempt, k: nat): nat {
    if IsRetryable(attempts(k).answer) && k < MAX_RETRIES then k + 1 else k
  }

  method GetSolBlockInfo(attempts: nat -> Attempt) returns (answer: Answer, requests: nat, waits: nat)
    ensures requests == FirstStop(attempts, 0) + 1 && waits == WaitsUpTo(attempts, requests - 1)
    ensures answer == FetchResult(attempts)
  {
    var retryCount := 0;
    requests, waits := 0, 0;
    while true
      invariant retryCount == requests == waits <= MAX_RETRIES
      invariant FirstStop(attempts, requests) == FirstStop(attempts, 0)
      decreases MAX_RETRIES - retryCount
    {
      var attempt := attempts(requests);
      requests := requests + 1;
      if !IsRetryable(attempt.answer) {
        return attempt.answer, requests, waits;
      }
      retryCount := retryCount + 1;
      if retryCount > MAX_RETRIES {
        return attempt.answer, requests, waits;
      }
      waits := waits + 1;
      if attempt.stopped {
        return Error(CANCELED), requests, waits;
      }
    }
  }

  /** Whatever the answers, the loop makes at most 11 requests and 10 waits. Every request but the last is answered by
      a retryable error; the last one gives the first answer that is not retryable, the eleventh answer, or the
      cancellation that reaches the wait after it. */
  lemma FetchIsBounded(attempts: nat -> Attempt)
    ensures
      var k := FirstStop(attempts, 0);
      var last := attempts(k);
      && k + 1 <= 11 && WaitsUpTo(attempts, k) <= 10
      && (forall i | 0 <= i < k :: IsRetryable(attempts(i).answer) && !attempts(i).stopped)
      && (if !IsRetryable(last.answer) then FetchResult(attempts) == last.answer && WaitsUpTo(attempts, k) == k
          else if k == 10 then FetchResult(attempts) == last.answer && WaitsUpTo(attempts, k) == 10
          else last.stopped && FetchResult(attempts) == Error(CANCELED) && WaitsUpTo(attempts, k) == k + 1)
  {
    var k := FirstStop(attempts, 0);
    forall i | 0 <= i < k
      ensures IsRetryable(attempts(i).answer) && !attempts(i).stopped
    {
      assert !Stops(attempts, i);
    }
  }

  // ----- Skipped slots -----

  predicate SaysSkipped(message: string) {
    Contains(ToLower(message), "was skipped")
  }

  /** A message says so wherever the two words stand in it, in upper or lower case. */
  lemma SaysSkippedIff(message: string)
    ensures SaysSkipped(message) <==>
      exists i | 0 <= i <= |message| - 11 :: OccursAt(ToLower(message), "was skipped", i)
  {
  }

  /** A node that keeps answering that a slot was skipped is believed in the end, with or without retries. */
  lemma SkippedIsReturned(attempts: nat -> Attempt)
    requires forall k: nat ::
      attempts(k).answer.Error? && SaysSkipped(attempts(k).answer.message) && !attempts(k).stopped
    ensures FetchResult(attempts).Error? && SaysSkipped(FetchResult(attempts).message)
  {
    assert Stops(attempts, FirstStop(attempts, 0));
  }

  /** A first answer that the slot was skipped is what comes back, whatever the node would say next, exactly when its
      message holds none of the retry patterns. */
  lemma SkippedAtOnceIff(message: string)
    requires SaysSkipped(message)
    ensures (forall attempts: nat -> Attempt | attempts(0) == Attempt(Error(message), false) ::
              FetchResult(attempts) == Error(message))
            <==> !IsRetryableMessage(message)
  {
    if IsRetryableMessage(message) {
      var attempts := (k: nat) => Attempt(if k == 0 then Error(message) else Block(None), false);
      assert !Stops(attempts, 0) && Stops(attempts, 1);
      assert FirstStop(attempts, 0) == FirstStop(attempts, 1) == 1;
      assert FetchResult(attempts) == Block(None);
    }
  }

  /** A slot number that contains 429 reads as a rate limit. */
  lemma SkippedSlotReadsAsRateLimit()
    ensures SaysSkipped("Slot 14290 was skipped") && IsRetryableMessage("Slot 14290 was skipped")
  {
    var m := ToLower("Slot 14290 was skipped");
    assert RETRY_PATTERNS[|RETRY_PATTERNS| - 1] == "429";
    assert m == "slot 14290 was skipped";
    assert OccursAt(m, "was skipped", 11);
    assert OccursAt(m, "429", 6);
  }
}
