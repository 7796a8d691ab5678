/** Retrying read-only requests: `call_with_retry`, `is_retryable` and `backoff_delay` of `broker/src/deriv.rs`. */
module Retry {
  import opened Prelude
  import opened Domain
  import opened Deriv

  const MAX_ATTEMPTS: nat := 4
  const U32_MAX: nat := 0xFFFF_FFFF

  type Answers = nat -> Result<Frame, BrokerError>

  predicate IsRetryable(error: BrokerError) {
    error.Timeout? || error.ConnectionFailed? || error.RateLimited?
  }

  /** Two to the attempt, stopping at the largest unsigned 32-bit value. */
  function SaturatingPow2(attempt: nat): (r: nat)
    ensures 1 <= r <= U32_MAX
  {
    if attempt == 0 then 1
    else
      var half := SaturatingPow2(attempt - 1);
      if 2 * half <= U32_MAX then 2 * half else U32_MAX
  }

  /** In milliseconds. */
  function BackoffDelay(attempt: nat, error: BrokerError): nat {
    match error
    case RateLimited(retryAfterMs) => retryAfterMs
    case _ =>
      var delay := 1000 * SaturatingPow2(attempt);
      if delay <= 30_000 then delay else 30_000
  }

  /** The wait starts at a second and doubles up to thirty; a broker's own wait is taken as it is. */
  lemma BackoffDoubles(attempt: nat, error: BrokerError)
    ensures error.RateLimited? ==> BackoffDelay(attempt, error) == error.retryAfterMs
    ensures !error.RateLimited? ==>
              && BackoffDelay(0, error) == 1000
              && BackoffDelay(attempt + 1, error) ==
                 (if 2 * BackoffDelay(attempt, error) <= 30_000 then 2 * BackoffDelay(attempt, error) else 30_000)
  {
    var half := SaturatingPow2(attempt);
    assert SaturatingPow2(0) == 1;
    assert SaturatingPow2(attempt + 1) == if 2 * half <= U32_MAX then 2 * half else U32_MAX;
  }

  /** The answer is worth another call. */
  predicate Transient(answer: Result<Frame, BrokerError>) {
    answer.Err? && IsRetryable(answer.error)
  }

  /** Every call but the last met a transient failure and was followed by its backoff; the last did not, or was
      the fourth; its answer is the result. */
  predicate Retried(answers: Answers, result: Result<Frame, BrokerError>, calls: nat, waits: seq<nat>) {
    && 1 <= calls <= MAX_ATTEMPTS && |waits| == calls - 1
    && (forall k :: 0 <= k < calls - 1 ==> Transient(answers(k)) && waits[k] == BackoffDelay(k, answers(k).error))
    && result == answers(calls - 1)
    && (calls == MAX_ATTEMPTS || !Transient(result))
  }

  /** The k-th call made is answered by answers(k). */
  method CallWithRetry(answers: Answers) returns (result: Result<Frame, BrokerError>, calls: nat, waits: seq<nat>)
    ensures Retried(answers, result, calls, waits)
  {
    var attempt := 0;
    waits := [];
    while true
      invariant attempt < MAX_ATTEMPTS && |waits| == attempt
      invariant forall k :: 0 <= k < attempt ==> Transient(answers(k)) && waits[k] == BackoffDelay(k, answers(k).error)
      decreases MAX_ATTEMPTS - attempt
    {
      var answer := answers(attempt);
      if answer.Ok? || attempt + 1 >= MAX_ATTEMPTS || !IsRetryable(answer.error) {
        return answer, attempt + 1, waits;
      }
      waits := waits + [BackoffDelay(attempt, answer.error)];
      attempt := attempt + 1;
    }
  }

  lemma StopsThere(answers: Answers, r: Result<Frame, BrokerError>, n: nat, waits: seq<nat>, more: nat)
    requires Retried(answers, r, n, waits) && n < more <= MAX_ATTEMPTS
    ensures exists k :: 0 <= k < more - 1 && !Transient(answers(k))
  {
    assert !Transient(answers(n - 1));
  }

  /** The answers settle how many calls are made and what comes back. */
  lemma RetriedOnce(answers: Answers, r: Result<Frame, BrokerError>, n: nat, waits: seq<nat>,
                    r': Result<Frame, BrokerError>, n': nat, waits': seq<nat>)
    requires Retried(answers, r, n, waits) && Retried(answers, r', n', waits')
    ensures r == r' && n == n' && waits == waits'
  {
    if n == n' {
    } else if n < n' {
      StopsThere(answers, r, n, waits, n');
    } else {
      StopsThere(answers, r', n', waits', n);
    }
  }

  /** Of what a call can come to, exactly the unanswered ones are retried: a request the broker answered, even
      to refuse it, is not sent again. */
  lemma OnlyUnansweredRetried(outcome: Outcome)
    ensures Transient(ResultOf(outcome)) <==> !outcome.Replied?
  {
  }

  function Sum(waits: seq<nat>): nat {
    if waits == [] then 0 else waits[0] + Sum(waits[1..])
  }

  lemma SumOfThree(waits: seq<nat>)
    requires |waits| <= 3
    ensures Sum(waits) == (if |waits| > 0 then waits[0] else 0) + (if |waits| > 1 then waits[1] else 0)
                          + (if |waits| > 2 then waits[2] else 0)
  {
    if |waits| > 0 {
      var rest := waits[1..];
      assert |rest| > 1 ==> Sum(rest[1..]) == rest[1] + Sum(rest[2..]) && rest[2..] == [];
      assert |rest| == 1 ==> rest[1..] == [];
    }
  }

  /** On top of this client, four calls wait seven seconds between them at most. */
  lemma WaitsAreShort(outcomes: nat -> Outcome, r: Result<Frame, BrokerError>, n: nat, waits: seq<nat>)
    requires Retried((k: nat) => ResultOf(outcomes(k)), r, n, waits)
    ensures forall k :: 0 <= k < n - 1 ==> !outcomes(k).Replied? && waits[k] == 1000 * SaturatingPow2(k)
    ensures Sum(waits) <= 7_000
  {
    assert SaturatingPow2(0) == 1 && SaturatingPow2(1) == 2 && SaturatingPow2(2) == 4;
    var answers: Answers := (k: nat) => ResultOf(outcomes(k));
    forall k | 0 <= k < n - 1
      ensures !outcomes(k).Replied? && waits[k] == 1000 * SaturatingPow2(k)
    {
      assert Transient(answers(k)) && waits[k] == BackoffDelay(k, answers(k).error);
      OnlyUnansweredRetried(outcomes(k));
    }
    SumOfThree(waits);
  }
}
