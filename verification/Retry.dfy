/**
  HTTP requests with retries (coingecko_common/http_client_with_retries.go).
  What each attempt meets and the random jitter before it are inputs.  Durations
  are nanoseconds, unbounded.
*/
module Retry {
  import opened Wrappers

  /** What one attempt meets: the rate limiter, the transport, or a response. */
  datatype Outcome =
    | LimiterFailed
    | TransportFailed
    | Response(status: int, bodyRead: bool)

  datatype RetryError = AttemptsExhausted | NotRetryable(status: int)

  predicate IsRetryable(status: int) {
    status == 429 || status == 500 || status == 502 || status == 503 || status == 504
  }

  predicate Succeeds(o: Outcome) {
    o.Response? && o.status == 200 && o.bodyRead
  }

  /** Another attempt may follow. */
  predicate GoesOn(o: Outcome) {
    o.TransportFailed? || (o.Response? && !Succeeds(o) && IsRetryable(o.status))
  }

  function Pow2(n: nat): (p: nat)
    ensures p > 0
  {
    if n == 0 then 1 else 2 * Pow2(n - 1)
  }

  /** base shifted by attempt - 1. */
  function Backoff(base: nat, attempt: nat): nat
    requires attempt > 0
  {
    base * Pow2(attempt - 1)
  }

  /** rand.Int63n draws below half of the backoff; it panics when that half is zero. */
  predicate IsJitter(jitter: nat, base: nat, attempt: nat)
    requires attempt > 0
  {
    jitter < Backoff(base, attempt) / 2
  }

  ghost predicate AreJitters(jitters: nat -> nat, base: nat, maxRetries: int) {
    forall attempt: nat :: 0 < attempt < maxRetries ==> IsJitter(jitters(attempt), base, attempt)
  }

  // ---------- the retry loop ----------

  /** The waits before the attempts 1..n - 1. */
  function WaitsBefore(base: nat, jitters: nat -> nat, n: nat): nat {
    if n <= 1 then 0 else WaitsBefore(base, jitters, n - 1) + Backoff(base, n - 1) + jitters(n - 1)
  }

  /** The statuses the handler is told: "success", "rate_limited" and "error". */
  datatype Report = Success | RateLimited | Failure

  function ReportOf(o: Outcome): Report {
    if Succeeds(o) then Success
    else if o.Response? && IsRetryable(o.status) then RateLimited
    else Failure
  }

  /**
    Success is a read body of status 200, rate_limited one of the five retryable
    statuses without it, and everything else is an error.
  */
  predicate Reported(o: Outcome, report: Report) {
    match report
    case Success => o.Response? && o.status == 200 && o.bodyRead
    case RateLimited => o.Response? && o.status in [429, 500, 502, 503, 504]
    case Failure =>
      o.Response? ==> !(o.status == 200 && o.bodyRead) && o.status !in [429, 500, 502, 503, 504]
  }

  /** n attempts are made: all but the last go on, and the last is the last allowed or does not go on. */
  ghost predicate Makes(outcomes: nat -> Outcome, maxRetries: int, n: nat) {
    && n <= (if maxRetries > 0 then maxRetries else 0)
    && (maxRetries > 0 ==> n > 0)
    && (forall k: nat :: k + 1 < n ==> GoesOn(outcomes(k)))
    && (0 < n < maxRetries ==> !GoesOn(outcomes(n - 1)))
  }

  ghost predicate AllGoOn(outcomes: nat -> Outcome, n: nat) {
    forall k: nat :: k < n ==> GoesOn(outcomes(k))
  }

  /** One report for each attempt, of what it met. */
  ghost predicate ReportsOf(outcomes: nat -> Outcome, reports: seq<Report>) {
    forall k :: 0 <= k < |reports| ==> reports[k] == ReportOf(outcomes(k))
  }

  lemma OneMoreReport(outcomes: nat -> Outcome, reports: seq<Report>)
    requires ReportsOf(outcomes, reports)
    ensures ReportsOf(outcomes, reports + [ReportOf(outcomes(|reports|))])
  {
  }

  lemma OneMoreGoesOn(outcomes: nat -> Outcome, n: nat)
    requires AllGoOn(outcomes, n) && GoesOn(outcomes(n))
    ensures AllGoOn(outcomes, n + 1)
  {
  }

  lemma LastAttempt(outcomes: nat -> Outcome, maxRetries: int, n: nat)
    requires AllGoOn(outcomes, n) && !GoesOn(outcomes(n)) && n < maxRetries
    ensures Makes(outcomes, maxRetries, n + 1)
  {
  }

  lemma AttemptsUsedUp(outcomes: nat -> Outcome, maxRetries: int, n: nat)
    requires AllGoOn(outcomes, n) && n == if maxRetries > 0 then maxRetries else 0
    ensures Makes(outcomes, maxRetries, n) && Verdict(outcomes, n) == Err(AttemptsExhausted)
  {
  }

  /** The number of attempts is determined by what they meet. */
  lemma MakesUnique(outcomes: nat -> Outcome, maxRetries: int, m: nat, n: nat)
    requires Makes(outcomes, maxRetries, m) && Makes(outcomes, maxRetries, n)
    ensures m == n
  {
  }

  /**
    The loop, with a status handler that is set: `reports` lists what it is told
    about attempts, `retries` counts what it is told about retries, and `waited`
    adds up the sleeps.  The loop stops at the first success, non-retryable
    status or limiter failure; until then every attempt is reported once, and
    every attempt but the first is announced as a retry and waited for.
  */
  method ExecuteRequest(maxRetries: int, base: nat, outcomes: nat -> Outcome, jitters: nat -> nat)
    returns (r: Result<nat, RetryError>, reports: seq<Report>, retries: nat, waited: nat)
    ensures Makes(outcomes, maxRetries, |reports|)
    ensures ReportsOf(outcomes, reports)
    ensures retries == if |reports| == 0 then 0 else |reports| - 1
    ensures waited == WaitsBefore(base, jitters, |reports|)
    ensures r == Verdict(outcomes, |reports|)
  {
    reports, retries, waited := [], 0, 0;
    var attempt := 0;
    while attempt < maxRetries
      invariant attempt == |reports| && (maxRetries > 0 ==> attempt <= maxRetries)
      invariant maxRetries <= 0 ==> attempt == 0
      invariant AllGoOn(outcomes, attempt) && ReportsOf(outcomes, reports)
      invariant retries == if attempt == 0 then 0 else attempt - 1
      invariant waited == WaitsBefore(base, jitters, attempt)
    {
      if attempt > 0 {
        retries := retries + 1;
        waited := waited + Backoff(base, attempt) + jitters(attempt);
      }
      var o := outcomes(attempt);
      OneMoreReport(outcomes, reports);
      if GoesOn(o) {
        OneMoreGoesOn(outcomes, attempt);
      } else {
        LastAttempt(outcomes, maxRetries, attempt);
      }
      if o.LimiterFailed? {
        reports := reports + [Failure];
        break;
      }
      if o.TransportFailed? {
        reports := reports + [Failure];
        attempt := attempt + 1;
        continue;
      }
      if !(o.status == 200 && o.bodyRead) {
        if IsRetryable(o.status) {
          reports := reports + [RateLimited];
          attempt := attempt + 1;
          continue;
        }
        reports := reports + [Failure];
        return Err(NotRetryable(o.status)), reports, retries, waited;
      }
      reports := reports + [Success];
      return Ok(attempt), reports, retries, waited;
    }
    if attempt >= maxRetries {
      AttemptsUsedUp(outcomes, maxRetries, attempt);
    }
    return Err(AttemptsExhausted), reports, retries, waited;
  }

  /** The last of n attempts decides. */
  function Verdict(outcomes: nat -> Outcome, n: nat): Result<nat, RetryError> {
    if n == 0 then Err(AttemptsExhausted)
    else
      var o := outcomes(n - 1);
      if Succeeds(o) then Ok(n - 1)
      else if o.Response? && !IsRetryable(o.status) then Err(NotRetryable(o.status))
      else Err(AttemptsExhausted)
  }

  /** The report of an attempt says what it met. */
  lemma ReportMeans(o: Outcome)
    ensures Reported(o, ReportOf(o))
  {
  }

  /**
    When n attempts are made, all but the last met a transport failure or a
    retryable status, the last did not unless it is the last allowed, and the
    answer is the last one's: its success, its status, or that all are used up.
  */
  lemma AttemptsMean(outcomes: nat -> Outcome, maxRetries: int, n: nat)
    requires Makes(outcomes, maxRetries, n) && n > 0
    ensures forall k: nat :: k + 1 < n ==> Retried(outcomes(k))
    ensures n < maxRetries ==> !Retried(outcomes(n - 1))
    ensures match Verdict(outcomes, n)
            case Ok(k) => k == n - 1 && Reported(outcomes(k), Success)
            case Err(NotRetryable(status)) =>
              && outcomes(n - 1).Response? && outcomes(n - 1).status == status
              && !Reported(outcomes(n - 1), Success) && status !in [429, 500, 502, 503, 504]
            case Err(AttemptsExhausted) => outcomes(n - 1).LimiterFailed? || Retried(outcomes(n - 1))
  {
  }

  predicate Retried(o: Outcome) {
    o.TransportFailed? || Reported(o, RateLimited)
  }

  // ---------- how long it waits ----------

  /**
    The waits of n attempts add up to at least base * (2^(n-1) - 1), and for more
    than one attempt to strictly less than one and a half times that.
  */
  lemma {:induction false} WaitBound(base: nat, jitters: nat -> nat, n: nat)
    requires n >= 1 && AreJitters(jitters, base, n)
    ensures var w := WaitsBefore(base, jitters, n);
            var least := base * (Pow2(n - 1) - 1);
            && least <= w
            && (n > 1 ==> 2 * w < 3 * least)
  {
    if n > 1 {
      WaitBound(base, jitters, n - 1);
      assert IsJitter(jitters(n - 1), base, n - 1);
      var b := Backoff(base, n - 1);
      assert b == base * Pow2(n - 2);
      BackoffSum(base, n);
    }
  }

  lemma BackoffSum(base: nat, n: nat)
    requires n > 1
    ensures base * (Pow2(n - 1) - 1) == base * (Pow2(n - 2) - 1) + base * Pow2(n - 2)
  {
    assert Pow2(n - 1) - 1 == (Pow2(n - 2) - 1) + Pow2(n - 2);
  }

  /** A base of at least two leaves room for every jitter, so such draws exist. */
  lemma JitterExists(base: nat, attempt: nat)
    requires attempt > 0
    ensures base >= 2 ==> IsJitter(0, base, attempt)
    ensures IsJitter(0, base, 1) <==> base >= 2
  {
    assert Pow2(0) == 1;
    if base >= 2 {
      assert base * Pow2(attempt - 1) >= 2 by {
        ProductAtLeast(base, Pow2(attempt - 1));
      }
    }
  }

  lemma ProductAtLeast(a: nat, b: nat)
    requires b > 0
    ensures a * b >= a
  {
  }

  /**
    A request whose every attempt meets a transport failure or a retryable
    status makes exactly maxRetries attempts and waits within the bound.
  */
  lemma ExhaustedRequest(maxRetries: int, base: nat, outcomes: nat -> Outcome, jitters: nat -> nat, n: nat)
    requires maxRetries > 0 && AreJitters(jitters, base, maxRetries)
    requires forall k: nat :: k < maxRetries ==> GoesOn(outcomes(k))
    requires Makes(outcomes, maxRetries, n)
    ensures n == maxRetries && Verdict(outcomes, n) == Err(AttemptsExhausted)
    ensures var w := WaitsBefore(base, jitters, n);
            var least := base * (Pow2(n - 1) - 1);
            least <= w && (n > 1 ==> 2 * w < 3 * least)
  {
    MakesUnique(outcomes, maxRetries, n, maxRetries);
    WaitBound(base, jitters, maxRetries);
  }
}
