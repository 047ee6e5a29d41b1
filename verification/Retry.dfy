/** Repeating a whole transaction that Postgres refused because of a conflict (src/retry.ts). */
module Retry {
  import opened Wrappers

  /** What `work` threw: `code` if it has one that is a string. */
  datatype DbError = DbError(code: Option<string>, message: string)

  const SERIALIZATION_FAILURE := "40001"
  const DEADLOCK_DETECTED := "40P01"

  predicate IsRetryableError(error: DbError) {
    error.code == Some(SERIALIZATION_FAILURE) || error.code == Some(DEADLOCK_DETECTED)
  }

  /** Whether an error at this attempt leads to another one. */
  predicate Again(error: DbError, attempt: nat, maxAttempts: int) {
    IsRetryableError(error) && attempt < maxAttempts
  }

  function Pow2(n: nat): nat {
    if n == 0 then 1 else 2 * Pow2(n - 1)
  }

  /** Math.round: halves go up. */
  function Round(x: real): int {
    (x + 0.5).Floor
  }

  /** base 2^(n - 1): the n-th delay before jitter. */
  function Base(baseMs: real, n: nat): real
    requires n >= 1
  {
    if n == 1 then baseMs else 2.0 * Base(baseMs, n - 1)
  }

  function Jittered(x: real, random: real): int {
    Round(x * (0.5 + random))
  }

  /** `random` is what Math.random() gave. */
  function DelayMs(baseMs: real, attempt: nat, random: real): int
    requires attempt >= 1
  {
    Jittered(Base(baseMs, attempt), random)
  }

  function FirstLine(s: string): string {
    if s == "" || s[0] == '\n' then "" else [s[0]] + FirstLine(s[1..])
  }

  datatype RetryAttemptLog = RetryAttemptLog(attempt: nat, code: string, message: string, delayMs: int)

  datatype RetryOutcome<T> = RetryOutcome(value: T, attempts: nat, retries: seq<RetryAttemptLog>)

  datatype RetryOptions = RetryOptions(maxAttempts: Option<int>, baseDelayMs: Option<real>)

  function MaxAttempts(options: RetryOptions): int {
    if options.maxAttempts.Some? then options.maxAttempts.value else 6
  }

  function BaseDelayMs(options: RetryOptions): real {
    if options.baseDelayMs.Some? then options.baseDelayMs.value else 15.0
  }

  /** The log of a failed attempt. */
  predicate Logged<T>(log: RetryAttemptLog, attempt: nat, work: nat -> Result<T, DbError>, baseMs: real, random: nat -> real) {
    && attempt >= 1 && work(attempt).Failure?
    && log.attempt == attempt
    && work(attempt).error.code == Some(log.code)
    && log.message == FirstLine(work(attempt).error.message)
    && log.delayMs == DelayMs(baseMs, attempt, random(attempt))
  }

  /** `work(n)` is how the n-th run of the work ends. It is run again exactly after retryable
      errors, as long as attempts are left: at least once, never more than `maxAttempts` times
      (or once, if that is less). */
  method WithRetry<T>(work: nat -> Result<T, DbError>, random: nat -> real, options: RetryOptions)
    returns (outcome: Result<RetryOutcome<T>, DbError>, runs: nat, delays: seq<int>)
    ensures 1 <= runs && (runs == 1 || runs <= MaxAttempts(options))
    ensures forall n :: 1 <= n < runs ==> work(n).Failure? && IsRetryableError(work(n).error)
    ensures work(runs).Failure? ==> !Again(work(runs).error, runs, MaxAttempts(options))
    ensures match work(runs)
      case Success(value) => outcome.Success? && outcome.value.value == value && outcome.value.attempts == runs
      case Failure(error) => outcome == Failure(error)
    ensures outcome.Success? ==>
      && |outcome.value.retries| == outcome.value.attempts - 1
      && forall k :: 0 <= k < |outcome.value.retries| ==>
           Logged(outcome.value.retries[k], k + 1, work, BaseDelayMs(options), random)
    ensures |delays| == runs - 1
    ensures forall k :: 0 <= k < |delays| ==> delays[k] == DelayMs(BaseDelayMs(options), k + 1, random(k + 1))
  {
    var maxAttempts, baseMs := MaxAttempts(options), BaseDelayMs(options);
    var retries: seq<RetryAttemptLog> := [];
    var attempt := 1;
    delays := [];
    while true
      invariant 1 <= attempt && (attempt == 1 || attempt <= maxAttempts)
      invariant |retries| == attempt - 1
      invariant forall n :: 1 <= n < attempt ==> work(n).Failure? && IsRetryableError(work(n).error)
      invariant forall k :: 0 <= k < |retries| ==> Logged(retries[k], k + 1, work, baseMs, random)
      invariant |delays| == attempt - 1
      invariant forall k :: 0 <= k < |delays| ==> delays[k] == DelayMs(baseMs, k + 1, random(k + 1))
      decreases maxAttempts - attempt
    {
      match work(attempt) {
        case Success(value) =>
          return Success(RetryOutcome(value, attempt, retries)), attempt, delays;
        case Failure(error) =>
          if !IsRetryableError(error) || attempt >= maxAttempts {
            return Failure(error), attempt, delays;
          }
          var delayMs := DelayMs(baseMs, attempt, random(attempt));
          retries := retries + [RetryAttemptLog(attempt, error.code.value, FirstLine(error.message), delayMs)];
          delays := delays + [delayMs];  // slept
      }
      attempt := attempt + 1;
    }
  }

  /** Only conflicts between transactions are worth another attempt. */
  lemma RetryableAre(error: DbError)
    ensures IsRetryableError(error) <==> error.code.Some? && (error.code.value == "40001" || error.code.value == "40P01")
  {
  }

  /** Six attempts and 15 ms unless the caller says otherwise. */
  lemma Defaults(options: RetryOptions)
    ensures MaxAttempts(options) == match options.maxAttempts case Some(n) => n case None => 6
    ensures BaseDelayMs(options) == match options.baseDelayMs case Some(ms) => ms case None => 15.0
  {
  }

  /** A delay is base 2^(n - 1) (1/2 + random), rounded to the nearest millisecond, halves up. */
  lemma {:induction false} DelayIs(baseMs: real, attempt: nat, random: real)
    requires attempt >= 1
    ensures var exact := baseMs * Pow2(attempt - 1) as real * (0.5 + random);
      exact - 0.5 < DelayMs(baseMs, attempt, random) as real <= exact + 0.5
  {
    BaseIsPower(baseMs, attempt);
    RoundIsNear(Base(baseMs, attempt) * (0.5 + random));
  }

  /** Of a message the log keeps what comes before the first line break. */
  lemma {:induction false} FirstLineIs(s: string)
    ensures FirstLine(s) <= s && '\n' !in FirstLine(s)
    ensures |FirstLine(s)| < |s| ==> s[|FirstLine(s)|] == '\n'
  {
    if s != "" && s[0] != '\n' {
      FirstLineIs(s[1..]);
      assert s == [s[0]] + s[1..];
    }
  }

  lemma RoundIsNear(x: real)
    ensures Round(x) as real - 0.5 <= x < Round(x) as real + 0.5
    ensures x - 0.5 < Round(x) as real <= x + 0.5
  {
  }

  lemma ProductOfNonNegatives(x: real, y: real)
    requires x >= 0.0 && y >= 0.0
    ensures x * y >= 0.0
  {
  }

  lemma Distribute(x: real, a: real, b: real)
    ensures x * (a + b) == x * a + x * b
  {
  }

  /** A factor between 1/2 and 3/2. */
  lemma Jitter(x: real, random: real)
    requires x >= 0.0 && 0.0 <= random < 1.0
    ensures x / 2.0 <= x * (0.5 + random) <= x * 1.5
  {
    Distribute(x, 0.5, random);
    Distribute(x, random, 1.0 - random);
    ProductOfNonNegatives(x, random);
    ProductOfNonNegatives(x, 1.0 - random);
  }

  /** The sum of the first n of them. */
  function BaseSum(baseMs: real, n: nat): real {
    if n == 0 then 0.0 else BaseSum(baseMs, n - 1) + Base(baseMs, n)
  }

  lemma {:induction false} BaseIsPower(baseMs: real, n: nat)
    requires n >= 1
    ensures Base(baseMs, n) == baseMs * Pow2(n - 1) as real
  {
    if n > 1 {
      BaseIsPower(baseMs, n - 1);
      var p := Pow2(n - 2) as real;
      assert Pow2(n - 1) as real == p + p;
      Distribute(baseMs, p, p);
    }
  }

  lemma {:induction false} BaseSumIsGeometric(baseMs: real, n: nat)
    ensures BaseSum(baseMs, n) == baseMs * (Pow2(n) - 1) as real
  {
    SumIsNextLess(baseMs, n);
    BaseIsPower(baseMs, n + 1);
    var p := Pow2(n) as real;
    assert (Pow2(n) - 1) as real == p + -1.0;
    Distribute(baseMs, p, -1.0);
  }

  lemma {:induction false} SumIsNextLess(baseMs: real, n: nat)
    ensures BaseSum(baseMs, n) == Base(baseMs, n + 1) - baseMs
  {
    if n > 0 { SumIsNextLess(baseMs, n - 1); }
  }

  lemma {:induction false} BaseIsNotNegative(baseMs: real, n: nat)
    requires n >= 1 && baseMs >= 0.0
    ensures Base(baseMs, n) >= 0.0
  {
    if n > 1 { BaseIsNotNegative(baseMs, n - 1); }
  }

  /** Half to one and a half times `base`, rounded. */
  predicate Near(delay: int, base: real) {
    base / 2.0 - 0.5 <= delay as real <= base * 1.5 + 0.5
  }

  lemma JitteredIsNear(x: real, random: real)
    requires x >= 0.0 && 0.0 <= random < 1.0
    ensures Near(Jittered(x, random), x)
  {
    Jitter(x, random);
    RoundIsNearTo(x * (0.5 + random), x);
  }

  lemma RoundIsNearTo(y: real, x: real)
    requires x / 2.0 <= y <= x * 1.5
    ensures Near(Round(y), x)
  {
    RoundIsNear(y);
  }

  function Total(delays: seq<int>): int {
    if delays == [] then 0 else Total(delays[..|delays| - 1]) + delays[|delays| - 1]
  }

  function TotalBase(bases: seq<real>): real {
    if bases == [] then 0.0 else TotalBase(bases[..|bases| - 1]) + bases[|bases| - 1]
  }

  lemma {:induction false} TotalIsNear(delays: seq<int>, bases: seq<real>)
    requires |delays| == |bases| && forall k :: 0 <= k < |delays| ==> Near(delays[k], bases[k])
    ensures TotalBase(bases) / 2.0 - |delays| as real / 2.0 <= Total(delays) as real
      <= TotalBase(bases) * 1.5 + |delays| as real / 2.0
  {
    if delays != [] {
      var last := |delays| - 1;
      TotalIsNear(delays[..last], bases[..last]);
      assert Near(delays[last], bases[last]);
    }
  }

  function Bases(baseMs: real, n: nat): (bases: seq<real>)
    ensures |bases| == n
  {
    seq(n, k requires 0 <= k < n => Base(baseMs, k + 1))
  }

  lemma {:induction false} TotalOfBases(baseMs: real, n: nat)
    ensures TotalBase(Bases(baseMs, n)) == BaseSum(baseMs, n)
  {
    if n > 0 {
      TotalOfBases(baseMs, n - 1);
      assert Bases(baseMs, n)[..n - 1] == Bases(baseMs, n - 1);
    }
  }

  /** Math.random() */
  ghost predicate Draws(random: nat -> real) {
    forall i: nat :: 0.0 <= random(i) < 1.0
  }

  lemma {:induction false} DelayIsNear(baseMs: real, attempt: nat, random: real)
    requires baseMs >= 0.0 && attempt >= 1 && 0.0 <= random < 1.0
    ensures Near(DelayMs(baseMs, attempt, random), Base(baseMs, attempt))
  {
    BaseIsNotNegative(baseMs, attempt);
    JitteredIsNear(Base(baseMs, attempt), random);
  }

  lemma DelaysAreNear(baseMs: real, delays: seq<int>, random: nat -> real)
    requires baseMs >= 0.0 && Draws(random)
    requires forall k :: 0 <= k < |delays| ==> delays[k] == DelayMs(baseMs, k + 1, random(k + 1))
    ensures forall k :: 0 <= k < |delays| ==> Near(delays[k], Bases(baseMs, |delays|)[k])
  {
    forall k | 0 <= k < |delays| ensures Near(delays[k], Bases(baseMs, |delays|)[k]) {
      DelayIsNear(baseMs, k + 1, random(k + 1));
    }
  }

  /** The waiting is geometric, give or take half a millisecond a time: the delays after n failures
      add up to between half and one and a half times base (2^n - 1), which is BaseSum. */
  lemma {:induction false} DelaysAreGeometric(baseMs: real, delays: seq<int>, random: nat -> real)
    requires baseMs >= 0.0 && Draws(random)
    requires forall k :: 0 <= k < |delays| ==> delays[k] == DelayMs(baseMs, k + 1, random(k + 1))
    ensures var n, sum := |delays| as real, BaseSum(baseMs, |delays|);
      sum / 2.0 - n / 2.0 <= Total(delays) as real <= sum * 1.5 + n / 2.0
  {
    DelaysAreNear(baseMs, delays, random);
    TotalIsNear(delays, Bases(baseMs, |delays|));
    TotalOfBases(baseMs, |delays|);
  }
}
