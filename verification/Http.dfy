/** The retry engine of `src/http.rs`. */
module Http {
  import opened Wrappers

  newtype uint32 = x: int | 0 <= x < 0x1_0000_0000

  const MAX_U32 := 0xFFFF_FFFF

  /** A duration in nanoseconds. */
  type Duration = nat

  const SECOND: nat := 1_000_000_000

  /** `retryAfter` is the delay the `Retry-After` header asks for, if it reads as one. */
  datatype Response = Response(status: int, retryAfter: Option<Duration>)

  /** What one send on the wire results in. */
  datatype Attempt = Answered(response: Response) | NetworkError(code: int)

  datatype SendError = Network(code: int) | RequestFailed

  // ----- Policy -----

  predicate ShouldRetryStatus(status: int) {
    if status == 429 then true
    else if status == 501 then false
    else 500 <= status < 600
  }

  predicate Retryable(a: Attempt, extra: seq<int>) {
    match a
    case Answered(response) => ShouldRetryStatus(response.status) || response.status in extra
    case NetworkError(_) => true
  }

  function ResultOf(a: Attempt): Result<Response, SendError> {
    match a
    case Answered(response) => Success(response)
    case NetworkError(code) => Failure(Network(code))
  }

  /** `retry_after_duration`: the header counts on 429 and 503 only. */
  function RetryAfter(response: Response): Option<Duration> {
    if response.status == 429 || response.status == 503 then response.retryAfter else None
  }

  // ----- Backoff -----

  function Pow2(n: nat): nat {
    if n == 0 then 1 else 2 * Pow2(n - 1)
  }

  function Min(a: nat, b: nat): nat {
    if a <= b then a else b
  }

  /** `2u32.saturating_pow(attempt)` */
  function SaturatingPow2(attempt: nat): nat {
    Min(Pow2(attempt), MAX_U32)
  }

  /** `saturating_mul` of a duration, whose largest value is u64::MAX seconds and
      999_999_999 nanoseconds. */
  function SaturatingMul(d: Duration, n: nat): Duration {
    Min(d * n, 0xFFFF_FFFF_FFFF_FFFF * SECOND + 999_999_999)
  }

  function BackoffDuration(attempt: nat, cap: Duration): Duration {
    Min(SaturatingMul(SECOND, SaturatingPow2(attempt)), cap)
  }

  /** `backoff`: how long the engine sleeps after attempt number `attempt`. */
  function Delay(a: Attempt, attempt: nat, cap: Duration): Duration {
    if a.Answered? && RetryAfter(a.response).Some? then RetryAfter(a.response).value
    else BackoffDuration(attempt, cap)
  }

  /** The multiplication never saturates: the delay is the least of the power of
      two, 2^32 - 1 seconds and the cap. */
  lemma BackoffIsMin(attempt: nat, cap: Duration)
    ensures
      var seconds := if Pow2(attempt) < 0x1_0000_0000 then Pow2(attempt) else 0xFFFF_FFFF;
      BackoffDuration(attempt, cap) == if seconds * 1_000_000_000 <= cap then seconds * 1_000_000_000 else cap
  {
    assert SaturatingPow2(attempt) <= MAX_U32;
  }

  /** The powers that the delays are made of: 1, 2, 4, and so on. */
  lemma PowersDouble(n: nat)
    ensures Pow2(0) == 1 && Pow2(n + 1) == 2 * Pow2(n)
    ensures Pow2(8) == 256
  {
    assert Pow2(4) == 16;
    assert Pow2(6) == 64;
  }

  lemma {:induction false} Pow2Monotone(a: nat, b: nat)
    requires a <= b
    ensures Pow2(a) <= Pow2(b)
    decreases b
  {
    if a < b {
      Pow2Monotone(a, b - 1);
    }
  }

  lemma BackoffMonotone(a: nat, b: nat, cap: Duration)
    requires a <= b
    ensures BackoffDuration(a, cap) <= BackoffDuration(b, cap) <= cap
  {
    Pow2Monotone(a, b);
    BackoffIsMin(a, cap);
    BackoffIsMin(b, cap);
  }

  function Sum(xs: seq<nat>): nat {
    if xs == [] then 0 else Sum(xs[..|xs| - 1]) + xs[|xs| - 1]
  }

  /** How many of the first `n` powers of two are at most `cap`. */
  function PowersWithin(n: nat, cap: nat): nat {
    if n == 0 then 0 else PowersWithin(n - 1, cap) + (if Pow2(n - 1) <= cap then 1 else 0)
  }

  lemma {:induction false} PowersWithinIsPrefix(n: nat, cap: nat)
    ensures PowersWithin(n, cap) <= n
    ensures PowersWithin(n, cap) < n ==> cap < Pow2(n - 1)
    ensures n > 0 && Pow2(n - 1) <= cap ==> PowersWithin(n, cap) == n
  {
    if n > 0 {
      PowersWithinIsPrefix(n - 1, cap);
      if n > 1 {
        Pow2Monotone(n - 2, n - 1);
      }
    }
  }

  /** The sum of the first `n` powers of two, each cut off at `cap`. */
  function CappedPowers(n: nat, cap: nat): nat {
    if n == 0 then 0 else CappedPowers(n - 1, cap) + Min(Pow2(n - 1), cap)
  }

  lemma {:induction false} CappedPowersClosed(n: nat, cap: nat)
    ensures
      var m := PowersWithin(n, cap);
      m <= n && CappedPowers(n, cap) == Pow2(m) - 1 + (n - m) * cap
  {
    PowersWithinIsPrefix(n, cap);
    if n > 0 {
      CappedPowersClosed(n - 1, cap);
      PowersWithinIsPrefix(n - 1, cap);
      var m := PowersWithin(n - 1, cap);
      if Pow2(n - 1) <= cap {
        assert PowersWithin(n, cap) == n && m == n - 1;
        assert (n - 1 - m) * cap == 0 && (n - n) * cap == 0;
      } else {
        assert PowersWithin(n, cap) == m;
        OneMore(n - 1 - m, cap);
      }
    }
  }

  lemma OneMore(a: nat, cap: nat)
    ensures (a + 1) * cap == a * cap + cap
  {
  }

  /** Under a whole-second cap every delay is a whole number of seconds. */
  lemma WholeSeconds(attempt: nat, cap: nat)
    requires cap <= MAX_U32
    ensures BackoffDuration(attempt, cap * SECOND) == Min(Pow2(attempt), cap) * SECOND
  {
    BackoffIsMin(attempt, cap * SECOND);
  }

  lemma {:induction false} SumOfBackoffs(sleeps: seq<nat>, cap: nat)
    requires cap <= MAX_U32
    requires forall k :: 0 <= k < |sleeps| ==> sleeps[k] == BackoffDuration(k, cap * SECOND)
    ensures Sum(sleeps) == CappedPowers(|sleeps|, cap) * SECOND
  {
    if sleeps != [] {
      SumOfBackoffs(sleeps[..|sleeps| - 1], cap);
      WholeSeconds(|sleeps| - 1, cap);
    }
  }

  /** Without `Retry-After`, `n` retries under a whole-second cap sleep
      2^m - 1 + (n - m) * cap seconds, m being the number of powers within the cap. */
  lemma TotalBackoff(sleeps: seq<nat>, cap: nat)
    requires cap <= MAX_U32
    requires forall k :: 0 <= k < |sleeps| ==> sleeps[k] == BackoffDuration(k, cap * SECOND)
    ensures
      var n := |sleeps|;
      var m := PowersWithin(n, cap);
      m <= n && Sum(sleeps) == (Pow2(m) - 1 + (n - m) * cap) * SECOND
  {
    SumOfBackoffs(sleeps, cap);
    CappedPowersClosed(|sleeps|, cap);
  }

  // ----- The loop -----

  /** `retry_max.saturating_add(1)` */
  function Attempts(retryMax: nat): nat {
    Min(retryMax + 1, MAX_U32)
  }

  /** `sent` is where the engine stops on this wire: at the first attempt that is
      not retryable, or at the limit. */
  ghost predicate StopsAt(wire: nat -> Attempt, extra: seq<int>, limit: nat, sent: nat) {
    && 1 <= sent <= limit
    && (forall k :: 0 <= k < sent - 1 ==> Retryable(wire(k), extra))
    && (sent < limit ==> !Retryable(wire(sent - 1), extra))
  }

  /** The stopping point is unique, so the contract below determines the run. */
  lemma StopsOnce(wire: nat -> Attempt, extra: seq<int>, limit: nat, a: nat, b: nat)
    requires StopsAt(wire, extra, limit, a) && StopsAt(wire, extra, limit, b)
    ensures a == b
  {
  }

  /** `send_with_retry_statuses`. `wire(k)` is the outcome of the k-th send;
      `cloneable` says whether the request can be sent more than once. */
  method SendWithRetryStatuses(cloneable: bool, extra: seq<int>, retryMax: uint32, cap: Duration, wire: nat -> Attempt)
    returns (r: Result<Response, SendError>, sent: nat, sleeps: seq<Duration>)
    // it stops at the limit, or before it at the first outcome that is no reason to retry
    ensures StopsAt(wire, extra, if cloneable then Attempts(retryMax as nat) else 1, sent)
    ensures 1 <= sent <= (if cloneable && retryMax < 0xFFFF_FFFF then retryMax as nat + 1
                          else if cloneable then 0xFFFF_FFFF else 1)
    ensures forall k :: 0 <= k < sent - 1 && wire(k).Answered? ==>
              var status := wire(k).response.status;
              status == 429 || (500 <= status <= 599 && status != 501) || status in extra
    ensures cloneable && sent < (if retryMax < 0xFFFF_FFFF then retryMax as nat + 1 else 0xFFFF_FFFF) ==>
              && wire(sent - 1).Answered?
              && var status := wire(sent - 1).response.status;
                 status != 429 && !(500 <= status <= 599 && status != 501) && status !in extra
    // it returns the last outcome
    ensures match wire(sent - 1)
            case Answered(response) => r == Success(response)
            case NetworkError(code) => r == Failure(Network(code))
    // and it sleeps after every other one
    ensures |sleeps| == sent - 1
    ensures forall k :: 0 <= k < |sleeps| ==> sleeps[k] == Delay(wire(k), k, cap)
    ensures forall k :: 0 <= k < |sleeps| ==>
              var asks := wire(k).Answered? && (wire(k).response.status == 429 || wire(k).response.status == 503)
                          && wire(k).response.retryAfter.Some?;
              var seconds := if Pow2(k) < 0x1_0000_0000 then Pow2(k) else 0xFFFF_FFFF;
              sleeps[k] == if asks then wire(k).response.retryAfter.value
                           else if seconds * 1_000_000_000 <= cap then seconds * 1_000_000_000 else cap
  {
    r, sent, sleeps := Retry(cloneable, extra, retryMax, cap, wire);
    forall k | 0 <= k < |sleeps|
      ensures
        var asks := wire(k).Answered? && (wire(k).response.status == 429 || wire(k).response.status == 503)
                    && wire(k).response.retryAfter.Some?;
        var seconds := if Pow2(k) < 0x1_0000_0000 then Pow2(k) else 0xFFFF_FFFF;
        sleeps[k] == if asks then wire(k).response.retryAfter.value
                     else if seconds * 1_000_000_000 <= cap then seconds * 1_000_000_000 else cap
    {
      BackoffIsMin(k, cap);
    }
  }

  /** The loop of `send_with_retry_statuses`. */
  method Retry(cloneable: bool, extra: seq<int>, retryMax: uint32, cap: Duration, wire: nat -> Attempt)
    returns (r: Result<Response, SendError>, sent: nat, sleeps: seq<Duration>)
    ensures StopsAt(wire, extra, if cloneable then Attempts(retryMax as nat) else 1, sent)
    ensures r == ResultOf(wire(sent - 1)) && |sleeps| == sent - 1
    ensures forall k :: 0 <= k < |sleeps| ==> sleeps[k] == Delay(wire(k), k, cap)
  {
    var lastErr: Option<SendError> := None;
    var attempts := if retryMax == 0xFFFF_FFFF then retryMax else retryMax + 1;
    sent, sleeps := 0, [];
    var attempt: uint32 := 0;
    while attempt < attempts
      invariant 0 <= attempt < attempts && sent == attempt as nat == |sleeps|
      invariant !cloneable ==> attempt == 0
      invariant forall k :: 0 <= k < sent ==> Retryable(wire(k), extra)
      invariant forall k :: 0 <= k < |sleeps| ==> sleeps[k] == Delay(wire(k), k, cap)
      decreases attempts - attempt
    {
      var outcome := wire(sent);
      sent := sent + 1;
      if !cloneable {
        return ResultOf(outcome), sent, sleeps;
      }
      match outcome {
        case Answered(response) =>
          var status := response.status;
          var retryable := ShouldRetryStatus(status) || status in extra;
          if !retryable || attempt + 1 >= attempts {
            return Success(response), sent, sleeps;
          }
          sleeps := sleeps + [Delay(outcome, attempt as nat, cap)];
        case NetworkError(code) =>
          lastErr := Some(Network(code));
          if attempt + 1 >= attempts {
            break;
          }
          sleeps := sleeps + [BackoffDuration(attempt as nat, cap)];
      }
      attempt := attempt + 1;
    }
    return Failure(if lastErr.Some? then lastErr.value else RequestFailed), sent, sleeps;
  }

  /** A request that fails only retryably and without `Retry-After` takes at most
      `retry_max + 1` sends, and sleeps the closed form for one less. */
  lemma WorstCaseSleep(
      wire: nat -> Attempt, extra: seq<int>, retryMax: uint32, cap: nat, sent: nat, sleeps: seq<Duration>)
    requires cap <= MAX_U32
    requires StopsAt(wire, extra, Attempts(retryMax as nat), sent) && |sleeps| == sent - 1
    requires forall k :: 0 <= k < |sleeps| ==> sleeps[k] == Delay(wire(k), k, cap * SECOND)
    requires forall k :: 0 <= k < |sleeps| ==> wire(k).NetworkError? || RetryAfter(wire(k).response) == None
    ensures sent <= retryMax as nat + 1
    ensures
      var m := PowersWithin(sent - 1, cap);
      m <= sent - 1 && Sum(sleeps) == (Pow2(m) - 1 + (sent - 1 - m) * cap) * SECOND
  {
    TotalBackoff(sleeps, cap);
  }
}
