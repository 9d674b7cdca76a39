/** HTTP retries with capped doubling and jitter (engine/httpx/retry.go, `RoundTrip`). */
module Retry {
  import opened Common

  const SECOND: int := 1_000_000_000
  const TWO_63: int := 0x8000_0000_0000_0000
  const HALF_RANGE: int := 0x4000_0000_0000_0000

  /** Two's-complement wrap-around of a 64-bit integer. */
  function Wrap(x: int): int {
    (x + TWO_63) % (2 * TWO_63) - TWO_63
  }

  // ---------- the delays ----------

  /** The delay after this one: its double at 64 bits, cut at the cap. */
  function Grown(delay: int, max: int): int {
    var doubled := Wrap(delay * 2);
    if doubled > max then max else doubled
  }

  /** The delay before retry `n`, counting from 1. */
  function Delay(base: int, max: int, n: nat): int
    requires n >= 1
  {
    if n == 1 then base else Grown(Delay(base, max, n - 1), max)
  }

  function Pow2(n: nat): nat {
    if n == 0 then 1 else 2 * Pow2(n - 1)
  }

  lemma {:induction false} Pow2Positive(n: nat)
    ensures Pow2(n) >= 1
  {
    if n > 0 {
      Pow2Positive(n - 1);
    }
  }

  lemma {:induction false} GrownSmall(d: int, max: int)
    requires 1 <= d < HALF_RANGE
    ensures Grown(d, max) == Min(2 * d, max)
  {
    assert Wrap(d * 2) == d * 2;
  }

  lemma {:induction false} DoubledScale(base: int, n: nat)
    ensures base * Pow2(n + 1) == 2 * (base * Pow2(n)) && base * Pow2(0) == base
    ensures base >= 1 ==> base * Pow2(n) >= 1
  {
    Pow2Positive(n);
    assert Pow2(n + 1) == 2 * Pow2(n);
  }

  /** The delay the code means: the base first, then the doubled base up to the cap. */
  function Meant(base: int, max: int, n: nat): int
    requires n >= 1
  {
    if n == 1 then base else Min(base * Pow2(n - 1), max)
  }

  lemma {:induction false} MeantStep(base: int, max: int, n: nat)
    requires base >= 1 && max >= 1 && n >= 1
    ensures Meant(base, max, n + 1) == Min(2 * Meant(base, max, n), max)
    ensures 1 <= Meant(base, max, n)
  {
    DoubledScale(base, n - 1);
    if n > 1 {
      DoubledScale(base, n - 2);
    }
  }

  /** Doubling wraps nowhere while all delays so far are below half the range. */
  ghost predicate SmallBefore(base: int, max: int, n: nat) {
    forall k :: 1 <= k < n ==> Meant(base, max, k) < HALF_RANGE
  }

  /** As long as no delay before it has reached half the range, delay `n` is the one meant. */
  lemma {:induction false} DelayIsMeant(base: int, max: int, n: nat)
    requires 1 <= base < TWO_63 && 1 <= max < TWO_63 && n >= 1 && SmallBefore(base, max, n)
    ensures Delay(base, max, n) == Meant(base, max, n)
  {
    if n > 1 {
      DelayIsMeant(base, max, n - 1);
      MeantStep(base, max, n - 1);
      GrownSmall(Delay(base, max, n - 1), max);
    }
  }

  /** The meant delays do not fall, except from a base above the cap to the cap. */
  lemma {:induction false} MeantGrows(base: int, max: int, k: nat, n: nat)
    requires base >= 1 && max >= 1 && 2 <= k <= n
    ensures Meant(base, max, k) <= Meant(base, max, n)
    decreases n
  {
    if k < n {
      MeantGrows(base, max, k, n - 1);
      MeantStep(base, max, n - 1);
    }
  }

  /** What a caller can check: none of the doublings up to delay `n` leaves the range. */
  predicate Unwrapped(base: int, max: int, n: nat) {
    (n >= 2 ==> base < HALF_RANGE) && (n >= 3 ==> Min(base * Pow2(n - 2), max) < HALF_RANGE)
  }

  lemma {:induction false} SmallBeforeIff(base: int, max: int, n: nat)
    requires base >= 1 && max >= 1
    ensures SmallBefore(base, max, n) <==> Unwrapped(base, max, n)
  {
    assert n >= 2 ==> Meant(base, max, 1) == base;
    if n >= 3 {
      forall k | 2 <= k < n
        ensures Meant(base, max, k) <= Meant(base, max, n - 1)
      {
        MeantGrows(base, max, k, n - 1);
      }
      assert Meant(base, max, n - 1) == Min(base * Pow2(n - 2), max);
    }
  }

  /** From half the range on, doubling wraps to a negative delay. */
  lemma {:induction false} GrownWraps(d: int, max: int)
    requires max >= 1
    ensures HALF_RANGE <= d < TWO_63 ==> Grown(d, max) < 0
  {
    assert HALF_RANGE <= d < TWO_63 ==> Wrap(d * 2) == d * 2 - 2 * TWO_63;
  }

  ghost predicate Positive(base: int, max: int, n: nat) {
    forall k :: 1 <= k <= n ==> Delay(base, max, k) >= 1
  }

  /** If the first `n` delays are positive, all before the last are below half the range. */
  lemma {:induction false} PositiveIsSmall(base: int, max: int, n: nat)
    requires 1 <= base < TWO_63 && 1 <= max < TWO_63 && n >= 1 && Positive(base, max, n)
    ensures SmallBefore(base, max, n)
  {
    if n > 1 {
      PositiveIsSmall(base, max, n - 1);
      DelayIsMeant(base, max, n - 1);
      GrownWraps(Delay(base, max, n - 1), max);
      assert Delay(base, max, n) == Grown(Delay(base, max, n - 1), max) >= 1;
    }
  }

  ghost predicate AsMeant(base: int, max: int, n: nat) {
    forall k :: 1 <= k <= n ==> Delay(base, max, k) == Meant(base, max, k)
  }

  /** The first `n` delays are base and then min(base * 2^(k-1), max), the first one even if
      the cap is lower, exactly while the doublings stay in range. */
  lemma {:induction false} DelayClosedForm(base: int, max: int, n: nat)
    requires 1 <= base < TWO_63 && 1 <= max < TWO_63
    ensures AsMeant(base, max, n) <==> Unwrapped(base, max, n)
  {
    SmallBeforeIff(base, max, n);
    if Unwrapped(base, max, n) {
      forall k | 1 <= k <= n
        ensures Delay(base, max, k) == Meant(base, max, k)
      {
        DelayIsMeant(base, max, k);
      }
    }
    if AsMeant(base, max, n) && n >= 1 {
      forall k | 1 <= k <= n
        ensures Delay(base, max, k) >= 1
      {
        MeantStep(base, max, k);
      }
      PositiveIsSmall(base, max, n);
    }
  }

  // ---------- when the delays fail ----------

  ghost predicate AtLeastTwo(base: int, max: int, n: nat) {
    forall k :: 1 <= k <= n ==> Delay(base, max, k) >= 2
  }

  /** What a caller can check: with `retries` retries the jitter never gets a delay below two. */
  predicate Usable(base: int, max: int, retries: nat) {
    && (retries >= 1 ==> base >= 2)
    && (retries >= 2 ==> max >= 2)
    && Unwrapped(base, max, retries)
  }

  /** The first `retries` delays are all usable exactly under the checkable condition. */
  lemma {:induction false} UsableIff(base: int, max: int, retries: nat)
    requires 1 <= base < TWO_63 && 1 <= max < TWO_63
    ensures AtLeastTwo(base, max, retries) <==> Usable(base, max, retries)
  {
    SmallBeforeIff(base, max, retries);
    if AtLeastTwo(base, max, retries) {
      if retries >= 1 {
        assert Positive(base, max, retries);
        PositiveIsSmall(base, max, retries);
        assert Delay(base, max, 1) == base;
      }
      if retries >= 2 {
        assert Delay(base, max, 2) <= max;
      }
    }
    if Usable(base, max, retries) {
      forall k | 1 <= k <= retries
        ensures Delay(base, max, k) >= 2
      {
        DelayIsMeant(base, max, k);
        if k >= 2 {
          MeantStep(base, max, k - 1);
        }
      }
    }
  }

  lemma {:induction false} Pow2AtLeast(n: nat)
    ensures Pow2(n) > n
  {
    if n > 0 {
      Pow2AtLeast(n - 1);
    }
  }

  /** Every delay is usable, however many retries there are. */
  ghost predicate AlwaysUsable(base: int, max: int) {
    forall n: nat {:trigger AtLeastTwo(base, max, n)} :: AtLeastTwo(base, max, n)
  }

  /** However many retries: every delay is usable if and only if base and cap are at least
      two nanoseconds and below half the range of a 64-bit integer. */
  lemma {:induction false} AlwaysUsableIff(base: int, max: int)
    requires 1 <= base < TWO_63 && 1 <= max < TWO_63
    ensures AlwaysUsable(base, max) <==> 2 <= base < HALF_RANGE && 2 <= max < HALF_RANGE
  {
    if 2 <= base < HALF_RANGE && 2 <= max < HALF_RANGE {
      forall n: nat
        ensures AtLeastTwo(base, max, n)
      {
        UsableIff(base, max, n);
      }
    }
    if AlwaysUsable(base, max) {
      var n: nat := HALF_RANGE + 2;
      assert AtLeastTwo(base, max, n);
      UsableIff(base, max, n);
      Pow2AtLeast(HALF_RANGE);
      ProductAtLeast(base, Pow2(HALF_RANGE));
    }
  }

  lemma {:induction false} ProductAtLeast(base: int, p: int)
    requires base >= 1 && p >= 0
    ensures base * p >= p
  {
  }

  // ---------- delay and jitter together ----------

  /** The numbers the jitter is drawn from. */
  predicate Drawn(jitter: int, delay: int) {
    0 <= jitter < delay / 2
  }

  /** No jitter makes the 64-bit sum of delay and jitter wrap around. */
  ghost predicate NeverWraps(delay: int) {
    forall jitter :: Drawn(jitter, delay) ==> Wrap(delay + jitter) == delay + jitter
  }

  /** The sum is safe exactly for delays below two thirds of the range. */
  lemma {:induction false} NeverWrapsIff(d: int)
    requires -TWO_63 <= d < TWO_63
    ensures NeverWraps(d) <==> 3 * d < 2 * TWO_63
    ensures 3 * d >= 2 * TWO_63 ==> Drawn(d / 2 - 1, d) && Wrap(d + (d / 2 - 1)) < 0
  {
    if 3 * d >= 2 * TWO_63 {
      assert Drawn(d / 2 - 1, d);
      assert Wrap(d + (d / 2 - 1)) == d + (d / 2 - 1) - 2 * TWO_63;
    }
  }

  /** A delay the transport can wait for with every jitter. */
  ghost predicate Sound(delay: int) {
    delay >= 2 && NeverWraps(delay)
  }

  ghost predicate AllSound(base: int, max: int, n: nat) {
    forall k :: 1 <= k <= n ==> Sound(Delay(base, max, k))
  }

  /** What a caller can check: the delays are usable and the last one leaves room for its jitter. */
  predicate Waitable(base: int, max: int, retries: nat) {
    Usable(base, max, retries) && (retries >= 1 ==> 3 * Meant(base, max, retries) < 2 * TWO_63)
  }

  /** All delays of a number of retries can be waited for with every jitter exactly under the
      checkable condition. */
  lemma {:induction false} WaitableIff(base: int, max: int, retries: nat)
    requires 1 <= base < TWO_63 && 1 <= max < TWO_63
    ensures AllSound(base, max, retries) <==> Waitable(base, max, retries)
  {
    UsableIff(base, max, retries);
    assert AllSound(base, max, retries) ==> AtLeastTwo(base, max, retries);
    if Usable(base, max, retries) && retries >= 1 {
      DelayClosedForm(base, max, retries);
      SmallBeforeIff(base, max, retries);
      MeantInRange(base, max, retries);
      NeverWrapsIff(Meant(base, max, retries));
      forall k | 1 <= k < retries
        ensures Sound(Delay(base, max, k))
      {
        NeverWrapsIff(Meant(base, max, k));
        assert Delay(base, max, k) >= 2;
      }
      assert Delay(base, max, retries) == Meant(base, max, retries) >= 2;
    }
  }

  lemma {:induction false} MeantInRange(base: int, max: int, n: nat)
    requires 1 <= base < TWO_63 && 1 <= max < TWO_63 && n >= 1
    ensures 1 <= Meant(base, max, n) < TWO_63
  {
    MeantStep(base, max, n);
  }

  ghost predicate AlwaysSound(base: int, max: int) {
    forall n: nat {:trigger AllSound(base, max, n)} :: AllSound(base, max, n)
  }

  /** However many retries: every delay can be waited for with every jitter if and only if
      base and cap are at least two nanoseconds and below half the range. */
  lemma {:induction false} AlwaysSoundIff(base: int, max: int)
    requires 1 <= base < TWO_63 && 1 <= max < TWO_63
    ensures AlwaysSound(base, max) <==> 2 <= base < HALF_RANGE && 2 <= max < HALF_RANGE
  {
    AlwaysUsableIff(base, max);
    if AlwaysUsable(base, max) {
      forall n: nat
        ensures AllSound(base, max, n)
      {
        assert AtLeastTwo(base, max, n);
        UsableIff(base, max, n);
        WaitableIff(base, max, n);
      }
    }
    if AlwaysSound(base, max) {
      forall n: nat
        ensures AtLeastTwo(base, max, n)
      {
        assert AllSound(base, max, n);
      }
    }
  }

  // ---------- the loop ----------

  /** One round trip: a network error, or a status with its parsed Retry-After (0 if none). */
  datatype Attempt = NetworkError | Response(status: int, retryAfter: int)

  predicate ShouldRetry(status: int) {
    status == 429 || status >= 500
  }

  /** What a caller wants tried again: network errors, too many requests, server errors. */
  predicate Retryable(a: Attempt) {
    match a
    case NetworkError => true
    case Response(status, _) => status == 429 || 500 <= status
  }

  /** `rand.Int63n` panics when its argument is not positive. */
  datatype Outcome = Returned(last: Attempt) | Cancelled | Panicked

  /** The wait before a retry: the delay and a jitter, unless the server asks for another one. */
  method NextWait(delay: int, random: nat, last: Attempt) returns (wait: int)
    requires delay >= 2
    ensures WaitOk(wait, delay, last)
  {
    var jitter := random % (delay / 2);
    assert Drawn(jitter, delay);
    wait := Wrap(delay + jitter);
    if last.Response? && last.retryAfter > 0 {
      wait := last.retryAfter;
    }
  }

  /** `RoundTrip`. `attempt(i)` is what the i-th round trip gives, `random(i)` an arbitrary
      number the jitter is taken from, `cancelled(i)` whether the context ends during the
      wait before attempt i. */
  method RoundTrip(idempotent: bool, maxRetries: int, baseDelay: int, maxDelay: int,
                   attempt: nat -> Attempt, random: nat -> nat, cancelled: nat -> bool)
      returns (r: Outcome, tries: nat, waits: seq<int>)
    ensures !idempotent ==> r == Returned(attempt(0)) && tries == 1 && waits == []
    ensures idempotent ==>
              LoopOk(Retries(maxRetries), BaseDelay(baseDelay), MaxDelay(maxDelay), attempt, cancelled, r, tries, waits)
  {
    var R: nat := 3;
    if maxRetries > 0 {
      R := maxRetries;
    }
    var base, max := baseDelay, maxDelay;
    if base <= 0 {
      base := SECOND;
    }
    if max <= 0 {
      max := 30 * SECOND;
    }
    waits := [];
    tries := 1;
    if !idempotent {
      return Returned(attempt(0)), 1, [];
    }
    var delay := base;
    var last := NetworkError;
    for i := 0 to R + 1
      invariant i > 0 ==> tries == i && last == attempt(i - 1)
      invariant forall j :: 0 <= j < i ==> Retryable(attempt(j))
      invariant forall j :: 1 <= j < i ==> !cancelled(j)
      invariant delay == Delay(base, max, if i == 0 then 1 else i)
      invariant |waits| == if i == 0 then 0 else i - 1
      invariant WaitsOk(base, max, waits, attempt)
    {
      if i > 0 {
        if delay / 2 <= 0 {
          return Panicked, tries, waits;
        }
        var wait := NextWait(delay, random(i), last);
        WaitsAppend(base, max, waits, wait, attempt);
        waits := waits + [wait];
        if cancelled(i) {
          return Cancelled, tries, waits;
        }
        delay := Grown(delay, max);
      }
      last := attempt(i);
      tries := i + 1;
      if last.NetworkError? {
        continue;
      }
      assert Retryable(last) == ShouldRetry(last.status);
      if !ShouldRetry(last.status) {
        return Returned(last), tries, waits;
      }
    }
    r := Returned(last);
  }

  /** The defaults: three retries, a second, half a minute. */
  function Retries(maxRetries: int): nat {
    if maxRetries <= 0 then 3 else maxRetries
  }

  function BaseDelay(baseDelay: int): int {
    if baseDelay <= 0 then SECOND else baseDelay
  }

  function MaxDelay(maxDelay: int): int {
    if maxDelay <= 0 then 30 * SECOND else maxDelay
  }

  ghost predicate WaitsOk(base: int, max: int, waits: seq<int>, attempt: nat -> Attempt) {
    forall n :: 0 <= n < |waits| ==> WaitFits(base, max, waits[n], n, attempt(n))
  }

  ghost predicate WaitFits(base: int, max: int, wait: int, n: nat, last: Attempt) {
    Delay(base, max, n + 1) >= 2 && WaitOk(wait, Delay(base, max, n + 1), last)
  }

  lemma {:induction false} WaitsAppend(base: int, max: int, waits: seq<int>, w: int, attempt: nat -> Attempt)
    requires WaitsOk(base, max, waits, attempt)
    requires WaitFits(base, max, w, |waits|, attempt(|waits|))
    ensures WaitsOk(base, max, waits + [w], attempt)
  {
  }

  /** What the loop guarantees: at most R + 1 attempts, all but the last of them retryable;
      the first attempt that is not is the one returned; each wait fits its delay; the loop
      gives up exactly at the first wait during which the context ends, and panics exactly
      at the first delay below two. */
  ghost predicate LoopOk(R: nat, base: int, max: int, attempt: nat -> Attempt, cancelled: nat -> bool,
                         r: Outcome, tries: nat, waits: seq<int>) {
    && 1 <= tries <= R + 1
    && (forall i :: 0 <= i < tries - 1 ==> Retryable(attempt(i)))
    && (forall i :: 1 <= i < tries ==> !cancelled(i))
    && WaitsOk(base, max, waits, attempt)
    && match r
       case Returned(last) =>
         && last == attempt(tries - 1) && |waits| == tries - 1
         && (tries == R + 1 || !Retryable(last))
       case Cancelled =>
         tries <= R && |waits| == tries && Retryable(attempt(tries - 1)) && cancelled(tries)
       case Panicked =>
         tries <= R && |waits| == tries - 1 && Retryable(attempt(tries - 1)) && Delay(base, max, tries) < 2
  }

  /** A wait is the server's Retry-After, or the 64-bit sum of the delay and a jitter drawn
      for it. */
  ghost predicate WaitOk(wait: int, delay: int, last: Attempt) {
    if HasRetryAfter(last) then wait == last.retryAfter
    else exists jitter :: Drawn(jitter, delay) && wait == Wrap(delay + jitter)
  }

  // ---------- all waits together ----------

  function Sum(s: seq<int>): int {
    if s == [] then 0 else Sum(s[..|s| - 1]) + s[|s| - 1]
  }

  /** Wrapped or not, a usable delay and its jitter stay below one and a half of the delay. */
  lemma {:induction false} WaitBelow(wait: int, delay: int, last: Attempt)
    requires 2 <= delay < TWO_63 && WaitOk(wait, delay, last) && !HasRetryAfter(last)
    ensures 2 * wait < 3 * delay
  {
    var jitter :| Drawn(jitter, delay) && wait == Wrap(delay + jitter);
    assert Wrap(delay + jitter) <= delay + jitter;
  }

  /** Delays that were waited for are the meant ones. */
  lemma {:induction false} WaitedIsMeant(base: int, max: int, waits: seq<int>, attempt: nat -> Attempt, n: nat)
    requires 1 <= base < TWO_63 && 1 <= max < TWO_63 && n < |waits| && WaitsOk(base, max, waits, attempt)
    ensures Delay(base, max, n + 1) == Meant(base, max, n + 1) >= 2
  {
    forall k | 1 <= k <= n + 1
      ensures Delay(base, max, k) >= 1
    {
      assert WaitFits(base, max, waits[k - 1], k - 1, attempt(k - 1));
    }
    assert Positive(base, max, n + 1);
    PositiveIsSmall(base, max, n + 1);
    DelayIsMeant(base, max, n + 1);
    assert WaitFits(base, max, waits[n], n, attempt(n));
  }

  lemma {:induction false} TotalGeometric(base: int, waits: seq<int>)
    requires forall n {:trigger waits[n]} :: 0 <= n < |waits| ==> 2 * waits[n] < 3 * (base * Pow2(n))
    ensures 2 * Sum(waits) + (if waits == [] then 0 else 1) <= 3 * (base * (Pow2(|waits|) - 1))
  {
    if waits != [] {
      var n := |waits| - 1;
      TotalGeometric(base, waits[..n]);
      var p: int := Pow2(n);
      assert base * (p - 1) + base * p == base * (2 * p - 1);
      assert 2 * waits[n] < 3 * (base * p);
    }
  }

  lemma {:induction false} TotalLinear(max: int, waits: seq<int>)
    requires forall n :: 0 <= n < |waits| ==> 2 * waits[n] < 3 * max
    ensures 2 * Sum(waits) + (if waits == [] then 0 else 1) <= 3 * (|waits| * max)
  {
    if waits != [] {
      var n := |waits| - 1;
      TotalLinear(max, waits[..n]);
      assert n * max + max == (n + 1) * max;
    }
  }

  function Max(a: int, b: int): int {
    if a < b then b else a
  }

  /** Each wait without Retry-After is below one and a half of the doubled base, and of the
      larger of base and cap. */
  lemma {:induction false} WaitBounds(base: int, max: int, waits: seq<int>, attempt: nat -> Attempt, n: nat)
    requires 1 <= base < TWO_63 && 1 <= max < TWO_63 && n < |waits| && WaitsOk(base, max, waits, attempt)
    requires !HasRetryAfter(attempt(n))
    ensures 2 * waits[n] < 3 * (base * Pow2(n)) && 2 * waits[n] < 3 * Max(base, max)
  {
    WaitedIsMeant(base, max, waits, attempt, n);
    MeantInRange(base, max, n + 1);
    DoubledScale(base, n);
    assert WaitFits(base, max, waits[n], n, attempt(n));
    WaitBelow(waits[n], Delay(base, max, n + 1), attempt(n));
  }

  /** R retries without Retry-After wait less than 3/2 * min(base * (2^R - 1), R * cap) in
      all, with the base for a cap below it. */
  lemma {:induction false} TotalWait(base: int, max: int, waits: seq<int>, attempt: nat -> Attempt)
    requires 1 <= base < TWO_63 && 1 <= max < TWO_63 && waits != []
    requires WaitsOk(base, max, waits, attempt)
    requires forall n :: 0 <= n < |waits| ==> !HasRetryAfter(attempt(n))
    ensures 2 * Sum(waits) < 3 * Min(base * (Pow2(|waits|) - 1), |waits| * Max(base, max))
  {
    forall n {:trigger waits[n]} | 0 <= n < |waits|
      ensures 2 * waits[n] < 3 * (base * Pow2(n)) && 2 * waits[n] < 3 * Max(base, max)
    {
      WaitBounds(base, max, waits, attempt, n);
    }
    TotalGeometric(base, waits);
    TotalLinear(Max(base, max), waits);
  }

  /** With delays that can be waited for, each wait without Retry-After lies between the
      meant delay and one and a half of it. */
  lemma {:induction false} WaitsAsMeant(base: int, max: int, waits: seq<int>, attempt: nat -> Attempt, n: nat)
    requires 1 <= base < TWO_63 && 1 <= max < TWO_63 && n < |waits| && WaitsOk(base, max, waits, attempt)
    requires Waitable(base, max, |waits|) && !HasRetryAfter(attempt(n))
    ensures Meant(base, max, n + 1) <= waits[n] && 2 * waits[n] < 3 * Meant(base, max, n + 1)
  {
    WaitableIff(base, max, |waits|);
    WaitedIsMeant(base, max, waits, attempt, n);
    assert WaitFits(base, max, waits[n], n, attempt(n));
    assert Sound(Delay(base, max, n + 1));
  }

  /** A retry with a usable delay and a jitter whose sum is negative: it does not wait. */
  ghost predicate FiresAtOnce(base: int, max: int, retries: nat, n: nat, jitter: int) {
    && 1 <= n <= retries
    && Drawn(jitter, Delay(base, max, n))
    && Wrap(Delay(base, max, n) + jitter) < 0
  }

  /** Among usable delays: no jitter makes a retry fire at once if and only if the caller's
      condition holds. */
  lemma {:induction false} NeverFiresAtOnceIff(base: int, max: int, retries: nat)
    requires 1 <= base < TWO_63 && 1 <= max < TWO_63 && Usable(base, max, retries)
    ensures Waitable(base, max, retries) <==>
              forall n: nat, jitter :: !FiresAtOnce(base, max, retries, n, jitter)
  {
    WaitableIff(base, max, retries);
    if !Waitable(base, max, retries) {
      DelayClosedForm(base, max, retries);
      var d := Delay(base, max, retries);
      assert d == Meant(base, max, retries);
      MeantInRange(base, max, retries);
      NeverWrapsIff(d);
      assert FiresAtOnce(base, max, retries, retries, d / 2 - 1);
    } else {
      forall n: nat, jitter | 1 <= n <= retries && Drawn(jitter, Delay(base, max, n))
        ensures Wrap(Delay(base, max, n) + jitter) >= 0
      {
        assert Sound(Delay(base, max, n));
      }
    }
  }

  predicate HasRetryAfter(a: Attempt) {
    a.Response? && a.retryAfter > 0
  }

  // ---------- what becomes of a call ----------

  /** The call settles on its own before retry `n`: an attempt that is not retried, or a
      wait during which the context ends. */
  ghost predicate StopsBefore(attempt: nat -> Attempt, cancelled: nat -> bool, n: nat) {
    (exists i :: 0 <= i < n && !Retryable(attempt(i))) || exists i :: 1 <= i < n && cancelled(i)
  }

  /** A retry that is reached with a delay below two. */
  ghost predicate PanicsAt(R: nat, base: int, max: int, attempt: nat -> Attempt, cancelled: nat -> bool, n: nat) {
    1 <= n <= R && Delay(base, max, n) < 2 && !StopsBefore(attempt, cancelled, n)
  }

  /** A call panics if and only if it reaches a retry whose delay is below two. */
  lemma {:induction false} PanicIff(R: nat, base: int, max: int, attempt: nat -> Attempt, cancelled: nat -> bool,
                                    r: Outcome, tries: nat, waits: seq<int>)
    requires LoopOk(R, base, max, attempt, cancelled, r, tries, waits)
    ensures r.Panicked? <==> exists n: nat :: PanicsAt(R, base, max, attempt, cancelled, n)
  {
    if r.Panicked? {
      assert PanicsAt(R, base, max, attempt, cancelled, tries);
    }
    if n: nat :| PanicsAt(R, base, max, attempt, cancelled, n) {
      assert !Retryable(attempt(tries - 1)) ==> n < tries;
      assert r.Cancelled? ==> n <= tries;
      assert n <= |waits| ==> WaitFits(base, max, waits[n - 1], n - 1, attempt(n - 1));
    }
  }

  /** No call panics, whatever the server, the context and the random numbers do, if and
      only if the configured delays are usable for its number of retries. */
  lemma {:induction false} NoPanicIff(R: nat, base: int, max: int)
    requires 1 <= base < TWO_63 && 1 <= max < TWO_63
    ensures Usable(base, max, R) <==>
              forall attempt, cancelled, n: nat :: !PanicsAt(R, base, max, attempt, cancelled, n)
  {
    UsableIff(base, max, R);
    if !Usable(base, max, R) {
      var n: nat :| 1 <= n <= R && Delay(base, max, n) < 2;
      var attempt, cancelled := (i: nat) => NetworkError, (i: nat) => false;
      assert PanicsAt(R, base, max, attempt, cancelled, n);
    }
  }

  /** The first attempt that is not retried is the one returned, unless the call panics or
      the context ends first. */
  lemma {:induction false} ReturnsFirst(R: nat, base: int, max: int, attempt: nat -> Attempt, cancelled: nat -> bool,
                                        r: Outcome, tries: nat, waits: seq<int>, i: nat)
    requires LoopOk(R, base, max, attempt, cancelled, r, tries, waits)
    requires i <= R && !Retryable(attempt(i)) && forall j :: 0 <= j < i ==> Retryable(attempt(j))
    requires AtLeastTwo(base, max, i) && forall j :: 1 <= j <= i ==> !cancelled(j)
    ensures r == Returned(attempt(i)) && tries == i + 1 && |waits| == i
  {
    assert tries <= i + 1;
  }
}
