/** The polling loop (engine/poll/poll.go, `PollV2`), with durations as real numbers. */
module Poll {
  // ---------- the intervals ----------

  const SECOND: real := 1_000_000_000.0

  /** The growth after each wait. */
  function Grown(cur: real, backoff: real, max: real): real {
    if backoff > 1.0 then (if cur * backoff > max then max else cur * backoff) else cur
  }

  /** The `n`-th wait, counting from 1. */
  function Wait(interval: real, backoff: real, max: real, n: nat): real
    requires n >= 1
  {
    if n == 1 then interval else Grown(Wait(interval, backoff, max, n - 1), backoff, max)
  }

  function Power(b: real, n: nat): real {
    if n == 0 then 1.0 else Power(b, n - 1) * b
  }

  function Min(a: real, b: real): real {
    if a <= b then a else b
  }

  lemma {:induction false} ScaleMin(x: real, m: real, b: real)
    requires x > 0.0 && m > 0.0 && b >= 1.0
    ensures Min(Min(x, m) * b, m) == Min(x * b, m)
  {
    if x > m {
      assert m * b >= m;
      assert x * b >= x;
    }
  }

  lemma {:induction false} PowerPositive(b: real, n: nat)
    requires b > 0.0
    ensures Power(b, n) > 0.0
  {
    if n > 0 {
      PowerPositive(b, n - 1);
    }
  }

  /** `interval * backoff^n`. */
  function Scaled(interval: real, backoff: real, n: nat): real {
    interval * Power(backoff, n)
  }

  lemma {:induction false} ScaledStep(interval: real, backoff: real, n: nat)
    requires interval > 0.0 && backoff > 0.0 && n >= 1
    ensures Scaled(interval, backoff, n) == Scaled(interval, backoff, n - 1) * backoff
    ensures Scaled(interval, backoff, n - 1) > 0.0
  {
    PowerPositive(backoff, n - 1);
    var p := Power(backoff, n - 1);
    assert interval * (p * backoff) == (interval * p) * backoff;
  }

  lemma {:induction false} GrownIsMin(x: real, backoff: real, max: real)
    requires x > 0.0 && backoff > 1.0 && max > 0.0
    ensures Grown(Min(x, max), backoff, max) == Min(x * backoff, max)
  {
    ScaleMin(x, max, backoff);
  }

  lemma {:induction false} WaitGrows(interval: real, backoff: real, max: real, n: nat)
    requires interval > 0.0 && backoff > 1.0 && max > 0.0 && n >= 1
    requires Wait(interval, backoff, max, n) == Min(Scaled(interval, backoff, n - 1), max)
    ensures Wait(interval, backoff, max, n + 1) == Min(Scaled(interval, backoff, n), max)
  {
    ScaledStep(interval, backoff, n);
    GrownIsMin(Scaled(interval, backoff, n - 1), backoff, max);
  }

  /** With growth, wait `n > 1` is min(interval * backoff^(n-1), max). */
  lemma {:induction false} GrowingWait(interval: real, backoff: real, max: real, n: nat)
    requires interval > 0.0 && backoff > 1.0 && max > 0.0 && n >= 2
    ensures Wait(interval, backoff, max, n) == Min(Scaled(interval, backoff, n - 1), max)
  {
    if n == 2 {
      assert Power(backoff, 1) == Power(backoff, 0) * backoff;
    } else {
      GrowingWait(interval, backoff, max, n - 1);
      WaitGrows(interval, backoff, max, n - 1);
    }
  }

  lemma {:induction false} FixedWait(interval: real, max: real, n: nat)
    requires n >= 1
    ensures Wait(interval, 1.0, max, n) == interval
  {
    if n > 1 {
      FixedWait(interval, max, n - 1);
    }
  }

  /** The first wait is the bare interval; later ones grow up to the cap, or stay if there
      is no growth. */
  lemma {:induction false} WaitClosedForm(interval: real, backoff: real, max: real, n: nat)
    requires interval > 0.0 && backoff >= 1.0 && max > 0.0 && n >= 1
    ensures Wait(interval, backoff, max, n)
         == if n == 1 || backoff == 1.0 then interval else Min(Scaled(interval, backoff, n - 1), max)
  {
    if n > 1 && backoff > 1.0 {
      GrowingWait(interval, backoff, max, n);
    } else {
      FixedWait(interval, max, n);
    }
  }

  /** The cap bounds wait `n` exactly when the interval is within it, or growth has set in. */
  lemma {:induction false} CappedIff(interval: real, backoff: real, max: real, n: nat)
    requires interval > 0.0 && backoff >= 1.0 && max > 0.0 && n >= 1
    ensures Wait(interval, backoff, max, n) <= max <==> interval <= max || (n >= 2 && backoff > 1.0)
  {
    WaitClosedForm(interval, backoff, max, n);
  }

  // ---------- the loop ----------

  datatype Fetch = FetchError | Finished(result: string) | Pending

  datatype Outcome = Completed(result: string) | Errored | Exceeded | Cancelled

  lemma {:induction false} WaitNext(first: real, b: real, max: real, n: nat)
    requires n >= 1
    ensures var cur := Wait(first, b, max, n);
            Wait(first, b, max, n + 1) == Grown(cur, b, max)
  {
  }

  lemma {:induction false} WaitsAppend(waits: seq<real>, first: real, b: real, max: real)
    requires WaitsAre(waits, first, b, max)
    ensures WaitsAre(waits + [Wait(first, b, max, |waits| + 1)], first, b, max)
  {
  }

  /** The growth of the interval. */
  method Grow(interval: real, b: real, max: real) returns (cur: real)
    ensures cur == Grown(interval, b, max)
  {
    cur := interval;
    if b > 1.0 {
      cur := cur * b;
      if cur > max {
        cur := max;
      }
    }
  }

  /** `PollV2`. `fetch(i)` is what the i-th fetch gives, counting from 1. The context ends at
      the latest during wait `deadline`; without it an unlimited poll need not end. */
  method PollV2(interval: real, maxAttempts: int, backoff: real, maxInterval: real,
                fetch: nat -> Fetch, deadline: nat)
      returns (r: Outcome, fetches: nat, waits: seq<real>)
    requires deadline >= 1
    ensures fetches >= 1 && (maxAttempts > 0 ==> fetches <= maxAttempts)
    ensures forall i :: 1 <= i < fetches ==> fetch(i).Pending?
    ensures match fetch(fetches)
            case FetchError => r == Errored && |waits| == fetches - 1
            case Finished(result) => r == Completed(result) && |waits| == fetches - 1
            case Pending =>
              if maxAttempts > 0 && fetches == maxAttempts then r == Exceeded && |waits| == fetches - 1
              else r == Cancelled && |waits| == fetches == deadline
    ensures WaitsAre(waits, Interval(interval), Backoff(backoff), MaxInterval(maxInterval))
  {
    var first, b, max := interval, backoff, maxInterval;
    if first <= 0.0 {
      first := 5.0 * SECOND;
    }
    if b < 1.0 {
      b := 1.0;
    }
    if max <= 0.0 {
      max := 60.0 * SECOND;
    }
    var cur := first;
    waits := [];
    var attempt: nat := 1;
    while true
      invariant 1 <= attempt <= deadline && |waits| == attempt - 1
      invariant maxAttempts > 0 ==> attempt <= maxAttempts
      invariant forall i :: 1 <= i < attempt ==> fetch(i).Pending?
      invariant cur == Wait(first, b, max, attempt)
      invariant WaitsAre(waits, first, b, max)
      decreases deadline - attempt
    {
      fetches := attempt;
      match fetch(attempt) {
        case FetchError => return Errored, fetches, waits;
        case Finished(result) => return Completed(result), fetches, waits;
        case Pending =>
      }
      if maxAttempts > 0 && attempt >= maxAttempts {
        return Exceeded, fetches, waits;
      }
      WaitsAppend(waits, first, b, max);
      waits := waits + [cur];
      if attempt == deadline {
        return Cancelled, fetches, waits;
      }
      WaitNext(first, b, max, attempt);
      cur := Grow(cur, b, max);
      attempt := attempt + 1;
    }
  }

  /** The defaults: five seconds, no growth, a minute. */
  function Interval(interval: real): real {
    if interval <= 0.0 then 5.0 * SECOND else interval
  }

  function Backoff(backoff: real): real {
    if backoff < 1.0 then 1.0 else backoff
  }

  function MaxInterval(maxInterval: real): real {
    if maxInterval <= 0.0 then 60.0 * SECOND else maxInterval
  }

  ghost predicate WaitsAre(waits: seq<real>, interval: real, backoff: real, max: real) {
    forall n :: 0 <= n < |waits| ==> IsWait(waits[n], interval, backoff, max, n + 1)
  }

  ghost predicate IsWait(w: real, interval: real, backoff: real, max: real, n: nat)
    requires n >= 1
  {
    w == Wait(interval, backoff, max, n)
  }
}
