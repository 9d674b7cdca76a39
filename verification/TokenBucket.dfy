/** The token bucket of the search backends (material/ratelimit.go). Time is counted in the
    ticks the filling goroutine receives. */
module TokenBucket {
  import opened Common

  /** A tick arrives, or a waiting caller takes a token. A caller that waits or gives up
      changes nothing. */
  datatype Event = Tick | Take

  function Capacity(rpm: int): (n: nat)
    ensures n >= 1 && (rpm > 0 ==> n == rpm)
  {
    if rpm <= 0 then 60 else rpm
  }

  /** A token is only taken when there is one. */
  ghost predicate Enabled(tokens: nat, e: Event) {
    e.Take? ==> tokens > 0
  }

  ghost function After(max: nat, tokens: nat, e: Event): nat
    requires Enabled(tokens, e)
  {
    match e
    case Tick => if tokens < max then tokens + 1 else tokens
    case Take => tokens - 1
  }

  ghost predicate Possible(max: nat, tokens: nat, run: seq<Event>)
    decreases |run|
  {
    run == [] || (Enabled(tokens, run[0]) && Possible(max, After(max, tokens, run[0]), run[1..]))
  }

  ghost function Left(max: nat, tokens: nat, run: seq<Event>): nat
    requires Possible(max, tokens, run)
    decreases |run|
  {
    if run == [] then tokens else Left(max, After(max, tokens, run[0]), run[1..])
  }

  function Count(run: seq<Event>, e: Event): nat {
    if run == [] then 0 else (if run[0] == e then 1 else 0) + Count(run[1..], e)
  }

  /** The bucket: a buffered channel of `max` tokens. */
  class RateLimiter {
    const max: nat
    var tokens: nat

    ghost predicate Valid()
      reads this
    {
      max >= 1 && tokens <= max
    }

    /** `NewRateLimiter`: one token is there from the start. */
    constructor (rpm: int)
      ensures Valid() && max == Capacity(rpm) && tokens == 1
    {
      max := if rpm <= 0 then 60 else rpm;
      tokens := 1;
    }

    /** One round of the filling goroutine: a tick on a full channel is dropped. */
    method Fill()
      requires Valid()
      modifies this
      ensures Valid() && tokens == After(max, old(tokens), Tick)
    {
      if tokens < max {
        tokens := tokens + 1;
      }
    }

    /** `Wait`, when its `select` looks: `cancelled` says that the context's case is taken. A
        caller that finds no token and is not cancelled stays blocked. */
    method Wait(cancelled: bool) returns (granted: bool)
      requires Valid()
      modifies this
      ensures Valid()
      ensures granted ==> old(tokens) > 0 && tokens == After(max, old(tokens), Take)
      ensures !granted ==> tokens == old(tokens) && (tokens == 0 || cancelled)
    {
      granted := tokens > 0 && !cancelled;
      if granted {
        tokens := tokens - 1;
      }
    }
  }

  /** Tokens are conserved up to the dropped ticks, and never more than the capacity is held. */
  lemma {:induction false} TokensAccounted(max: nat, tokens: nat, run: seq<Event>)
    requires tokens <= max && Possible(max, tokens, run)
    ensures Left(max, tokens, run) <= max
    ensures Count(run, Take) + Left(max, tokens, run) <= tokens + Count(run, Tick)
    ensures tokens + Count(run, Tick) <= max ==>
              Count(run, Take) + Left(max, tokens, run) == tokens + Count(run, Tick)
    decreases |run|
  {
    if run != [] {
      TokensAccounted(max, After(max, tokens, run[0]), run[1..]);
    }
  }

  // ---------- the largest burst ----------

  /** Every token is taken at once, and then each new one as it comes. */
  function Greedy(tokens: nat, ticks: nat): seq<Event>
    decreases tokens + 2 * ticks
  {
    if tokens > 0 then [Take] + Greedy(tokens - 1, ticks)
    else if ticks > 0 then [Tick] + Greedy(1, ticks - 1)
    else []
  }

  lemma {:induction false} GreedyTakesAll(max: nat, tokens: nat, ticks: nat)
    requires 1 <= max && tokens <= max
    ensures Possible(max, tokens, Greedy(tokens, ticks))
    ensures Count(Greedy(tokens, ticks), Tick) == ticks
    ensures Count(Greedy(tokens, ticks), Take) == tokens + ticks
    decreases tokens + 2 * ticks
  {
    var run := Greedy(tokens, ticks);
    if tokens > 0 {
      GreedyTakesAll(max, tokens - 1, ticks);
      assert run[1..] == Greedy(tokens - 1, ticks);
    } else if ticks > 0 {
      GreedyTakesAll(max, 1, ticks - 1);
      assert run[1..] == Greedy(1, ticks - 1);
    }
  }

  /** Some run with these ticks grants `n` requests or more. */
  ghost predicate CanGrant(max: nat, tokens: nat, ticks: nat, n: nat) {
    exists run :: Possible(max, tokens, run) && Count(run, Tick) == ticks && Count(run, Take) >= n
  }

  /** From any state, the most that a stretch of `ticks` ticks can grant is exactly the tokens
      held at its start plus the ticks. */
  lemma {:induction false} MostGranted(max: nat, tokens: nat, ticks: nat, n: nat)
    requires 1 <= max && tokens <= max
    ensures CanGrant(max, tokens, ticks, n) <==> n <= tokens + ticks
  {
    if CanGrant(max, tokens, ticks, n) {
      var run :| Possible(max, tokens, run) && Count(run, Tick) == ticks && Count(run, Take) >= n;
      TokensAccounted(max, tokens, run);
    }
    if n <= tokens + ticks {
      GreedyTakesAll(max, tokens, ticks);
    }
  }

  /** A minute has `max` ticks. More than `max` requests can go through in it exactly when it
      starts with a token in the bucket; after an idle time that is up to twice the limit. */
  lemma {:induction false} MinuteOverLimitIff(max: nat, tokens: nat)
    requires 1 <= max && tokens <= max
    ensures CanGrant(max, tokens, max, max + 1) <==> tokens > 0
    ensures CanGrant(max, max, max, 2 * max)
  {
    MostGranted(max, tokens, max, max + 1);
    MostGranted(max, max, max, 2 * max);
  }
}
