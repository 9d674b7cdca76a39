/** The goroutines and the channel of `SearchMulti` (material/multi.go): one sender per
    backend, a closer that waits for all of them, and the collecting loop. */
module FanOut {
  import opened Common
  import opened MultiSearch

  // ---------- states and steps ----------

  datatype Stage = Searching | Delivered | Finished

  datatype State = State(stages: seq<Stage>, channel: seq<nat>, collected: seq<nat>, closed: bool, over: bool)

  function Start(n: nat): State {
    State(seq(n, _ => Searching), [], [], false, false)
  }

  datatype Step =
    | Send(i: nat)
    | Done(i: nat)
    | Close
    | Receive
    | End

  predicate AllFinished(s: State) {
    forall i :: 0 <= i < |s.stages| ==> s.stages[i] == Finished
  }

  /** Whether a step can be taken; the channel's buffer has one place per backend. */
  predicate Enabled(s: State, step: Step) {
    match step
    case Send(i) => i < |s.stages| && s.stages[i] == Searching && |s.channel| < |s.stages|
    case Done(i) => i < |s.stages| && s.stages[i] == Delivered
    case Close => AllFinished(s) && !s.closed
    case Receive => s.channel != [] && !s.over
    case End => s.channel == [] && s.closed && !s.over
  }

  function Do(s: State, step: Step): State
    requires Enabled(s, step)
  {
    match step
    case Send(i) => s.(stages := s.stages[i := Delivered], channel := s.channel + [i])
    case Done(i) => s.(stages := s.stages[i := Finished])
    case Close => s.(closed := true)
    case Receive => s.(channel := s.channel[1..], collected := s.collected + [s.channel[0]])
    case End => s.(over := true)
  }

  /** `steps` can be taken one after the other from the start. */
  ghost predicate Runs(n: nat, steps: seq<Step>)
    decreases |steps|, 0
  {
    steps == [] || (Runs(n, steps[..|steps| - 1]) && Enabled(Reached(n, steps[..|steps| - 1]), steps[|steps| - 1]))
  }

  ghost function Reached(n: nat, steps: seq<Step>): State
    requires Runs(n, steps)
    decreases |steps|, 1
  {
    if steps == [] then Start(n) else Do(Reached(n, steps[..|steps| - 1]), steps[|steps| - 1])
  }

  // ---------- the invariant ----------

  /** What was sent is in the channel or collected, exactly once; the channel is closed
      only after every sender is done. */
  ghost predicate Inv(s: State) {
    && Distinct(s.collected + s.channel)
    && (forall i: nat :: i in s.collected + s.channel <==> i < |s.stages| && s.stages[i] != Searching)
    && (s.closed ==> AllFinished(s))
    && (s.over ==> s.closed && s.channel == [])
  }

  lemma {:induction false} StepKeeps(s: State, step: Step)
    requires Inv(s) && Enabled(s, step)
    ensures Inv(Do(s, step)) && |Do(s, step).stages| == |s.stages|
  {
    match step {
      case Send(i) =>
        assert s.collected + (s.channel + [i]) == (s.collected + s.channel) + [i];
      case Receive =>
        assert s.channel == [s.channel[0]] + s.channel[1..];
        assert (s.collected + [s.channel[0]]) + s.channel[1..] == s.collected + s.channel;
      case _ =>
    }
  }

  lemma {:induction false} ReachedInv(n: nat, steps: seq<Step>)
    requires Runs(n, steps)
    ensures Inv(Reached(n, steps)) && |Reached(n, steps).stages| == n
  {
    if steps != [] {
      ReachedInv(n, steps[..|steps| - 1]);
      StepKeeps(Reached(n, steps[..|steps| - 1]), steps[|steps| - 1]);
    }
  }

  // ---------- no deadlock, no endless run ----------

  function Members(s: seq<nat>): set<nat> {
    set k | k in s
  }

  function Below(n: nat): (r: set<nat>)
    ensures |r| == n && forall k: nat :: k in r <==> k < n
  {
    if n == 0 then {} else Below(n - 1) + {n - 1}
  }

  lemma {:induction false} MembersOfDistinct(s: seq<nat>)
    requires Distinct(s)
    ensures |Members(s)| == |s|
  {
    if s != [] {
      var front, last := s[..|s| - 1], s[|s| - 1];
      MembersOfDistinct(front);
      assert s == front + [last];
      assert Members(s) == Members(front) + {last};
    }
  }

  /** Distinct numbers below a bound are at most that many. */
  lemma {:induction false} DistinctBounded(s: seq<nat>, n: nat)
    requires Distinct(s) && forall i :: 0 <= i < |s| ==> s[i] < n
    ensures |s| <= n
  {
    MembersOfDistinct(s);
    var mine, all := Members(s), Below(n);
    assert mine <= all;
    assert all == mine + (all - mine);
  }

  /** A sender never finds the buffer full. */
  lemma {:induction false} SendNeverBlocks(s: State, i: nat)
    requires Inv(s) && i < |s.stages| && s.stages[i] == Searching
    ensures Enabled(s, Send(i))
  {
    var sent := s.collected + s.channel;
    assert i !in sent;
    var more := sent + [i];
    forall k | 0 <= k < |more|
      ensures more[k] < |s.stages|
    {
      assert k < |sent| ==> sent[k] in sent;
    }
    DistinctBounded(more, |s.stages|);
  }

  /** Until the merge is over some step can be taken. */
  lemma {:induction false} NoDeadlock(s: State)
    requires Inv(s) && !s.over
    ensures exists step :: Enabled(s, step)
  {
    if i :| 0 <= i < |s.stages| && s.stages[i] == Searching {
      SendNeverBlocks(s, i);
    } else if i :| 0 <= i < |s.stages| && s.stages[i] == Delivered {
      assert Enabled(s, Done(i));
    } else if s.channel != [] {
      assert Enabled(s, Receive);
    } else if s.closed {
      assert Enabled(s, End);
    } else {
      assert Enabled(s, Close);
    }
  }

  function Weight(stages: seq<Stage>): nat {
    if stages == [] then 0
    else Weight(stages[..|stages| - 1])
         + match stages[|stages| - 1] case Searching => 3 case Delivered => 1 case Finished => 0
  }

  function Measure(s: State): nat {
    Weight(s.stages) + |s.channel| + (if s.closed then 0 else 1) + (if s.over then 0 else 1)
  }

  lemma {:induction false} WeightUpdate(stages: seq<Stage>, i: nat, to: Stage)
    requires i < |stages|
    requires (stages[i] == Searching && to == Delivered) || (stages[i] == Delivered && to == Finished)
    ensures Weight(stages[i := to]) == Weight(stages) - (if to == Delivered then 2 else 1)
  {
    var n := |stages| - 1;
    var t := stages[i := to];
    if i < n {
      WeightUpdate(stages[..n], i, to);
      assert t[..n] == stages[..n][i := to];
    } else {
      assert t[..n] == stages[..n];
    }
  }

  /** Every step makes progress, so a run of n backends takes at most 3n + 2 steps. */
  lemma {:induction false} StepProgresses(s: State, step: Step)
    requires Enabled(s, step)
    ensures Measure(Do(s, step)) < Measure(s)
  {
    match step {
      case Send(i) => WeightUpdate(s.stages, i, Delivered);
      case Done(i) => WeightUpdate(s.stages, i, Finished);
      case _ =>
    }
  }

  lemma {:induction false} StartWeight(n: nat)
    ensures Weight(seq(n, _ => Searching)) == 3 * n
  {
    if n > 0 {
      StartWeight(n - 1);
      var s := seq(n, _ => Searching);
      assert s[..n - 1] == seq(n - 1, _ => Searching);
    }
  }

  lemma {:induction false} RunsAreShort(n: nat, steps: seq<Step>)
    requires Runs(n, steps)
    ensures |steps| + Measure(Reached(n, steps)) <= 3 * n + 2
  {
    if steps == [] {
      StartWeight(n);
    } else {
      RunsAreShort(n, steps[..|steps| - 1]);
      StepProgresses(Reached(n, steps[..|steps| - 1]), steps[|steps| - 1]);
    }
  }

  // ---------- every backend is consumed exactly once ----------

  ghost predicate Permutes(order: seq<nat>, n: nat) {
    Distinct(order) && forall i: nat :: i in order <==> i < n
  }

  predicate InBounds(order: seq<nat>, n: nat) {
    forall k :: 0 <= k < |order| ==> order[k] < n
  }

  /** What the collecting loop saw, in order. */
  function Arrivals(outcomes: seq<Sent>, order: seq<nat>): seq<Sent>
    requires InBounds(order, |outcomes|)
  {
    seq(|order|, k requires 0 <= k < |order| => outcomes[order[k]])
  }

  lemma {:induction false} PermutationInBounds(order: seq<nat>, n: nat)
    requires Permutes(order, n)
    ensures InBounds(order, n)
  {
    forall k | 0 <= k < |order|
      ensures order[k] < n
    {
      assert order[k] in order;
    }
  }

  lemma {:induction false} PermutationRest(order: seq<nat>, n: nat, j: nat)
    requires Permutes(order, n + 1) && j < |order| && order[j] == n
    ensures Permutes(order[..j] + order[j + 1..], n)
  {
    var rest := order[..j] + order[j + 1..];
    forall i: nat
      ensures i in rest <==> i < n
    {
      RestMembers(order, j, i);
    }
  }

  lemma {:induction false} ArrivalsRest(outcomes: seq<Sent>, order: seq<nat>, j: nat)
    requires outcomes != [] && j < |order| && order[j] == |outcomes| - 1
    requires InBounds(order, |outcomes|) && InBounds(order[..j] + order[j + 1..], |outcomes| - 1)
    ensures multiset(Arrivals(outcomes, order))
         == multiset(Arrivals(outcomes[..|outcomes| - 1], order[..j] + order[j + 1..]))
            + multiset{outcomes[|outcomes| - 1]}
  {
    var a := Arrivals(outcomes, order);
    assert Arrivals(outcomes[..|outcomes| - 1], order[..j] + order[j + 1..]) == a[..j] + a[j + 1..];
    assert a == a[..j] + [a[j]] + a[j + 1..];
  }

  lemma {:induction false} PermutationBag(outcomes: seq<Sent>, order: seq<nat>)
    requires Permutes(order, |outcomes|) && InBounds(order, |outcomes|)
    ensures multiset(Arrivals(outcomes, order)) == multiset(outcomes)
    decreases |outcomes|
  {
    if outcomes != [] {
      var n := |outcomes| - 1;
      assert n in order;
      var j :| 0 <= j < |order| && order[j] == n;
      var rest := order[..j] + order[j + 1..];
      PermutationRest(order, n, j);
      PermutationInBounds(rest, n);
      ArrivalsRest(outcomes, order, j);
      PermutationBag(outcomes[..n], rest);
      assert outcomes == outcomes[..n] + [outcomes[n]];
    }
  }

  lemma {:induction false} RestMembers(order: seq<nat>, j: nat, i: nat)
    requires j < |order| && Distinct(order)
    ensures i in order[..j] + order[j + 1..] <==> i in order && i != order[j]
  {
    if i in order && i != order[j] {
      var k :| 0 <= k < |order| && order[k] == i;
      if k < j {
        assert order[..j][k] == i;
      } else {
        assert order[j + 1..][k - j - 1] == i;
      }
    }
  }

  /** Whatever order the goroutines finish in, when the merge is over every backend's
      outcome was consumed exactly once; so items (as a bag), total and errors are those of
      the backends taken in their own order, and with agreeing cursors so is the next state. */
  lemma {:induction false} EachConsumedOnce(outcomes: seq<Sent>, steps: seq<Step>)
    requires Runs(|outcomes|, steps) && Reached(|outcomes|, steps).over
    ensures var order := Reached(|outcomes|, steps).collected;
            && InBounds(order, |outcomes|)
            && var arrivals := Arrivals(outcomes, order);
               && multiset(arrivals) == multiset(outcomes)
               && multiset(Items(arrivals)) == multiset(Items(outcomes))
               && Total(arrivals) == Total(outcomes)
               && multiset(Errors(arrivals)) == multiset(Errors(outcomes))
               && (CursorsAgree(outcomes) ==> NextState(arrivals) == NextState(outcomes))
  {
    ReachedInv(|outcomes|, steps);
    var s := Reached(|outcomes|, steps);
    assert s.collected + s.channel == s.collected;
    PermutationInBounds(s.collected, |outcomes|);
    PermutationBag(outcomes, s.collected);
    var arrivals := Arrivals(outcomes, s.collected);
    OrderDoesNotMatter(arrivals, outcomes);
    if CursorsAgree(outcomes) {
      SameNextState(outcomes, arrivals);
    }
  }
}
