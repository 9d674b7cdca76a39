/** The sliding-window limiter with several callers (engine/embed/ratelimit.go, `Wait`): the
    lock is released while a caller sleeps, and a caller that wakes up does not look again.
    The clock advances between a grant and any later reading. */
module OverlappingWaits {
  import opened Common
  import opened SlidingWindow

  // ---------- states and steps ----------

  /** A sleeping caller: how many timestamps its pruning left, how many grants had been given
      when it entered, and when it wakes up at the earliest. */
  datatype Sleeper = Sleeper(kept: nat, seen: nat, until: int)

  datatype World = World(timestamps: seq<int>, grants: seq<int>, sleepers: map<nat, Sleeper>, now: int)

  /** A caller enters, with a second clock reading in case it need not sleep; a caller wakes
      up; the context of a sleeping caller ends. */
  datatype Step = Enter(caller: nat, at: int, granted: int) | Wake(caller: nat, at: int) | Cancel(caller: nat)

  /** The clock does not run back, and has moved on since the last grant. */
  predicate Ticks(w: World, at: int) {
    w.now <= at && (w.grants != [] ==> w.grants[|w.grants| - 1] < at)
  }

  function Kept(w: World, at: int): seq<int> {
    Pruned(w.timestamps, at - MINUTE)
  }

  function Granted(w: World, timestamps: seq<int>, at: int): World {
    w.(timestamps := timestamps + [at], grants := w.grants + [at], now := at)
  }

  /** One step; one that is not possible changes nothing. */
  function Do(max: nat, w: World, step: Step): World
    requires max >= 1
  {
    match step
    case Enter(c, at, granted) =>
      if c in w.sleepers || !Ticks(w, at) || granted < at then w
      else
        var kept := Kept(w, at);
        var sleep := Sleep(kept, at, max);
        if sleep == 0 then Granted(w, kept, granted)
        else w.(timestamps := kept, now := at, sleepers := w.sleepers[c := Sleeper(|kept|, |w.grants|, at + sleep)])
    case Wake(c, at) =>
      if c !in w.sleepers || at < w.sleepers[c].until || !Ticks(w, at) then w
      else Granted(w.(sleepers := w.sleepers - {c}), w.timestamps, at)
    case Cancel(c) => w.(sleepers := w.sleepers - {c})
  }

  function Run(max: nat, start: int, steps: seq<Step>): World
    requires max >= 1
  {
    if steps == [] then World([], [], map[], start)
    else Do(max, Run(max, start, steps[..|steps| - 1]), steps[|steps| - 1])
  }

  // ---------- the invariant ----------

  ghost predicate Increasing(grants: seq<int>) {
    forall i, j :: 0 <= i < j < |grants| ==> grants[i] < grants[j]
  }

  /** A sleeper wakes up a minute after the first timestamp it kept. */
  ghost predicate SleeperOk(z: Sleeper, grants: seq<int>, max: nat) {
    1 <= max <= z.kept <= z.seen <= |grants| && z.until == grants[z.seen - z.kept] + MINUTE
  }

  ghost predicate Inv(max: nat, w: World) {
    && max >= 1
    && Increasing(w.grants) && AtMost(w.grants, w.now)
    && SuffixOf(w.timestamps, w.grants)
    && RestBefore(w.timestamps, w.grants, w.now - MINUTE)
    && forall c :: c in w.sleepers ==> SleeperOk(w.sleepers[c], w.grants, max)
  }

  lemma {:induction false} KeptFacts(max: nat, w: World, at: int)
    requires Inv(max, w) && w.now <= at
    ensures SuffixOf(Kept(w, at), w.grants) && RestBefore(Kept(w, at), w.grants, at - MINUTE)
    ensures Kept(w, at) != [] ==> Kept(w, at)[0] == w.grants[|w.grants| - |Kept(w, at)|] >= at - MINUTE
  {
    PrunedSuffix(w.timestamps, at - MINUTE);
    SuffixTransitive(Kept(w, at), w.timestamps, w.grants, w.now - MINUTE, at - MINUTE);
  }

  lemma {:induction false} GrantedKeeps(max: nat, w: World, kept: seq<int>, at: int, t: int)
    requires Inv(max, w) && Ticks(w, at) && at <= t
    requires SuffixOf(kept, w.grants) && RestBefore(kept, w.grants, at - MINUTE)
    ensures Inv(max, Granted(w, kept, t))
  {
    AppendedSuffix(kept, w.grants, t);
    var g := w.grants + [t];
    assert forall i :: 0 <= i < |w.grants| ==> g[i] == w.grants[i] <= w.grants[|w.grants| - 1];
  }

  lemma {:induction false} EnterKeeps(max: nat, w: World, c: nat, at: int, granted: int)
    requires Inv(max, w) && c !in w.sleepers && Ticks(w, at) && at <= granted
    ensures Inv(max, Do(max, w, Enter(c, at, granted)))
  {
    KeptFacts(max, w, at);
    var kept := Kept(w, at);
    if Sleep(kept, at, max) == 0 {
      GrantedKeeps(max, w, kept, at, granted);
    } else {
      assert SleeperOk(Sleeper(|kept|, |w.grants|, at + Sleep(kept, at, max)), w.grants, max);
    }
  }

  lemma {:induction false} WakeKeeps(max: nat, w: World, c: nat, at: int)
    requires Inv(max, w) && c in w.sleepers && w.sleepers[c].until <= at && Ticks(w, at)
    ensures Inv(max, Do(max, w, Wake(c, at)))
  {
    GrantedKeeps(max, w.(sleepers := w.sleepers - {c}), w.timestamps, at, at);
  }

  lemma {:induction false} StepKeeps(max: nat, w: World, step: Step)
    requires Inv(max, w)
    ensures Inv(max, Do(max, w, step))
  {
    match step {
      case Enter(c, at, granted) =>
        if c !in w.sleepers && Ticks(w, at) && at <= granted {
          EnterKeeps(max, w, c, at, granted);
        }
      case Wake(c, at) =>
        if c in w.sleepers && w.sleepers[c].until <= at && Ticks(w, at) {
          WakeKeeps(max, w, c, at);
        }
      case Cancel(c) =>
    }
  }

  lemma {:induction false} RunKeeps(max: nat, start: int, steps: seq<Step>)
    requires max >= 1
    ensures Inv(max, Run(max, start, steps))
  {
    if steps != [] {
      RunKeeps(max, start, steps[..|steps| - 1]);
      StepKeeps(max, Run(max, start, steps[..|steps| - 1]), steps[|steps| - 1]);
    }
  }

  // ---------- when a grant keeps the window ----------

  /** At most `max` timestamps are younger than the oldest one the sleeper kept: those it kept
      and those granted while it slept. */
  predicate Alone(max: nat, w: World, c: nat)
    requires c in w.sleepers
  {
    w.sleepers[c].kept + |w.grants| - w.sleepers[c].seen <= max
  }

  /** The earliest wake-up of a sleeper keeps the window if and only if exactly `max`
      timestamps were left when it entered and nobody was granted while it slept. */
  lemma {:induction false} EarliestWakeIff(max: nat, w: World, c: nat)
    requires Inv(max, w) && Spaced(w.grants, max) && c in w.sleepers
    ensures var z := w.sleepers[c];
            && (Spaced(w.grants + [z.until], max) <==> Alone(max, w, c))
            && (Alone(max, w, c) <==> z.kept == max && |w.grants| == z.seen)
  {
    var z := w.sleepers[c];
    SpacedAppend(w.grants, z.until, max);
    assert SleeperOk(z, w.grants, max);
  }

  /** Waking up later does no harm to a sleeper that was alone. */
  lemma {:induction false} LateWake(max: nat, w: World, c: nat, at: int)
    requires Inv(max, w) && Spaced(w.grants, max) && c in w.sleepers && w.sleepers[c].until <= at
    ensures Alone(max, w, c) ==> Spaced(w.grants + [at], max)
  {
    SpacedAppend(w.grants, at, max);
    assert SleeperOk(w.sleepers[c], w.grants, max);
  }

  /** A caller that need not sleep keeps the window if at most `max` timestamps are left, and
      a grant at the very time it enters keeps it only then. */
  lemma {:induction false} AwakeIff(max: nat, w: World, at: int, t: int)
    requires Inv(max, w) && Spaced(w.grants, max) && w.now <= at <= t
    requires Sleep(Kept(w, at), at, max) == 0
    ensures |Kept(w, at)| <= max ==> Spaced(w.grants + [t], max)
    ensures t == at ==> (Spaced(w.grants + [t], max) <==> |Kept(w, at)| <= max)
  {
    KeptFacts(max, w, at);
    SpacedAppend(w.grants, t, max);
    var n, k := |w.grants|, |Kept(w, at)|;
    assert k >= max ==> w.grants[n - k] == at - MINUTE;
    assert k < max <= n ==> w.grants[n - max] < at - MINUTE;
  }

  // ---------- whole runs ----------

  /** The step grants nothing, or grants as a caller would that overlaps with nobody. */
  predicate Fits(max: nat, w: World, step: Step)
    requires max >= 1
  {
    Do(max, w, step).grants == w.grants
    || match step
       case Enter(_, at, _) => |Kept(w, at)| <= max
       case Wake(c, _) => c in w.sleepers ==> Alone(max, w, c)
       case Cancel(_) => true
  }

  /** A sleeper that is granted would not have to sleep again if it looked again. */
  predicate LooksAgain(max: nat, w: World, step: Step)
    requires max >= 1
  {
    match step
    case Wake(_, at) => Do(max, w, step) != w ==> Sleep(Kept(w, at), at, max) == 0
    case _ => true
  }

  ghost predicate AllFit(max: nat, start: int, steps: seq<Step>)
    requires max >= 1
  {
    steps == [] || (AllFit(max, start, steps[..|steps| - 1])
                    && Fits(max, Run(max, start, steps[..|steps| - 1]), steps[|steps| - 1]))
  }

  ghost predicate AllLookAgain(max: nat, start: int, steps: seq<Step>)
    requires max >= 1
  {
    steps == [] || (AllLookAgain(max, start, steps[..|steps| - 1])
                    && LooksAgain(max, Run(max, start, steps[..|steps| - 1]), steps[|steps| - 1]))
  }

  /** While the window holds, on a clock past the last grant at most `max` timestamps are left. */
  lemma {:induction false} KeptAtMostMax(max: nat, w: World, at: int)
    requires Inv(max, w) && Spaced(w.grants, max) && Ticks(w, at)
    ensures |Kept(w, at)| <= max
  {
    KeptFacts(max, w, at);
    var n, k := |w.grants|, |Kept(w, at)|;
    if n > max {
      assert w.grants[n - 1] - w.grants[n - 1 - max] >= MINUTE;
      assert w.grants[n - 1 - max] < at - MINUTE;
      assert k > 0 ==> w.grants[n - k] >= at - MINUTE;
    }
  }

  /** A grant on such a clock keeps the window exactly if a caller that looked just then would
      not have to sleep. */
  lemma {:induction false} LookIff(max: nat, w: World, at: int)
    requires Inv(max, w) && Spaced(w.grants, max) && Ticks(w, at)
    ensures Spaced(w.grants + [at], max) <==> Sleep(Kept(w, at), at, max) == 0
  {
    KeptFacts(max, w, at);
    KeptAtMostMax(max, w, at);
    SpacedAppend(w.grants, at, max);
    var n, k := |w.grants|, |Kept(w, at)|;
    assert k == max ==> Kept(w, at)[0] == w.grants[n - max];
    assert k < max <= n ==> w.grants[n - max] < at - MINUTE;
  }

  lemma {:induction false} PrefixSpaced(g: seq<int>, t: int, max: nat)
    requires max >= 1 && Spaced(g + [t], max)
    ensures Spaced(g, max)
  {
    forall i, j | 0 <= i < |g| && j == i + max && j < |g|
      ensures g[j] - g[i] >= MINUTE
    {
      assert (g + [t])[i] == g[i] && (g + [t])[j] == g[j];
    }
  }

  /** One step and the window. */
  lemma {:induction false} StepWindow(max: nat, w: World, step: Step)
    requires Inv(max, w)
    ensures Spaced(Do(max, w, step).grants, max) <==> Spaced(w.grants, max) && LooksAgain(max, w, step)
    ensures Spaced(w.grants, max) && Fits(max, w, step) ==> Spaced(Do(max, w, step).grants, max)
  {
    var w' := Do(max, w, step);
    if w'.grants != w.grants {
      var t := w'.grants[|w.grants|];
      assert w'.grants == w.grants + [t];
      if Spaced(w'.grants, max) {
        PrefixSpaced(w.grants, t, max);
      }
      if Spaced(w.grants, max) {
        match step {
          case Enter(c, at, granted) =>
            KeptAtMostMax(max, w, at);
            AwakeIff(max, w, at, granted);
          case Wake(c, at) =>
            LookIff(max, w, at);
            LateWake(max, w, c, at);
          case Cancel(_) =>
        }
      }
    }
  }

  /** Over any run, with any sleeps and cancellations: if every grant fits, any `max + 1`
      consecutive grants span at least a minute. */
  lemma {:induction false} WindowIfAllFit(max: nat, start: int, steps: seq<Step>)
    requires max >= 1 && AllFit(max, start, steps)
    ensures Spaced(Run(max, start, steps).grants, max)
  {
    if steps != [] {
      var front := steps[..|steps| - 1];
      WindowIfAllFit(max, start, front);
      RunKeeps(max, start, front);
      StepWindow(max, Run(max, start, front), steps[|steps| - 1]);
    }
  }

  /** Over any run, with any sleeps and cancellations: any `max + 1` consecutive grants span at
      least a minute if and only if no sleeper that is granted would have had to sleep again,
      had it looked again. The code never does. */
  lemma {:induction false} WindowIff(max: nat, start: int, steps: seq<Step>)
    requires max >= 1
    ensures Spaced(Run(max, start, steps).grants, max) <==> AllLookAgain(max, start, steps)
  {
    if steps != [] {
      var front := steps[..|steps| - 1];
      WindowIff(max, start, front);
      RunKeeps(max, start, front);
      StepWindow(max, Run(max, start, front), steps[|steps| - 1]);
    }
  }

  // ---------- two sleepers ----------

  /** With `max == 1`: a grant at 0, two callers that find it at 1 and at 2, and both wake up. */
  const TWO_SLEEPERS: seq<Step> := [
    Enter(0, 0, 0), Enter(1, 1, 1), Enter(2, 2, 2), Wake(1, MINUTE), Wake(2, MINUTE + 1)
  ]

  const ONE_SLEEPS: Sleeper := Sleeper(1, 1, MINUTE)

  const FIRST: World := World([0], [0], map[], 0)
  const SECOND: World := FIRST.(now := 1, sleepers := map[1 := ONE_SLEEPS])
  const THIRD: World := FIRST.(now := 2, sleepers := map[1 := ONE_SLEEPS, 2 := ONE_SLEEPS])
  const FOURTH: World := World([0, MINUTE], [0, MINUTE], map[2 := ONE_SLEEPS], MINUTE)

  lemma {:induction false} FirstEnters()
    ensures Do(1, World([], [], map[], 0), Enter(0, 0, 0)) == FIRST
  {
    assert Kept(World([], [], map[], 0), 0) == [];
  }

  /** The grant at 0 is still in the window at 1 and at 2. */
  lemma {:induction false} ZeroIsKept(w: World, at: int)
    requires w.timestamps == [0] && 0 <= at < MINUTE
    ensures Kept(w, at) == [0] && Sleep([0], at, 1) == MINUTE - at
  {
  }

  lemma {:induction false} SecondEnters()
    ensures Do(1, FIRST, Enter(1, 1, 1)) == SECOND
  {
    ZeroIsKept(FIRST, 1);
  }

  lemma {:induction false} ThirdEnters()
    ensures Do(1, SECOND, Enter(2, 2, 2)) == THIRD
  {
    ZeroIsKept(SECOND, 2);
  }

  lemma {:induction false} SecondWakes()
    ensures Do(1, THIRD, Wake(1, MINUTE)) == FOURTH
  {
    assert THIRD.sleepers - {1} == FOURTH.sleepers;
  }

  lemma {:induction false} ThirdWakes()
    ensures Do(1, FOURTH, Wake(2, MINUTE + 1)).grants == [0, MINUTE, MINUTE + 1]
  {
    assert FOURTH.grants + [MINUTE + 1] == [0, MINUTE, MINUTE + 1];
  }

  lemma {:induction false} TwoSleepersRun()
    ensures Run(1, 0, TWO_SLEEPERS[..4]) == FOURTH
  {
    FirstEnters();
    SecondEnters();
    ThirdEnters();
    SecondWakes();
    RunTake(TWO_SLEEPERS, 0);
    RunTake(TWO_SLEEPERS, 1);
    RunTake(TWO_SLEEPERS, 2);
    RunTake(TWO_SLEEPERS, 3);
  }

  lemma {:induction false} RunTake(steps: seq<Step>, n: nat)
    requires n < |steps|
    ensures Run(1, 0, steps[..n + 1]) == Do(1, Run(1, 0, steps[..n]), steps[n])
  {
    assert steps[..n + 1][..n] == steps[..n];
  }

  /** Callers whose sleeps overlap do not look again: the second one is granted a nanosecond
      after the first. */
  lemma {:induction false} OverlappingSleepersBreakWindow()
    ensures Run(1, 0, TWO_SLEEPERS).grants == [0, MINUTE, MINUTE + 1]
    ensures !Spaced(Run(1, 0, TWO_SLEEPERS).grants, 1)
  {
    TwoSleepersRun();
    RunTake(TWO_SLEEPERS, 4);
    assert TWO_SLEEPERS[..5] == TWO_SLEEPERS;
    ThirdWakes();
    var g := Run(1, 0, TWO_SLEEPERS).grants;
    assert g[2] - g[1] < MINUTE;
  }
}
