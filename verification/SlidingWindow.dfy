/** The sliding-window limiter (engine/embed/ratelimit.go, `RateLimiter.Wait`). */
module SlidingWindow {
  import opened Common

  /** One minute, in nanoseconds. */
  const MINUTE: int := 60_000_000_000

  // ---------- one call ----------

  /** Drop the timestamps before the cutoff, from the front, up to the first that is not. */
  function Pruned(timestamps: seq<int>, cutoff: int): seq<int> {
    if timestamps != [] && timestamps[0] < cutoff then Pruned(timestamps[1..], cutoff) else timestamps
  }

  /** How long a call that finds these timestamps sleeps; 0 for not at all. */
  function Sleep(timestamps: seq<int>, now: int, max: int): int
    requires max >= 1 || timestamps != []
  {
    if |timestamps| >= max && MINUTE - (now - timestamps[0]) > 0
    then MINUTE - (now - timestamps[0])
    else 0
  }

  class RateLimiter {
    const max: int
    var timestamps: seq<int>

    constructor (max: int)
      ensures this.max == max && timestamps == []
    {
      this.max := max;
      timestamps := [];
    }

    /** The part of `Wait` up to the sleep, under the lock. With a maximum below one the code
        panics on an empty list, whose first element it reads: `None`. */
    method Enter(now: int) returns (sleepFor: Option<int>)
      modifies this
      ensures timestamps == Pruned(old(timestamps), now - MINUTE)
      ensures sleepFor.None? <==> max < 1 && timestamps == []
      ensures sleepFor.Some? ==> sleepFor.value == Sleep(timestamps, now, max)
    {
      var i := 0;
      while i < |timestamps| && timestamps[i] < now - MINUTE
        invariant 0 <= i <= |timestamps| && timestamps == old(timestamps)
        invariant Pruned(timestamps, now - MINUTE) == Pruned(timestamps[i..], now - MINUTE)
      {
        assert timestamps[i..][1..] == timestamps[i + 1..];
        i := i + 1;
      }
      timestamps := timestamps[i..];
      sleepFor := Some(0);
      if |timestamps| >= max {
        if |timestamps| == 0 {
          return None;
        }
        var s := MINUTE - (now - timestamps[0]);
        if s > 0 {
          sleepFor := Some(s);
        }
      }
    }

    /** The grant, under the lock again after a sleep that was not cancelled. */
    method Grant(now: int)
      modifies this
      ensures timestamps == old(timestamps) + [now]
    {
      timestamps := timestamps + [now];
    }
  }

  // ---------- runs of calls that do not overlap ----------

  /** One `Wait`: the clock when it enters, and when it is granted, unless it is cancelled
      while it sleeps. */
  datatype Call = Call(enters: int, granted: Option<int>)

  /** The limiter and all grants so far. */
  datatype State = State(timestamps: seq<int>, grants: seq<int>)

  function After(s: State, c: Call): State {
    var kept := Pruned(s.timestamps, c.enters - MINUTE);
    match c.granted
    case Some(t) => State(kept + [t], s.grants + [t])
    case None => State(kept, s.grants)
  }

  function Played(calls: seq<Call>): State {
    if calls == [] then State([], [])
    else After(Played(calls[..|calls| - 1]), calls[|calls| - 1])
  }

  /** The call sleeps at least as long as it was told. */
  ghost predicate SleepsEnough(s: State, c: Call, max: nat)
    requires max >= 1
  {
    c.granted.Some? ==> c.granted.value >= c.enters + Sleep(Pruned(s.timestamps, c.enters - MINUTE), c.enters, max)
  }

  /** Each call enters after the previous grant, strictly (a clock that advances). */
  ghost predicate Timely(calls: seq<Call>, max: nat)
    requires max >= 1
  {
    && (forall i :: 0 <= i < |calls| ==> SleepsEnough(Played(calls[..i]), calls[i], max))
    && (forall i, j :: 0 <= i < j < |calls| ==> calls[i].enters <= calls[j].enters)
    && (forall i, j :: 0 <= i < j < |calls| && calls[i].granted.Some? ==> calls[i].granted.value < calls[j].enters)
  }

  // ---------- pruning ----------

  /** The youngest of a list of grants. */
  ghost predicate SuffixOf(p: seq<int>, s: seq<int>) {
    |p| <= |s| && forall i :: 0 <= i < |p| ==> p[i] == s[|s| - |p| + i]
  }

  /** All but the kept suffix lie before the cutoff. */
  ghost predicate RestBefore(p: seq<int>, s: seq<int>, cutoff: int) {
    |p| <= |s| && forall i :: 0 <= i < |s| - |p| ==> s[i] < cutoff
  }

  /** Pruning keeps a suffix; what it drops lies before the cutoff, and it stops at the
      first timestamp that does not. */
  lemma {:induction false} PrunedSuffix(s: seq<int>, cutoff: int)
    ensures SuffixOf(Pruned(s, cutoff), s) && RestBefore(Pruned(s, cutoff), s, cutoff)
    ensures Pruned(s, cutoff) != [] ==> Pruned(s, cutoff)[0] >= cutoff
  {
    if s != [] && s[0] < cutoff {
      PrunedSuffix(s[1..], cutoff);
      var p := Pruned(s[1..], cutoff);
      forall i | 0 <= i < |s| - |p|
        ensures s[i] < cutoff
      {
        if i > 0 {
          assert s[1..][i - 1] == s[i];
        }
      }
    }
  }

  // ---------- the window ----------

  /** Any `max + 1` consecutive grants span at least a minute. */
  ghost predicate Spaced(grants: seq<int>, max: nat) {
    forall i, j :: 0 <= i < |grants| && j == i + max && j < |grants| ==> grants[j] - grants[i] >= MINUTE
  }

  ghost predicate AtMost(s: seq<int>, t: int) {
    forall i :: 0 <= i < |s| ==> s[i] <= t
  }

  /** The kept timestamps are the youngest grants; the forgotten ones are a minute older
      than every later clock reading; and at most one more than `max` is kept, whose first
      then lies a full minute before the last grant. */
  ghost predicate Inv(s: State, max: nat, now: int) {
    && AtMost(s.grants, now)
    && SuffixOf(s.timestamps, s.grants)
    && RestBefore(s.timestamps, s.grants, now - MINUTE)
    && |s.timestamps| <= max + 1
    && (|s.timestamps| == max + 1 ==> s.timestamps[max] - s.timestamps[0] >= MINUTE)
    && Spaced(s.grants, max)
  }

  lemma {:induction false} SuffixTransitive(p: seq<int>, q: seq<int>, s: seq<int>, early: int, late: int)
    requires SuffixOf(p, q) && SuffixOf(q, s) && early <= late
    requires RestBefore(p, q, late) && RestBefore(q, s, early)
    ensures SuffixOf(p, s) && RestBefore(p, s, late)
  {
    forall i | 0 <= i < |s| - |p|
      ensures s[i] < late
    {
      if i >= |s| - |q| {
        var k := i - (|s| - |q|);
        assert s[i] == q[k];
      }
    }
    forall i | 0 <= i < |p|
      ensures p[i] == s[|s| - |p| + i]
    {
      var k := |q| - |p| + i;
      assert p[i] == q[k];
    }
  }

  /** Once a strictly later call has pruned, at most `max` timestamps are left. */
  lemma {:induction false} PrunedAtMostMax(s: State, max: nat, now: int, enters: int)
    requires max >= 1 && Inv(s, max, now) && now <= enters
    requires forall i :: 0 <= i < |s.grants| ==> s.grants[i] < enters
    ensures |Pruned(s.timestamps, enters - MINUTE)| <= max
  {
    var kept := Pruned(s.timestamps, enters - MINUTE);
    PrunedSuffix(s.timestamps, enters - MINUTE);
    assert |s.timestamps| == max + 1 ==> s.timestamps[max] == s.grants[|s.grants| - 1];
    assert kept != [] && |kept| == |s.timestamps| ==> kept[0] == s.timestamps[0];
  }

  /** A grant after enough sleep is a minute after the grant `max` places before it. */
  lemma {:induction false} GrantSpaced(grants: seq<int>, kept: seq<int>, max: nat, enters: int, t: int)
    requires max >= 1 && Spaced(grants, max)
    requires |kept| <= max && SuffixOf(kept, grants) && RestBefore(kept, grants, enters - MINUTE)
    requires t >= enters + Sleep(kept, enters, max)
    ensures Spaced(grants + [t], max)
  {
    var all := grants + [t];
    forall i, j | 0 <= i < |all| && j == i + max && j < |all|
      ensures all[j] - all[i] >= MINUTE
    {
      if j == |grants| {
        assert all[i] == grants[i];
        if |kept| == max {
          assert kept[0] == grants[i];
        }
      }
    }
  }

  lemma {:induction false} AppendedSuffix(p: seq<int>, s: seq<int>, t: int)
    requires SuffixOf(p, s)
    ensures SuffixOf(p + [t], s + [t])
  {
    var q, r := p + [t], s + [t];
    forall i | 0 <= i < |q|
      ensures q[i] == r[|r| - |q| + i]
    {
      if i < |p| {
        SuffixAt(p, s, i);
      }
    }
  }

  lemma {:induction false} GrantKeeps(grants: seq<int>, kept: seq<int>, max: nat, enters: int, t: int)
    requires max >= 1 && Spaced(grants, max) && AtMost(grants, enters)
    requires |kept| <= max && SuffixOf(kept, grants) && RestBefore(kept, grants, enters - MINUTE)
    requires t >= enters + Sleep(kept, enters, max)
    ensures Inv(State(kept + [t], grants + [t]), max, t)
  {
    GrantSpaced(grants, kept, max, enters, t);
    AppendedSuffix(kept, grants, t);
    var ts := kept + [t];
    if |kept| == max {
      assert ts[0] == kept[0] && ts[max] == t;
    }
    assert RestBefore(ts, grants + [t], t - MINUTE);
  }

  lemma {:induction false} CallKeeps(s: State, c: Call, max: nat, now: int)
    requires max >= 1 && Inv(s, max, now) && now <= c.enters
    requires forall i :: 0 <= i < |s.grants| ==> s.grants[i] < c.enters
    requires SleepsEnough(s, c, max)
    ensures Inv(After(s, c), max, if c.granted.Some? then c.granted.value else c.enters)
  {
    var cutoff := c.enters - MINUTE;
    var kept := Pruned(s.timestamps, cutoff);
    PrunedAtMostMax(s, max, now, c.enters);
    PrunedSuffix(s.timestamps, cutoff);
    SuffixTransitive(kept, s.timestamps, s.grants, now - MINUTE, cutoff);
    if c.granted.Some? {
      GrantKeeps(s.grants, kept, max, c.enters, c.granted.value);
    }
  }

  function Clock(calls: seq<Call>): int {
    if calls == [] then 0
    else
      var c := calls[|calls| - 1];
      if c.granted.Some? then c.granted.value else c.enters
  }

  /** Every grant is the grant of some call. */
  lemma {:induction false} GrantsAreSome(calls: seq<Call>, t: int)
    requires t in Played(calls).grants
    ensures exists i :: 0 <= i < |calls| && calls[i].granted == Some(t)
  {
    var n := |calls| - 1;
    if t in Played(calls[..n]).grants {
      GrantsAreSome(calls[..n], t);
      var i :| 0 <= i < n && calls[..n][i].granted == Some(t);
      assert calls[i].granted == Some(t);
    } else {
      assert calls[n].granted == Some(t);
    }
  }

  /** All grants before call `n` lie strictly before it enters. */
  lemma {:induction false} GrantsBefore(calls: seq<Call>, max: nat, n: nat)
    requires max >= 1 && Timely(calls, max) && n < |calls|
    ensures forall i :: 0 <= i < |Played(calls[..n]).grants| ==> Played(calls[..n]).grants[i] < calls[n].enters
  {
    var grants := Played(calls[..n]).grants;
    forall i | 0 <= i < |grants|
      ensures grants[i] < calls[n].enters
    {
      GrantsAreSome(calls[..n], grants[i]);
      var k :| 0 <= k < n && calls[..n][k].granted == Some(grants[i]);
      assert calls[k].granted == Some(grants[i]);
    }
  }

  lemma {:induction false} PlayedKeeps(calls: seq<Call>, max: nat, n: nat)
    requires max >= 1 && Timely(calls, max) && 1 <= n <= |calls|
    ensures Inv(Played(calls[..n]), max, Clock(calls[..n]))
  {
    var s, c := Played(calls[..n - 1]), calls[n - 1];
    assert calls[..n][..n - 1] == calls[..n - 1];
    GrantsBefore(calls, max, n - 1);
    if n == 1 {
      CallKeeps(s, c, max, c.enters);
    } else {
      PlayedKeeps(calls, max, n - 1);
      assert calls[..n - 1][n - 2] == calls[n - 2];
      CallKeeps(s, c, max, Clock(calls[..n - 1]));
    }
  }

  /** Over any run of calls that do not overlap, on an advancing clock, with any of them
      cancelled while sleeping: any `max + 1` consecutive grants span at least a minute. */
  lemma {:induction false} WindowHolds(calls: seq<Call>, max: nat)
    requires max >= 1 && Timely(calls, max)
    ensures Spaced(Played(calls).grants, max)
  {
    if calls != [] {
      PlayedKeeps(calls, max, |calls|);
      assert calls[..|calls|] == calls;
    }
  }

  // ---------- where the window fails ----------

  /** One grant more keeps the window exactly when it is a minute after the grant `max`
      places before it. */
  lemma {:induction false} SpacedAppend(grants: seq<int>, t: int, max: nat)
    requires max >= 1 && Spaced(grants, max)
    ensures Spaced(grants + [t], max) <==> (|grants| >= max ==> t - grants[|grants| - max] >= MINUTE)
  {
    var n, all := |grants|, grants + [t];
    assert n >= max ==> all[n - max] == grants[n - max] && all[n] == t;
    forall i, j | 0 <= i < |all| && j == i + max && j < n
      ensures all[j] - all[i] >= MINUTE
    {
      assert all[j] == grants[j] && all[i] == grants[i];
    }
  }

  /** When more than `max` timestamps are left, the clock stands where it stood at the last
      grant, and the call does not sleep. */
  lemma {:induction false} NothingPruned(ts: seq<int>, grants: seq<int>, kept: seq<int>, max: nat, enters: int)
    requires max >= 1 && SuffixOf(ts, grants) && |ts| <= max + 1 && AtMost(grants, enters)
    requires |ts| == max + 1 ==> ts[max] - ts[0] >= MINUTE
    requires SuffixOf(kept, ts) && |kept| > max
    requires kept[0] >= enters - MINUTE
    ensures kept == ts && Sleep(ts, enters, max) == 0 && ts[1] == grants[|grants| - max]
  {
    SameSuffix(kept, ts);
    SuffixAt(ts, grants, max);
    SuffixAt(ts, grants, 1);
  }

  lemma {:induction false} SameSuffix(p: seq<int>, s: seq<int>)
    requires SuffixOf(p, s) && |p| == |s|
    ensures p == s
  {
  }

  lemma {:induction false} SuffixAt(p: seq<int>, s: seq<int>, i: nat)
    requires SuffixOf(p, s) && i < |p|
    ensures p[i] == s[|s| - |p| + i]
  {
  }

  lemma {:induction false} StandingIff(ts: seq<int>, grants: seq<int>, kept: seq<int>, max: nat, enters: int, t: int)
    requires max >= 1 && SuffixOf(ts, grants) && |ts| <= max + 1 && AtMost(grants, enters)
    requires |ts| == max + 1 ==> ts[max] - ts[0] >= MINUTE
    requires SuffixOf(kept, ts) && |kept| > max && kept[0] >= enters - MINUTE
    requires t == enters + Sleep(kept, enters, max)
    requires Spaced(grants, max)
    ensures Spaced(grants + [t], max) <==> enters - kept[1] >= MINUTE
  {
    NothingPruned(ts, grants, kept, max, enters);
    SpacedAppend(grants, t, max);
  }

  /** On a clock that may stand still, the earliest grant a call can get keeps the window
      exactly when pruning left at most `max` timestamps, or the second one left is a
      minute old as well. */
  lemma {:induction false} EarliestGrantSpacedIff(s: State, max: nat, enters: int, kept: seq<int>, t: int)
    requires max >= 1 && Inv(s, max, enters)
    requires kept == Pruned(s.timestamps, enters - MINUTE) && t == enters + Sleep(kept, enters, max)
    ensures Spaced(s.grants + [t], max) <==> |kept| <= max || enters - kept[1] >= MINUTE
  {
    PrunedSuffix(s.timestamps, enters - MINUTE);
    if |kept| <= max {
      SuffixTransitive(kept, s.timestamps, s.grants, enters - MINUTE, enters - MINUTE);
      GrantSpaced(s.grants, kept, max, enters, t);
    } else {
      StandingIff(s.timestamps, s.grants, kept, max, enters, t);
    }
  }

  /** Three calls that do not overlap, with `max == 2`: grants at 0, at 1 and after a sleep
      at 60 s. */
  const THREE_CALLS: seq<Call> := [Call(0, Some(0)), Call(1, Some(1)), Call(2, Some(MINUTE))]

  lemma {:induction false} PlayedAppend(calls: seq<Call>, c: Call)
    ensures Played(calls + [c]) == After(Played(calls), c)
  {
    assert (calls + [c])[..|calls|] == calls;
  }

  /** The runs before each of the three calls, and after the last. */
  lemma {:induction false} ThreeCallsStates()
    ensures Played(THREE_CALLS[..0]) == State([], [])
    ensures Played(THREE_CALLS[..1]) == State([0], [0])
    ensures Played(THREE_CALLS[..2]) == State([0, 1], [0, 1])
    ensures Played(THREE_CALLS) == State([0, 1, MINUTE], [0, 1, MINUTE])
  {
    var c := THREE_CALLS;
    assert c[..1] == [] + [c[0]] && c[..2] == c[..1] + [c[1]] && c == c[..2] + [c[2]];
    PlayedAppend([], c[0]);
    PlayedAppend(c[..1], c[1]);
    PlayedAppend(c[..2], c[2]);
    assert Pruned([0], 1 - MINUTE) == [0] && Pruned([0, 1], 2 - MINUTE) == [0, 1];
  }

  lemma {:induction false} ThreeCallsTimely()
    ensures Timely(THREE_CALLS, 2)
  {
    ThreeCallsStates();
    var c := THREE_CALLS;
    assert SleepsEnough(State([], []), c[0], 2);
    assert SleepsEnough(State([0], [0]), c[1], 2);
    assert Pruned([0, 1], 2 - MINUTE) == [0, 1] && Sleep([0, 1], 2, 2) == MINUTE - 2;
    assert SleepsEnough(State([0, 1], [0, 1]), c[2], 2);
  }

  /** A clock that stands still between a grant and the next call lets one grant through
      early: after the three calls a fourth one enters at 60 s, does not sleep, and is
      granted at 60 s as well. */
  lemma {:induction false} StandingClockBreaksWindow()
    ensures var s := Played(THREE_CALLS);
            var c := Call(MINUTE, Some(MINUTE));
            && Timely(THREE_CALLS, 2) && Spaced(s.grants, 2) && SleepsEnough(s, c, 2)
            && Played(THREE_CALLS + [c]) == After(s, c)
            && !Spaced(After(s, c).grants, 2)
  {
    ThreeCallsStates();
    ThreeCallsTimely();
    WindowHolds(THREE_CALLS, 2);
    var s := Played(THREE_CALLS);
    var c := Call(MINUTE, Some(MINUTE));
    PlayedAppend(THREE_CALLS, c);
    assert Pruned(s.timestamps, 0) == s.timestamps;
    var g := After(s, c).grants;
    assert g == [0, 1, MINUTE, MINUTE];
    assert g[3] - g[1] < MINUTE;
  }
}
