/** The result cache under overlapping misses (engine/cache.go, `Execute`): when the queue stays
    exact and the cache remains a list that forgets its oldest insertions, and runs in which
    it does not. */
module CacheOverlap {
  import opened Common
  import opened Cache
  import opened CacheRuns
  import opened CacheSequential

  // ---------- which runs keep the queue exact ----------

  /** The step inserts a run's result. */
  predicate Inserts(w: World, step: Step) {
    step.InsertStep? && PhaseOf(w, step.caller).Ran?
  }

  /** An insertion whose key is gone from the store by then. */
  predicate FreshStep(p: Params, w: World, step: Step) {
    Inserts(w, step) ==> p.hash(PhaseOf(w, step.caller).g) !in Evicted(w.shelf, step.evictAt, p.ttl, p.max).store
  }

  ghost predicate AllFresh(p: Params, steps: seq<Step>) {
    steps == [] || (AllFresh(p, steps[..|steps| - 1])
                    && FreshStep(p, Run(p, steps[..|steps| - 1]), steps[|steps| - 1]))
  }

  /** The queue is exact after every step. */
  ghost predicate AlwaysExact(p: Params, steps: seq<Step>) {
    Exact(Run(p, steps).shelf) && (steps == [] || AlwaysExact(p, steps[..|steps| - 1]))
  }

  /** The list the cache should be: what each insertion remembers. */
  function Remembered(p: Params, steps: seq<Step>): seq<Item>
    requires p.max >= 1
  {
    if steps == [] then []
    else
      var front, step := steps[..|steps| - 1], steps[|steps| - 1];
      var w := Run(p, front);
      if Inserts(w, step)
      then
        var x := PhaseOf(w, step.caller);
        Remember(Remembered(p, front), Item(p.hash(x.g), x.result, step.createdAt), step.evictAt, p.ttl, p.max)
      else if step.ClearStep? then []
      else Remembered(p, front)
  }

  lemma {:induction false} FreshRefines(p: Params, s: Shelf, items: seq<Item>, x: Item, evictAt: int)
    requires p.max >= 1 && Refines(s, items) && x.k !in Evicted(s, evictAt, p.ttl, p.max).store
    ensures Refines(Inserted(s, x.k, x.result, evictAt, x.createdAt, p.ttl, p.max),
                    Remember(items, x, evictAt, p.ttl, p.max))
  {
    EvictionRefines(s, evictAt, p.ttl, p.max);
    AppendNew(Evicted(s, evictAt, p.ttl, p.max), x.k, Entry(x.result, x.createdAt));
  }

  /** In any interleaving in which every inserted key is gone from the store, the cache is the
      bounded list that forgets its oldest insertions. */
  lemma {:induction false} FreshRunRefines(p: Params, steps: seq<Step>)
    requires p.max >= 1 && AllFresh(p, steps)
    ensures Refines(Run(p, steps).shelf, Remembered(p, steps))
  {
    if steps != [] {
      var front, step := steps[..|steps| - 1], steps[|steps| - 1];
      FreshRunRefines(p, front);
      var w := Run(p, front);
      if Inserts(w, step) {
        var x := PhaseOf(w, step.caller);
        FreshRefines(p, w.shelf, Remembered(p, front), Item(p.hash(x.g), x.result, step.createdAt), step.evictAt);
      }
    }
  }

  /** The queue stays exact throughout a run if and only if no insertion finds its key still
      stored. */
  lemma {:induction false} AlwaysExactIff(p: Params, steps: seq<Step>)
    requires p.max >= 1
    ensures AlwaysExact(p, steps) <==> AllFresh(p, steps)
  {
    if steps != [] {
      var front, step := steps[..|steps| - 1], steps[|steps| - 1];
      AlwaysExactIff(p, front);
      var w := Run(p, front);
      if AllFresh(p, steps) {
        FreshRunRefines(p, steps);
      }
      if AlwaysExact(p, steps) && Inserts(w, step) {
        var x := PhaseOf(w, step.caller);
        ExactInsertionIff(w.shelf, p.hash(x.g), x.result, step.evictAt, step.createdAt, p.ttl, p.max);
      }
    }
  }

  // ---------- insertions that evict at most one ----------

  /** An insertion that evicts nothing. */
  lemma {:induction false} QuietInsertion(s: Shelf, k: Key, at: int, ttl: int, max: nat)
    requires AllStored(s.order, s.store) && |s.store| < max
    requires forall j :: j in s.store ==> Fresh(s.store[j], at, ttl)
    ensures Inserted(s, k, "r", at, at, ttl, max) == Shelf(s.store[k := Entry("r", at)], s.order + [k])
  {
    assert Unexpired(s.store, at, ttl) == s.store;
    StillStoredAll(s.order, s.store);
    assert Rebuilt(s) == s;
  }

  /** An insertion into a full cache of three whose queue names only stored keys drops the
      key at the head of the queue. */
  lemma {:induction false} FullInsertion(s: Shelf, k: Key, at: int, ttl: int)
    requires AllStored(s.order, s.store) && |s.store| == 3 && s.order != []
    requires forall j :: j in s.store ==> Fresh(s.store[j], at, ttl)
    ensures Inserted(s, k, "r", at, at, ttl, 3).store == (s.store - {s.order[0]})[k := Entry("r", at)]
  {
    assert Unexpired(s.store, at, ttl) == s.store;
    StillStoredAll(s.order, s.store);
    assert Rebuilt(s) == s;
    var u := Shelf(s.store - {s.order[0]}, s.order[1..]);
    assert s.order[0] in s.store;
    assert u.store.Keys == s.store.Keys - {s.order[0]};
    assert |u.store| == |u.store.Keys| == 2;
    assert PopOldest(u, 3) == u;
  }

  // ---------- a queue without bound ----------

  function Copies(k: Key, n: nat): seq<Key> {
    seq(n, _ => k)
  }

  /** `n` callers look the same graph up at time `t`; all of them miss; every engine run
      succeeds; and they insert one after the other. */
  function Looking(n: nat, g: Graph, t: int): seq<Step> {
    if n == 0 then [] else Looking(n - 1, g, t) + [CheckStep(n - 1, g, t)]
  }

  function Running(n: nat, m: nat, g: Graph, t: int): seq<Step> {
    if m == 0 then Looking(n, g, t) else Running(n, m - 1, g, t) + [RunSucceeds(m - 1, "r")]
  }

  function Inserting(n: nat, m: nat, g: Graph, t: int): seq<Step> {
    if m == 0 then Running(n, n, g, t) else Inserting(n, m - 1, g, t) + [InsertStep(m - 1, t, t)]
  }

  lemma {:induction false} RunAppend(p: Params, steps: seq<Step>, step: Step)
    ensures Run(p, steps + [step]) == Do(p, Run(p, steps), step)
  {
    assert (steps + [step])[..|steps|] == steps;
  }

  /** The callers from `done` on and below `n` are in one phase, those below `done` in
      another, and all others outside. */
  ghost predicate InPhases(w: World, n: nat, done: nat, before: Phase, after: Phase) {
    forall c: nat {:trigger PhaseOf(w, c)} ::
      PhaseOf(w, c) == if c < done then after else if c < n then before else Outside
  }

  lemma {:induction false} LookingRun(p: Params, n: nat, g: Graph, t: int)
    ensures var w := Run(p, Looking(n, g, t));
            w.shelf == EMPTY.shelf && InPhases(w, n, n, Outside, Missed(g))
  {
    if n > 0 {
      LookingRun(p, n - 1, g, t);
      RunAppend(p, Looking(n - 1, g, t), CheckStep(n - 1, g, t));
      MovedOn(Run(p, Looking(n - 1, g, t)), n - 1, Missed(g));
    }
  }

  /** Setting one caller's phase leaves the others alone. */
  lemma {:induction false} MovedOn(w: World, c: nat, phase: Phase)
    ensures forall w': World, d: nat {:trigger PhaseOf(w', d)} :: w'.phases == w.phases[c := phase] ==>
              PhaseOf(w', d) == if d == c then phase else PhaseOf(w, d)
  {
  }

  lemma {:induction false} RunningRun(p: Params, n: nat, m: nat, g: Graph, t: int)
    requires m <= n
    ensures var w := Run(p, Running(n, m, g, t));
            w.shelf == EMPTY.shelf && InPhases(w, n, m, Missed(g), Ran(g, "r"))
  {
    if m == 0 {
      LookingRun(p, n, g, t);
    } else {
      RunningRun(p, n, m - 1, g, t);
      RunAppend(p, Running(n, m - 1, g, t), RunSucceeds(m - 1, "r"));
      MovedOn(Run(p, Running(n, m - 1, g, t)), m - 1, Ran(g, "r"));
    }
  }

  /** The shelf with one entry and a queue that names it `m` times. */
  function Piled(k: Key, t: int, m: nat): Shelf {
    if m == 0 then Shelf(map[], []) else Shelf(map[k := Entry("r", t)], Copies(k, m))
  }

  lemma {:induction false} PileMore(k: Key, t: int, m: nat, ttl: int, max: nat)
    requires ttl >= 1 && max >= 2
    ensures Inserted(Piled(k, t, m), k, "r", t, t, ttl, max) == Piled(k, t, m + 1)
  {
    var s := Piled(k, t, m);
    assert m > 0 ==> s.store.Keys == {k};
    assert |s.store| == |s.store.Keys| <= 1;
    QuietInsertion(s, k, t, ttl, max);
    assert s.store[k := Entry("r", t)] == map[k := Entry("r", t)];
    assert Copies(k, m + 1) == s.order + [k];
  }

  /** A caller whose engine run is done inserts its result. */
  lemma {:induction false} InsertRun(p: Params, steps: seq<Step>, c: nat, g: Graph, t: int)
    requires PhaseOf(Run(p, steps), c) == Ran(g, "r")
    ensures var w, w' := Run(p, steps), Run(p, steps + [InsertStep(c, t, t)]);
            && w'.shelf == Inserted(w.shelf, p.hash(g), "r", t, t, p.ttl, p.max)
            && w'.phases == w.phases[c := Outside]
  {
    RunAppend(p, steps, InsertStep(c, t, t));
  }

  lemma {:induction false} OneMoreOutside(w: World, w': World, n: nat, m: nat, before: Phase)
    requires m < n && InPhases(w, n, m, before, Outside) && w'.phases == w.phases[m := Outside]
    ensures InPhases(w', n, m + 1, before, Outside)
  {
    MovedOn(w, m, Outside);
  }

  /** The state when `m` of the `n` callers have inserted. */
  ghost predicate HasPiled(p: Params, w: World, n: nat, m: nat, g: Graph, t: int) {
    w.shelf == Piled(p.hash(g), t, m) && InPhases(w, n, m, Ran(g, "r"), Outside)
  }

  lemma {:induction false} OneMorePiled(p: Params, w: World, w': World, n: nat, m: nat, g: Graph, t: int)
    requires m < n && p.ttl >= 1 && p.max >= 2 && HasPiled(p, w, n, m, g, t)
    requires w'.shelf == Inserted(w.shelf, p.hash(g), "r", t, t, p.ttl, p.max) && w'.phases == w.phases[m := Outside]
    ensures HasPiled(p, w', n, m + 1, g, t)
  {
    OneMoreOutside(w, w', n, m, Ran(g, "r"));
    PileMore(p.hash(g), t, m, p.ttl, p.max);
  }

  lemma {:induction false} InsertingRun(p: Params, n: nat, m: nat, g: Graph, t: int)
    requires m <= n && p.ttl >= 1 && p.max >= 2
    ensures HasPiled(p, Run(p, Inserting(n, m, g, t)), n, m, g, t)
  {
    if m == 0 {
      RunningRun(p, n, n, g, t);
    } else {
      InsertingRun(p, n, m - 1, g, t);
      InsertRun(p, Inserting(n, m - 1, g, t), m - 1, g, t);
      OneMorePiled(p, Run(p, Inserting(n, m - 1, g, t)), Run(p, Inserting(n, m, g, t)), n, m - 1, g, t);
    }
  }

  /** The store is bounded and the queue is not: for every `n` there is a run of `n`
      overlapping misses on one key that leaves one result stored and `n` places queued. */
  lemma {:induction false} QueueGrows(p: Params, n: nat, g: Graph, t: int)
    requires n >= 1 && p.ttl >= 1 && p.max >= 2
    ensures var s := Run(p, Inserting(n, n, g, t)).shelf;
            |s.store| == 1 && |s.order| == n
  {
    InsertingRun(p, n, n, g, t);
  }

  // ---------- a younger result forgotten before an older one ----------

  /** Four graphs with different keys, in a cache of three whose entries live long enough. */
  ghost predicate FourGraphs(p: Params, a: Graph, b: Graph, c: Graph, d: Graph) {
    && p.max == 3 && p.ttl >= 6
    && p.hash(a) != p.hash(b) && p.hash(a) != p.hash(c) && p.hash(a) != p.hash(d)
    && p.hash(b) != p.hash(c) && p.hash(b) != p.hash(d) && p.hash(c) != p.hash(d)
  }

  /** One caller misses, runs the engine and inserts. */
  function Solo(caller: nat, g: Graph, t: int): seq<Step> {
    [CheckStep(caller, g, t), RunSucceeds(caller, "r"), InsertStep(caller, t, t)]
  }

  lemma {:induction false} SoloRun(p: Params, steps: seq<Step>, caller: nat, g: Graph, t: int)
    requires PhaseOf(Run(p, steps), caller).Outside? && p.hash(g) !in Run(p, steps).shelf.store
    ensures var w := Run(p, steps + Solo(caller, g, t));
            && w.shelf == Inserted(Run(p, steps).shelf, p.hash(g), "r", t, t, p.ttl, p.max)
            && forall c: nat {:trigger PhaseOf(w, c)} :: PhaseOf(w, c) == PhaseOf(Run(p, steps), c)
  {
    var s := Solo(caller, g, t);
    RunAppend(p, steps, s[0]);
    RunAppend(p, steps + [s[0]], s[1]);
    RunAppend(p, steps + [s[0]] + [s[1]], s[2]);
    assert steps + s == steps + [s[0]] + [s[1]] + [s[2]];
  }

  /** Callers 0 and 1 both miss `a`; caller 0 inserts it at time 1; `b` is inserted at time 2;
      and then caller 1 inserts `a` again at time 3, `c` follows at time 4. */
  function Overlap(a: Graph, b: Graph, c: Graph): seq<Step> {
    [CheckStep(0, a, 0), CheckStep(1, a, 0), RunSucceeds(0, "r"), RunSucceeds(1, "r"), InsertStep(0, 1, 1)]
    + Solo(2, b, 2) + [InsertStep(1, 3, 3)] + Solo(2, c, 4)
  }

  /** The first steps: `a` is stored, and caller 1 still holds its own result for it. */
  lemma {:induction false} OverlapBegins(p: Params, a: Graph, steps: seq<Step>)
    requires p.max >= 2 && p.ttl >= 1
    requires steps == [CheckStep(0, a, 0), CheckStep(1, a, 0), RunSucceeds(0, "r"), RunSucceeds(1, "r"), InsertStep(0, 1, 1)]
    ensures var w := Run(p, steps);
            && w.shelf == Shelf(map[p.hash(a) := Entry("r", 1)], [p.hash(a)])
            && PhaseOf(w, 1) == Ran(a, "r") && PhaseOf(w, 2) == Outside
  {
    var s0: seq<Step> := [];
    var s1 := s0 + [steps[0]];
    var s2 := s1 + [steps[1]];
    var s3 := s2 + [steps[2]];
    var s4 := s3 + [steps[3]];
    assert steps == s4 + [steps[4]];
    RunAppend(p, s0, steps[0]);
    RunAppend(p, s1, steps[1]);
    RunAppend(p, s2, steps[2]);
    RunAppend(p, s3, steps[3]);
    RunAppend(p, s4, steps[4]);
    QuietInsertion(Shelf(map[], []), p.hash(a), 1, p.ttl, p.max);
  }

  /** A solo call into a cache with room to spare. */
  lemma {:induction false} QuietSolo(p: Params, steps: seq<Step>, s: Shelf, caller: nat, g: Graph, t: int)
    requires s == Run(p, steps).shelf && PhaseOf(Run(p, steps), caller).Outside? && p.hash(g) !in s.store
    requires AllStored(s.order, s.store) && |s.store| < p.max
    requires forall j :: j in s.store ==> Fresh(s.store[j], t, p.ttl)
    ensures var w := Run(p, steps + Solo(caller, g, t));
            && w.shelf == Shelf(s.store[p.hash(g) := Entry("r", t)], s.order + [p.hash(g)])
            && forall c: nat {:trigger PhaseOf(w, c)} :: PhaseOf(w, c) == PhaseOf(Run(p, steps), c)
  {
    SoloRun(p, steps, caller, g, t);
    QuietInsertion(s, p.hash(g), t, p.ttl, p.max);
  }

  /** `b` is stored behind `a`. */
  lemma {:induction false} OverlapBetween(p: Params, a: Graph, b: Graph, begin: seq<Step>)
    requires p.max == 3 && p.ttl >= 6 && p.hash(a) != p.hash(b)
    requires begin == [CheckStep(0, a, 0), CheckStep(1, a, 0), RunSucceeds(0, "r"), RunSucceeds(1, "r"), InsertStep(0, 1, 1)]
    ensures var w := Run(p, begin + Solo(2, b, 2));
            && w.shelf == Shelf(map[p.hash(a) := Entry("r", 1), p.hash(b) := Entry("r", 2)], [p.hash(a), p.hash(b)])
            && PhaseOf(w, 1) == Ran(a, "r") && PhaseOf(w, 2) == Outside
  {
    OverlapBegins(p, a, begin);
    var s := Shelf(map[p.hash(a) := Entry("r", 1)], [p.hash(a)]);
    assert s.store.Keys == {p.hash(a)} && |s.store| == |s.store.Keys|;
    QuietSolo(p, begin, s, 2, b, 2);
  }

  /** Up to the second insertion of `a`. */
  lemma {:induction false} OverlapGoesOn(p: Params, a: Graph, b: Graph, begin: seq<Step>)
    requires p.max == 3 && p.ttl >= 6 && p.hash(a) != p.hash(b)
    requires begin == [CheckStep(0, a, 0), CheckStep(1, a, 0), RunSucceeds(0, "r"), RunSucceeds(1, "r"), InsertStep(0, 1, 1)]
    ensures var w := Run(p, begin + Solo(2, b, 2) + [InsertStep(1, 3, 3)]);
            && w.shelf == Shelf(map[p.hash(a) := Entry("r", 3), p.hash(b) := Entry("r", 2)],
                                [p.hash(a), p.hash(b), p.hash(a)])
            && PhaseOf(w, 2) == Outside
  {
    var k, l := p.hash(a), p.hash(b);
    OverlapBetween(p, a, b, begin);
    var s1 := Shelf(map[k := Entry("r", 1), l := Entry("r", 2)], [k, l]);
    assert s1.store.Keys == {k, l} && |s1.store| == |s1.store.Keys|;
    InsertRun(p, begin + Solo(2, b, 2), 1, a, 3);
    QuietInsertion(s1, k, 3, p.ttl, 3);
    assert s1.store[k := Entry("r", 3)] == map[k := Entry("r", 3), l := Entry("r", 2)];
    assert s1.order + [k] == [k, l, k];
    MovedOn(Run(p, begin + Solo(2, b, 2)), 1, Outside);
  }

  /** The queue after the overlap: `a` at the head, although it is younger than `b`. */
  lemma {:induction false} OverlapMisplaces(p: Params, a: Graph, b: Graph, c: Graph, d: Graph)
    requires FourGraphs(p, a, b, c, d)
    ensures var w := Run(p, Overlap(a, b, c));
            && w.shelf == Shelf(map[p.hash(a) := Entry("r", 3), p.hash(b) := Entry("r", 2), p.hash(c) := Entry("r", 4)],
                                [p.hash(a), p.hash(b), p.hash(a), p.hash(c)])
            && PhaseOf(w, 2) == Outside
  {
    var k, l, m := p.hash(a), p.hash(b), p.hash(c);
    var begin := [CheckStep(0, a, 0), CheckStep(1, a, 0), RunSucceeds(0, "r"), RunSucceeds(1, "r"), InsertStep(0, 1, 1)];
    OverlapGoesOn(p, a, b, begin);
    var s := Shelf(map[k := Entry("r", 3), l := Entry("r", 2)], [k, l, k]);
    assert s.store.Keys == {k, l} && |s.store| == |s.store.Keys|;
    QuietSolo(p, begin + Solo(2, b, 2) + [InsertStep(1, 3, 3)], s, 2, c, 4);
    assert s.order + [m] == [k, l, k, m];
  }

  /** The next insertion forgets the younger `a` and keeps the older `b`. */
  lemma {:induction false} OverlapForgetsYounger(p: Params, a: Graph, b: Graph, c: Graph, d: Graph)
    requires FourGraphs(p, a, b, c, d)
    ensures var s, t := Run(p, Overlap(a, b, c)).shelf, Run(p, Overlap(a, b, c) + Solo(2, d, 5)).shelf;
            && p.hash(a) in s.store && p.hash(a) !in t.store
            && p.hash(b) in t.store && t.store[p.hash(b)].createdAt < s.store[p.hash(a)].createdAt
  {
    OverlapMisplaces(p, a, b, c, d);
    var s := Run(p, Overlap(a, b, c)).shelf;
    assert s.store.Keys == {p.hash(a), p.hash(b), p.hash(c)} && |s.store| == |s.store.Keys|;
    SoloRun(p, Overlap(a, b, c), 2, d, 5);
    FullInsertion(s, p.hash(d), 5, p.ttl);
  }
}
