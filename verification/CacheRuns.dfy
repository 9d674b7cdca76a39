/** Whole runs of the result cache (engine/cache.go, `Execute`): any interleaving of calls,
    and the sequential calls of one client. */
module CacheRuns {
  import opened Common
  import opened Cache

  type Graph = int

  // ---------- interleaved calls ----------

  /** A call outside, between its two critical sections before the engine returned, or after. */
  datatype Phase = Outside | Missed(g: Graph) | Ran(g: Graph, result: string)

  /** A successful engine run; an insertion, with the number of runs before it; an answer
      given to a caller, with the number of insertions before it. */
  datatype EngineRun = EngineRun(g: Graph, result: string)
  datatype Insertion = Insertion(run: EngineRun, at: int, ran: nat)
  datatype Answer = Answer(g: Graph, result: string, at: int, hit: bool, inserted: nat)

  datatype World = World(
    shelf: Shelf,
    phases: map<nat, Phase>,
    runs: seq<EngineRun>,
    insertions: seq<Insertion>,
    answers: seq<Answer>
  )

  datatype Params = Params(hash: Graph -> Key, ttl: int, max: nat)

  datatype Step =
    | CheckStep(caller: nat, g: Graph, now: int)
    | RunSucceeds(caller: nat, result: string)
    | RunFails(caller: nat)
    | InsertStep(caller: nat, evictAt: int, createdAt: int)
    | ClearStep

  function PhaseOf(w: World, c: nat): Phase {
    if c in w.phases then w.phases[c] else Outside
  }

  function Do(p: Params, w: World, step: Step): World {
    match step
    case CheckStep(c, g, now) =>
      if !PhaseOf(w, c).Outside? then w
      else
        (match Lookup(w.shelf, p.hash(g), now, p.ttl)
         case Some(r) => w.(answers := w.answers + [Answer(g, r, now, true, |w.insertions|)])
         case None => w.(phases := w.phases[c := Missed(g)]))
    case RunSucceeds(c, result) =>
      if PhaseOf(w, c).Missed?
      then w.(phases := w.phases[c := Ran(PhaseOf(w, c).g, result)],
              runs := w.runs + [EngineRun(PhaseOf(w, c).g, result)])
      else w
    case RunFails(c) =>
      if PhaseOf(w, c).Missed? then w.(phases := w.phases[c := Outside]) else w
    case InsertStep(c, evictAt, createdAt) =>
      if PhaseOf(w, c).Ran?
      then
        var run := EngineRun(PhaseOf(w, c).g, PhaseOf(w, c).result);
        w.(shelf := Inserted(w.shelf, p.hash(run.g), run.result, evictAt, createdAt, p.ttl, p.max),
           phases := w.phases[c := Outside],
           insertions := w.insertions + [Insertion(run, createdAt, |w.runs|)],
           answers := w.answers + [Answer(run.g, run.result, createdAt, false, |w.insertions|)])
      else w
    case ClearStep => w.(shelf := Shelf(map[], []))
  }

  const EMPTY := World(Shelf(map[], []), map[], [], [], [])

  function Run(p: Params, steps: seq<Step>): World {
    if steps == [] then EMPTY else Do(p, Run(p, steps[..|steps| - 1]), steps[|steps| - 1])
  }

  // ---------- one call by itself ----------

  /** A call that finds a result younger than the TTL under its key answers with it, and
      nothing else changes; a caller with a call in flight starts no other. */
  lemma {:induction false} FreshAnswers(p: Params, w: World, c: nat, g: Graph, now: int)
    ensures PhaseOf(w, c) == Outside && p.hash(g) in w.shelf.store
            && now - w.shelf.store[p.hash(g)].createdAt < p.ttl ==>
              Do(p, w, CheckStep(c, g, now))
              == w.(answers := w.answers
                               + [Answer(g, w.shelf.store[p.hash(g)].result, now, true, |w.insertions|)])
    ensures PhaseOf(w, c) != Outside ==> Do(p, w, CheckStep(c, g, now)) == w
  {
  }

  /** A call that finds none asks the engine. If it fails, nothing is stored and nothing
      answered; if it succeeds, its result is stored under the key with the clock reading of
      the insertion, queued last, and answered. */
  lemma {:induction false} MissRuns(p: Params, w: World, c: nat, g: Graph, now: int, result: string,
                                    evictAt: int, createdAt: int)
    requires PhaseOf(w, c) == Outside
    requires p.hash(g) !in w.shelf.store || now - w.shelf.store[p.hash(g)].createdAt >= p.ttl
    ensures var asked := Do(p, w, CheckStep(c, g, now));
            var failed := Do(p, asked, RunFails(c));
            && failed.shelf == w.shelf && failed.answers == w.answers && failed.runs == w.runs
            && failed.insertions == w.insertions && PhaseOf(failed, c) == Outside
    ensures var asked := Do(p, w, CheckStep(c, g, now));
            var done := Do(p, Do(p, asked, RunSucceeds(c, result)), InsertStep(c, evictAt, createdAt));
            && PhaseOf(done, c) == Outside && done.runs == w.runs + [EngineRun(g, result)]
            && |done.answers| == |w.answers| + 1 && w.answers <= done.answers
            && done.answers[|w.answers|].g == g && done.answers[|w.answers|].result == result
            && !done.answers[|w.answers|].hit
            && p.hash(g) in done.shelf.store && done.shelf.store[p.hash(g)] == Entry(result, createdAt)
            && done.shelf.order != [] && done.shelf.order[|done.shelf.order| - 1] == p.hash(g)
    ensures forall b :: b != c ==> PhaseOf(Do(p, w, CheckStep(c, g, now)), b) == PhaseOf(w, b)
  {
  }

  // ---------- the invariant ----------

  ghost predicate IsEntry(p: Params, i: Insertion, k: Key, e: Entry) {
    p.hash(i.run.g) == k && i.run.result == e.result && i.at == e.createdAt
  }

  /** Every stored entry is an insertion of a successful run under the same key. */
  ghost predicate StoredWasInserted(p: Params, store: map<Key, Entry>, insertions: seq<Insertion>) {
    forall k :: k in store ==> exists i :: 0 <= i < |insertions| && IsEntry(p, insertions[i], k, store[k])
  }

  ghost predicate RanBefore(runs: seq<EngineRun>, i: Insertion) {
    exists k :: 0 <= k < i.ran <= |runs| && runs[k] == i.run
  }

  ghost predicate InsertionsRan(runs: seq<EngineRun>, insertions: seq<Insertion>) {
    forall i :: 0 <= i < |insertions| ==> RanBefore(runs, insertions[i])
  }

  /** A hit repeats an insertion made before it, less than `ttl` ago; a miss repeats a run. */
  ghost predicate Justified(p: Params, insertions: seq<Insertion>, runs: seq<EngineRun>, a: Answer) {
    if a.hit then exists i :: 0 <= i < a.inserted <= |insertions| && Repeats(p, insertions[i], a)
    else EngineRun(a.g, a.result) in runs
  }

  ghost predicate Repeats(p: Params, i: Insertion, a: Answer) {
    p.hash(i.run.g) == p.hash(a.g) && i.run.result == a.result && a.at - i.at < p.ttl
  }

  ghost predicate AllJustified(p: Params, insertions: seq<Insertion>, runs: seq<EngineRun>, answers: seq<Answer>) {
    forall j :: 0 <= j < |answers| ==> Justified(p, insertions, runs, answers[j])
  }

  ghost predicate Inv(p: Params, w: World) {
    && Queued(w.shelf)
    && |w.shelf.store| <= p.max
    && StoredWasInserted(p, w.shelf.store, w.insertions)
    && InsertionsRan(w.runs, w.insertions)
    && PhasesRan(w)
    && AllJustified(p, w.insertions, w.runs, w.answers)
  }

  lemma {:induction false} PopOldestSubset(s: Shelf, max: nat)
    ensures forall k :: k in PopOldest(s, max).store ==> k in s.store && PopOldest(s, max).store[k] == s.store[k]
    decreases |s.order|
  {
    if |s.store| >= max && |s.order| > 0 {
      PopOldestSubset(Shelf(s.store - {s.order[0]}, s.order[1..]), max);
    }
  }

  /** Insertion keeps a part of the old entries and adds one. */
  lemma {:induction false} InsertedEntries(s: Shelf, k: Key, result: string, evictAt: int, createdAt: int,
                                           ttl: int, max: nat)
    ensures var t := Inserted(s, k, result, evictAt, createdAt, ttl, max);
            forall j :: j in t.store ==>
              (if j == k then t.store[j] == Entry(result, createdAt) else j in s.store && t.store[j] == s.store[j])
  {
    PopOldestSubset(Rebuilt(s.(store := Unexpired(s.store, evictAt, ttl))), max);
  }

  /** Facts about the history stay true as it grows. */
  lemma {:induction false} HistoryGrows(p: Params, w: World, insertions: seq<Insertion>, runs: seq<EngineRun>)
    requires AllJustified(p, w.insertions, w.runs, w.answers) && InsertionsRan(w.runs, w.insertions)
    requires w.insertions <= insertions && w.runs <= runs
    ensures AllJustified(p, insertions, runs, w.answers)
    ensures InsertionsRan(runs, w.insertions)
  {
    forall j | 0 <= j < |w.answers|
      ensures Justified(p, insertions, runs, w.answers[j])
    {
      var a := w.answers[j];
      assert Justified(p, w.insertions, w.runs, a);
      if a.hit {
        var i :| 0 <= i < a.inserted <= |w.insertions| && Repeats(p, w.insertions[i], a);
        assert Repeats(p, insertions[i], a);
      }
    }
    forall i | 0 <= i < |w.insertions|
      ensures RanBefore(runs, w.insertions[i])
    {
      var k :| 0 <= k < w.insertions[i].ran <= |w.runs| && w.runs[k] == w.insertions[i].run;
      assert runs[k] == w.insertions[i].run;
    }
  }

  lemma {:induction false} CheckKeeps(p: Params, w: World, c: nat, g: Graph, now: int)
    requires Inv(p, w)
    ensures Inv(p, Do(p, w, CheckStep(c, g, now)))
  {
    var w' := Do(p, w, CheckStep(c, g, now));
    assert forall d: nat {:trigger PhaseOf(w', d)} :: d != c ==> PhaseOf(w', d) == PhaseOf(w, d);
    if w'.answers != w.answers {
      var k := p.hash(g);
      var i :| 0 <= i < |w.insertions| && IsEntry(p, w.insertions[i], k, w.shelf.store[k]);
      var a := Answer(g, w.shelf.store[k].result, now, true, |w.insertions|);
      assert Repeats(p, w.insertions[i], a);
      AppendJustified(p, w.insertions, w.runs, w.answers, a);
    }
  }

  lemma {:induction false} InsertStored(p: Params, s: Shelf, insertions: seq<Insertion>, i: Insertion, evictAt: int)
    requires StoredWasInserted(p, s.store, insertions)
    ensures StoredWasInserted(p, Inserted(s, p.hash(i.run.g), i.run.result, evictAt, i.at, p.ttl, p.max).store,
                              insertions + [i])
  {
    var k := p.hash(i.run.g);
    InsertedEntries(s, k, i.run.result, evictAt, i.at, p.ttl, p.max);
    var t := Inserted(s, k, i.run.result, evictAt, i.at, p.ttl, p.max);
    var all := insertions + [i];
    forall j | j in t.store
      ensures exists n :: 0 <= n < |all| && IsEntry(p, all[n], j, t.store[j])
    {
      if j == k {
        assert IsEntry(p, all[|insertions|], j, t.store[j]);
      } else {
        var n :| 0 <= n < |insertions| && IsEntry(p, insertions[n], j, s.store[j]);
        assert IsEntry(p, all[n], j, t.store[j]);
      }
    }
  }

  lemma {:induction false} AppendRan(runs: seq<EngineRun>, insertions: seq<Insertion>, i: Insertion)
    requires InsertionsRan(runs, insertions) && i.run in runs && i.ran == |runs|
    ensures InsertionsRan(runs, insertions + [i])
  {
    var k :| 0 <= k < |runs| && runs[k] == i.run;
    assert RanBefore(runs, i);
  }

  lemma {:induction false} AppendJustified(p: Params, insertions: seq<Insertion>, runs: seq<EngineRun>,
                                           answers: seq<Answer>, a: Answer)
    requires AllJustified(p, insertions, runs, answers) && Justified(p, insertions, runs, a)
    ensures AllJustified(p, insertions, runs, answers + [a])
  {
  }

  ghost predicate PhasesRan(w: World) {
    forall c: nat {:trigger PhaseOf(w, c)} :: PhaseOf(w, c).Ran? ==>
      EngineRun(PhaseOf(w, c).g, PhaseOf(w, c).result) in w.runs
  }

  lemma {:induction false} PhasesKept(w: World, w': World, c: nat)
    requires PhasesRan(w) && w'.runs == w.runs && w'.phases == w.phases[c := Outside]
    ensures PhasesRan(w')
  {
    assert PhaseOf(w', c) == Outside;
    assert forall d: nat {:trigger PhaseOf(w', d)} :: d != c ==> PhaseOf(w', d) == PhaseOf(w, d);
  }

  lemma {:induction false} InsertKeeps(p: Params, w: World, c: nat, evictAt: int, createdAt: int)
    requires Inv(p, w) && p.max >= 1 && PhaseOf(w, c).Ran?
    ensures Inv(p, Do(p, w, InsertStep(c, evictAt, createdAt)))
  {
    var w' := Do(p, w, InsertStep(c, evictAt, createdAt));
    var run := EngineRun(PhaseOf(w, c).g, PhaseOf(w, c).result);
    var i := Insertion(run, createdAt, |w.runs|);
    InsertStored(p, w.shelf, w.insertions, i, evictAt);
    HistoryGrows(p, w, w'.insertions, w.runs);
    InsertedBounds(w.shelf, p.hash(run.g), run.result, evictAt, createdAt, p.ttl, p.max);
    AppendRan(w.runs, w.insertions, i);
    AppendJustified(p, w'.insertions, w.runs, w.answers, Answer(run.g, run.result, createdAt, false, |w.insertions|));
    PhasesKept(w, w', c);
  }

  lemma {:induction false} StepKeeps(p: Params, w: World, step: Step)
    requires Inv(p, w) && p.max >= 1
    ensures Inv(p, Do(p, w, step))
  {
    var w' := Do(p, w, step);
    match step {
      case CheckStep(c, g, now) => CheckKeeps(p, w, c, g, now);
      case InsertStep(c, evictAt, createdAt) =>
        if PhaseOf(w, c).Ran? {
          InsertKeeps(p, w, c, evictAt, createdAt);
        }
      case RunSucceeds(c, _) =>
        assert forall d: nat {:trigger PhaseOf(w', d)} :: d != c ==> PhaseOf(w', d) == PhaseOf(w, d);
        HistoryGrows(p, w, w.insertions, w'.runs);
      case RunFails(c) =>
        assert forall d: nat {:trigger PhaseOf(w', d)} :: d != c ==> PhaseOf(w', d) == PhaseOf(w, d);
      case ClearStep =>
        assert forall d: nat {:trigger PhaseOf(w', d)} :: PhaseOf(w', d) == PhaseOf(w, d);
    }
  }

  lemma {:induction false} RunKeeps(p: Params, steps: seq<Step>)
    requires p.max >= 1
    ensures Inv(p, Run(p, steps))
  {
    if steps != [] {
      RunKeeps(p, steps[..|steps| - 1]);
      StepKeeps(p, Run(p, steps[..|steps| - 1]), steps[|steps| - 1]);
    }
  }

  /** In every interleaving, overlapping misses on one key included, the store never
      exceeds its limit and every stored key is in the queue. */
  lemma {:induction false} AlwaysBounded(p: Params, steps: seq<Step>)
    requires p.max >= 1
    ensures var s := Run(p, steps).shelf;
            |s.store| <= p.max && Queued(s)
  {
    RunKeeps(p, steps);
  }

  /** In every interleaving, a hit returns what an earlier successful run of a graph with
      the same key produced and inserted, before the hit and less than `ttl` ago. */
  lemma {:induction false} HitsAreRecent(p: Params, steps: seq<Step>, j: nat) returns (i: nat)
    requires p.max >= 1 && j < |Run(p, steps).answers| && Run(p, steps).answers[j].hit
    ensures i < Run(p, steps).answers[j].inserted <= |Run(p, steps).insertions|
    ensures Repeats(p, Run(p, steps).insertions[i], Run(p, steps).answers[j])
    ensures RanBefore(Run(p, steps).runs, Run(p, steps).insertions[i])
  {
    RunKeeps(p, steps);
    var w := Run(p, steps);
    assert Justified(p, w.insertions, w.runs, w.answers[j]);
    i :| 0 <= i < w.answers[j].inserted <= |w.insertions| && Repeats(p, w.insertions[i], w.answers[j]);
  }

  /** With a deterministic engine and keys that separate graphs, every answer, cached or
      not, is what the bare engine returns. */
  lemma {:induction false} Transparent(p: Params, steps: seq<Step>, engine: Graph -> string, j: nat)
    requires p.max >= 1 && j < |Run(p, steps).answers|
    requires forall g, h :: p.hash(g) == p.hash(h) ==> g == h
    requires forall r :: r in Run(p, steps).runs ==> r.result == engine(r.g)
    ensures Run(p, steps).answers[j].result == engine(Run(p, steps).answers[j].g)
  {
    RunKeeps(p, steps);
    var w := Run(p, steps);
    assert Justified(p, w.insertions, w.runs, w.answers[j]);
    if w.answers[j].hit {
      var i := HitsAreRecent(p, steps, j);
    }
  }
}
