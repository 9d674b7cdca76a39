/** The entry list of the local searcher and its path index (material/local/local.go):
    `loadIndex`, the two locked phases of `IndexFile`, and `RemoveStale`. */
module VectorIndex {
  import opened Common
  import opened Heap

  // ---------- the two structures ----------

  datatype Index = Index(entries: seq<IndexEntry>, pathIndex: map<string, nat>)

  /** `pathIndex` is the exact inverse of the entries' paths. */
  ghost predicate Inverse(x: Index) {
    && (forall i :: 0 <= i < |x.entries| ==>
          x.entries[i].path in x.pathIndex && x.pathIndex[x.entries[i].path] == i)
    && (forall p :: p in x.pathIndex ==>
          x.pathIndex[p] < |x.entries| && x.entries[x.pathIndex[p]].path == p)
  }

  ghost predicate UniquePaths(entries: seq<IndexEntry>) {
    forall i, j :: 0 <= i < j < |entries| ==> entries[i].path != entries[j].path
  }

  /** The index built by one pass over a list: the last position of each path. */
  function IndexOver(entries: seq<IndexEntry>): map<string, nat> {
    if entries == [] then map[]
    else IndexOver(entries[..|entries| - 1])[entries[|entries| - 1].path := |entries| - 1]
  }

  /** The write phase: update in place or append. */
  function Committed(x: Index, e: IndexEntry): Index
    requires Inverse(x)
  {
    if e.path in x.pathIndex
    then x.(entries := x.entries[x.pathIndex[e.path] := e])
    else Index(x.entries + [e], x.pathIndex[e.path := |x.entries|])
  }

  function Existing(entries: seq<IndexEntry>, disk: set<string>): seq<IndexEntry> {
    if entries == [] then []
    else
      Existing(entries[..|entries| - 1], disk)
      + if entries[|entries| - 1].path in disk then [entries[|entries| - 1]] else []
  }

  function Pruned(x: Index, disk: set<string>): Index {
    Index(Existing(x.entries, disk), IndexOver(Existing(x.entries, disk)))
  }

  /** The index read as a table from paths to entries. */
  ghost function Table(x: Index): map<string, IndexEntry>
    requires Inverse(x)
  {
    map p | p in x.pathIndex :: x.entries[x.pathIndex[p]]
  }

  // ---------- facts ----------

  /** The map leads each of its paths to an entry of that path, and knows every path, by its
      last entry. */
  ghost predicate LeadsToLast(m: map<string, nat>, entries: seq<IndexEntry>) {
    && (forall p :: p in m ==> m[p] < |entries| && entries[m[p]].path == p)
    && (forall i :: 0 <= i < |entries| ==> entries[i].path in m && i <= m[entries[i].path])
  }

  lemma {:induction false} LeadsToAppended(m: map<string, nat>, front: seq<IndexEntry>, e: IndexEntry)
    requires LeadsToLast(m, front)
    ensures LeadsToLast(m[e.path := |front|], front + [e])
  {
  }

  lemma {:induction false} IndexOverFacts(entries: seq<IndexEntry>)
    ensures LeadsToLast(IndexOver(entries), entries)
  {
    if entries != [] {
      var n := |entries| - 1;
      IndexOverFacts(entries[..n]);
      LeadsToAppended(IndexOver(entries[..n]), entries[..n], entries[n]);
      assert entries[..n] + [entries[n]] == entries;
    }
  }

  /** A loaded index is an exact inverse if and only if the file has no duplicate path. */
  lemma {:induction false} LoadedInverseIff(entries: seq<IndexEntry>)
    ensures Inverse(Index(entries, IndexOver(entries))) <==> UniquePaths(entries)
  {
    IndexOverFacts(entries);
    if UniquePaths(entries) {
      forall i | 0 <= i < |entries|
        ensures IndexOver(entries)[entries[i].path] == i
      {
        var k := IndexOver(entries)[entries[i].path];
        assert entries[k].path == entries[i].path;
      }
    }
  }

  lemma {:induction false} InverseIsUnique(x: Index)
    requires Inverse(x)
    ensures UniquePaths(x.entries)
  {
  }

  /** What is kept: exactly the entries whose file exists, each as often as before, in order. */
  lemma {:induction false} ExistingFacts(entries: seq<IndexEntry>, disk: set<string>)
    ensures forall e :: e in Existing(entries, disk) <==> e in entries && e.path in disk
    ensures |Existing(entries, disk)| <= |entries|
  {
    if entries != [] {
      var n := |entries| - 1;
      ExistingFacts(entries[..n], disk);
      assert entries == entries[..n] + [entries[n]];
    }
  }

  lemma {:induction false} ExistingUnique(entries: seq<IndexEntry>, disk: set<string>)
    requires UniquePaths(entries)
    ensures UniquePaths(Existing(entries, disk))
  {
    if entries != [] {
      var n := |entries| - 1;
      var kept := Existing(entries[..n], disk);
      ExistingUnique(entries[..n], disk);
      ExistingFacts(entries[..n], disk);
      forall i | 0 <= i < |kept|
        ensures kept[i].path != entries[n].path
      {
        assert kept[i] in kept;
      }
    }
  }

  /** Order is kept: what precedes in the result preceded before. */
  lemma {:induction false} ExistingInOrder(entries: seq<IndexEntry>, disk: set<string>, i: nat, j: nat)
      returns (i': nat, j': nat)
    requires i < j < |Existing(entries, disk)|
    ensures i' < j' < |entries|
    ensures entries[i'] == Existing(entries, disk)[i] && entries[j'] == Existing(entries, disk)[j]
  {
    var n := |entries| - 1;
    var kept := Existing(entries[..n], disk);
    if j < |kept| {
      i', j' := ExistingInOrder(entries[..n], disk, i, j);
    } else {
      assert kept[i] in kept;
      ExistingFacts(entries[..n], disk);
      i' :| 0 <= i' < n && entries[..n][i'] == kept[i];
      j' := n;
    }
  }

  lemma {:induction false} CommittedInverse(x: Index, e: IndexEntry)
    requires Inverse(x)
    ensures Inverse(Committed(x, e))
  {
  }

  lemma {:induction false} CommittedKeeps(x: Index, e: IndexEntry)
    requires Inverse(x)
    ensures Inverse(Committed(x, e))
    ensures Table(Committed(x, e)) == Table(x)[e.path := e]
  {
    CommittedInverse(x, e);
    var y := Committed(x, e);
    forall p | p in y.pathIndex
      ensures y.entries[y.pathIndex[p]] == if p == e.path then e else x.entries[x.pathIndex[p]]
    {
      assert p != e.path && e.path in x.pathIndex ==> x.pathIndex[p] != x.pathIndex[e.path];
    }
  }

  lemma {:induction false} PrunedKeeps(x: Index, disk: set<string>)
    requires Inverse(x)
    ensures Inverse(Pruned(x, disk))
    ensures Table(Pruned(x, disk)) == map p | p in Table(x) && p in disk :: Table(x)[p]
  {
    InverseIsUnique(x);
    ExistingFacts(x.entries, disk);
    ExistingUnique(x.entries, disk);
    LoadedInverseIff(Existing(x.entries, disk));
    var y := Pruned(x, disk);
    forall p
      ensures p in y.pathIndex <==> p in x.pathIndex && p in disk
      ensures p in y.pathIndex ==> y.entries[y.pathIndex[p]] == x.entries[x.pathIndex[p]]
    {
      if p in y.pathIndex {
        assert y.entries[y.pathIndex[p]] in y.entries;
      }
      if p in x.pathIndex && p in disk {
        assert x.entries[x.pathIndex[p]] in y.entries;
      }
    }
  }

  // ---------- the searcher ----------

  class Searcher {
    var entries: seq<IndexEntry>
    var pathIndex: map<string, nat>

    ghost function Both(): Index
      reads this
    {
      Index(entries, pathIndex)
    }

    constructor (loaded: seq<IndexEntry>)
      ensures entries == loaded && pathIndex == IndexOver(loaded)
    {
      entries := loaded;
      pathIndex := map[];
      new;
      for i := 0 to |loaded|
        invariant entries == loaded && pathIndex == IndexOver(loaded[..i])
      {
        assert loaded[..i + 1][..i] == loaded[..i];
        pathIndex := pathIndex[loaded[i].path := i];
      }
      assert loaded[..|loaded|] == loaded;
    }

    /** The read phase of `IndexFile`: whether the file is indexed unchanged. */
    method Unchanged(path: string, size: int, modTime: int) returns (same: bool)
      requires Inverse(Both())
      ensures same <==> path in Table(Both()) && Table(Both())[path].size == size
                        && Table(Both())[path].modTime == modTime
    {
      same := false;
      if path in pathIndex {
        var existing := entries[pathIndex[path]];
        same := existing.size == size && existing.modTime == modTime;
      }
    }

    /** The write phase of `IndexFile`. */
    method Commit(e: IndexEntry)
      requires Inverse(Both())
      modifies this
      ensures Both() == Committed(old(Both()), e)
    {
      if e.path in pathIndex {
        entries := entries[pathIndex[e.path] := e];
      } else {
        pathIndex := pathIndex[e.path := |entries|];
        entries := entries + [e];
      }
    }

    /** `RemoveStale`, with the paths that exist on disk. */
    method RemoveStale(disk: set<string>) returns (removed: nat)
      modifies this
      ensures Both() == Pruned(old(Both()), disk)
      ensures removed == |old(entries)| - |entries|
    {
      var kept: seq<IndexEntry> := [];
      var newIndex: map<string, nat> := map[];
      removed := 0;
      for i := 0 to |entries|
        invariant entries == old(entries) && pathIndex == old(pathIndex)
        invariant kept == Existing(entries[..i], disk)
        invariant newIndex == IndexOver(kept)
        invariant removed == i - |kept|
      {
        assert entries[..i + 1][..i] == entries[..i];
        if entries[i].path !in disk {
          removed := removed + 1;
          continue;
        }
        newIndex := newIndex[entries[i].path := |kept|];
        ghost var before := kept;
        kept := kept + [entries[i]];
        assert kept[..|before|] == before;
      }
      assert entries[..|entries|] == entries;
      entries := kept;
      pathIndex := newIndex;
    }
  }

  // ---------- interleaved calls ----------

  /** A call of `IndexFile` between its two phases holds the entry it will write. */
  datatype Call = Resting | Embedding(e: IndexEntry)

  datatype System = System(index: Index, calls: map<nat, Call>)

  datatype Step =
    | ReadPhase(caller: nat, e: IndexEntry)
    | EmbedFails(caller: nat)
    | WritePhase(caller: nat)
    | Prune(disk: set<string>)

  function CallOf(s: System, c: nat): Call {
    if c in s.calls then s.calls[c] else Resting
  }

  function Do(s: System, step: Step): System
    requires Inverse(s.index)
  {
    match step
    case ReadPhase(c, e) =>
      if CallOf(s, c).Embedding? then s
      else if e.path in s.index.pathIndex
              && s.index.entries[s.index.pathIndex[e.path]].size == e.size
              && s.index.entries[s.index.pathIndex[e.path]].modTime == e.modTime
      then s
      else s.(calls := s.calls[c := Embedding(e)])
    case EmbedFails(c) => s.(calls := s.calls[c := Resting])
    case WritePhase(c) =>
      if CallOf(s, c).Resting? then s
      else System(Committed(s.index, CallOf(s, c).e), s.calls[c := Resting])
    case Prune(disk) => s.(index := Pruned(s.index, disk))
  }

  /** A run; its invariant is what makes every read-phase index fall inside the entries. */
  ghost function Run(s: System, steps: seq<Step>): (r: System)
    requires Inverse(s.index)
    ensures Inverse(r.index)
  {
    if steps == [] then s
    else
      var before := Run(s, steps[..|steps| - 1]);
      StepKeeps(before, steps[|steps| - 1]);
      Do(before, steps[|steps| - 1])
  }

  lemma {:induction false} StepKeeps(s: System, step: Step)
    requires Inverse(s.index)
    ensures Inverse(Do(s, step).index)
  {
    match step {
      case WritePhase(c) =>
        if CallOf(s, c).Embedding? {
          CommittedKeeps(s.index, CallOf(s, c).e);
        }
      case Prune(disk) => PrunedKeeps(s.index, disk);
      case _ =>
    }
  }

  /** The read phase goes on to embed the file unless its path is indexed with the same size
      and modification time; either way the index is left alone. */
  lemma {:induction false} ReadPhaseIff(s: System, c: nat, e: IndexEntry)
    requires Inverse(s.index) && CallOf(s, c) == Resting
    ensures Do(s, ReadPhase(c, e)).index == s.index
    ensures CallOf(Do(s, ReadPhase(c, e)), c) == Embedding(e)
       <==> !(e.path in Table(s.index) && Table(s.index)[e.path].size == e.size
              && Table(s.index)[e.path].modTime == e.modTime)
    ensures forall b :: b != c ==> CallOf(Do(s, ReadPhase(c, e)), b) == CallOf(s, b)
  {
  }

  /** A caller that is embedding one file starts no other. */
  lemma {:induction false} OneFileAtATime(s: System, c: nat, e: IndexEntry)
    requires Inverse(s.index) && CallOf(s, c).Embedding?
    ensures Do(s, ReadPhase(c, e)) == s
  {
  }

  /** An undisturbed `IndexFile` whose embedding succeeds: afterwards the path holds the new
      entry and every other path what it held, and indexing the unchanged file again does
      nothing at all. */
  lemma {:induction false} IndexedOnce(s: System, c: nat, e: IndexEntry, again: IndexEntry)
    requires Inverse(s.index) && CallOf(s, c) == Resting
    requires again.path == e.path && again.size == e.size && again.modTime == e.modTime
    ensures var read := Do(s, ReadPhase(c, e));
            && Inverse(read.index)
            && var done := Do(read, WritePhase(c));
               && Inverse(done.index) && CallOf(done, c) == Resting
               && (read != s ==> Table(done.index) == Table(s.index)[e.path := e])
               && (read == s ==> done == s)
               && Do(done, ReadPhase(c, again)) == done
  {
    var read := Do(s, ReadPhase(c, e));
    ReadPhaseIff(s, c, e);
    if CallOf(read, c) == Embedding(e) {
      CommittedKeeps(s.index, e);
      assert e.path in Table(Committed(s.index, e)) && Table(Committed(s.index, e))[e.path] == e;
    }
  }

  /** The same steps on a plain table from paths to entries. */
  ghost function DoTable(t: map<string, IndexEntry>, s: System, step: Step): map<string, IndexEntry> {
    match step
    case WritePhase(c) => if CallOf(s, c).Resting? then t else t[CallOf(s, c).e.path := CallOf(s, c).e]
    case Prune(disk) => map p | p in t && p in disk :: t[p]
    case _ => t
  }

  ghost function RunTable(s: System, steps: seq<Step>): map<string, IndexEntry>
    requires Inverse(s.index)
  {
    if steps == [] then Table(s.index)
    else
      DoTable(RunTable(s, steps[..|steps| - 1]), Run(s, steps[..|steps| - 1]), steps[|steps| - 1])
  }

  /** However the phases of any number of calls interleave with pruning, the entry list and
      its index stay one table: each path at most once, holding what was last written. */
  lemma {:induction false} RunIsTable(s: System, steps: seq<Step>)
    requires Inverse(s.index)
    ensures Inverse(Run(s, steps).index) && UniquePaths(Run(s, steps).index.entries)
    ensures Table(Run(s, steps).index) == RunTable(s, steps)
  {
    InverseIsUnique(Run(s, steps).index);
    if steps != [] {
      var front, last := steps[..|steps| - 1], steps[|steps| - 1];
      RunIsTable(s, front);
      var before := Run(s, front);
      match last {
        case WritePhase(c) =>
          if CallOf(before, c).Embedding? {
            CommittedKeeps(before.index, CallOf(before, c).e);
          }
        case Prune(disk) => PrunedKeeps(before.index, disk);
        case _ =>
      }
    }
  }
}
