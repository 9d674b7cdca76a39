/** The client's calls on the crashing store: a run of the store protocol whose calls are made
    by `Submit`, `Resume`, deletes and purges (client.go) is a run of the task life cycle, so
    what holds of the life cycle holds of the file on disk, whatever crashes. */
module ClientProtocol {
  import opened Common
  import opened TaskStore
  import StoreProtocol
  import TaskLifecycle

  type State = StoreProtocol.State
  type Step = StoreProtocol.Step

  // ---------- where the committed operations come from ----------

  /** A save by `Submit`; a save by a `Resume` that ended so after event `load` had given it
      the records; or a delete or a purge. */
  datatype Origin = Submission | Resumption(load: nat, outcome: TaskLifecycle.ResumeOutcome) | Removal

  ghost predicate SubmitsId(log: seq<StoreProtocol.Entry>, origins: seq<Origin>, i: nat, id: string) {
    i < |log| && i < |origins| && origins[i].Submission? && log[i].call.CallSave? && log[i].call.record.id == id
  }

  /** A submitted id is new. */
  ghost predicate IsSubmission(r: State, base: seq<TaskRecord>, origins: seq<Origin>, i: nat)
    requires i < |r.log|
  {
    && r.log[i].call.CallSave?
    && Find(base, r.log[i].call.record.id).None?
    && forall j :: 0 <= j < i ==> !SubmitsId(r.log, origins, j, r.log[i].call.record.id)
  }

  /** The record is the loaded one, settled; the load had returned before. */
  ghost predicate IsResumption(r: State, i: nat, load: nat, o: TaskLifecycle.ResumeOutcome)
    requires i < |r.log|
  {
    && r.log[i].call.CallSave?
    && load < |r.events| && r.events[load].at <= i && r.events[load].outcome.ReadOk?
    && var found := Find(r.events[load].outcome.records, r.log[i].call.record.id);
       && found.Some? && !TaskLifecycle.Terminal(found.value)
       && r.log[i].call.record == TaskLifecycle.SettledRecord(found.value, o)
  }

  ghost predicate FromClient(r: State, base: seq<TaskRecord>, origins: seq<Origin>, i: nat)
    requires i < |r.log| == |origins|
  {
    match origins[i]
    case Submission => IsSubmission(r, base, origins, i)
    case Resumption(load, o) => IsResumption(r, i, load, o)
    case Removal => r.log[i].call.CallDelete? || r.log[i].call.CallPurge?
  }

  /** A run of the protocol in which every committed operation is the client's. */
  ghost predicate ClientRun(s: State, base: seq<TaskRecord>, steps: seq<Step>, origins: seq<Origin>) {
    && StoreProtocol.Initial(s, base) && UniqueIds(base)
    && |origins| == |StoreProtocol.Run(s, steps).log|
    && forall i :: 0 <= i < |origins| ==> FromClient(StoreProtocol.Run(s, steps), base, origins, i)
  }

  // ---------- the life cycle's log ----------

  /** A point of the log whose records the load saw. */
  ghost predicate SawAt(r: State, base: seq<TaskRecord>, load: nat, p: nat) {
    && load < |r.events| && r.events[load].outcome.ReadOk?
    && p <= r.events[load].at <= |r.log|
    && r.events[load].outcome.records == Replay(base, StoreProtocol.Ops(r.log[..p]))
  }

  lemma {:induction false} LoadsSaw(s: State, base: seq<TaskRecord>, steps: seq<Step>, load: nat)
    requires StoreProtocol.Initial(s, base)
    requires load < |StoreProtocol.Run(s, steps).events| && StoreProtocol.Run(s, steps).events[load].outcome.ReadOk?
    ensures exists p: nat :: SawAt(StoreProtocol.Run(s, steps), base, load, p)
  {
    StoreProtocol.ReturnsAreAtomic(s, base, steps, load);
    var r := StoreProtocol.Run(s, steps);
    var e := r.events[load];
    var p: nat :| e.t.from <= p <= e.at <= |r.log| && e.outcome.records == Replay(base, StoreProtocol.Ops(r.log[..p]));
    assert SawAt(r, base, load, p);
  }

  /** The life cycle's event for a committed operation. */
  ghost function EventFor(r: State, base: seq<TaskRecord>, origins: seq<Origin>, i: nat): TaskLifecycle.Event
    requires i < |r.log| == |origins|
  {
    match r.log[i].op
    case Save(x, now) =>
      if origins[i].Resumption? && exists p: nat :: SawAt(r, base, origins[i].load, p)
      then
        var p: nat :| SawAt(r, base, origins[i].load, p);
        TaskLifecycle.Settled(p, x.id, origins[i].outcome, now)
      else TaskLifecycle.Submitted(x, now)
    case Delete(id) => TaskLifecycle.Deleted(id)
    case Purge(cutoff) => TaskLifecycle.Purged(cutoff)
  }

  ghost function Events(r: State, base: seq<TaskRecord>, origins: seq<Origin>): (log: seq<TaskLifecycle.Event>)
    requires |r.log| == |origins|
    ensures |log| == |r.log|
  {
    seq(|r.log|, i requires 0 <= i < |r.log| => EventFor(r, base, origins, i))
  }

  /** The store of the life cycle after `n` events is the replay of `n` committed operations. */
  ghost predicate Agrees(r: State, base: seq<TaskRecord>, origins: seq<Origin>, n: nat)
    requires n <= |r.log| == |origins|
  {
    TaskLifecycle.StoreAt(base, Events(r, base, origins), n) == Replay(base, StoreProtocol.Ops(r.log[..n]))
  }

  /** The facts about one event of a client's run. */
  lemma {:induction false} EventFacts(s: State, base: seq<TaskRecord>, steps: seq<Step>, origins: seq<Origin>, i: nat)
    requires ClientRun(s, base, steps, origins) && i < |origins|
    ensures var r := StoreProtocol.Run(s, steps);
            var e, x := EventFor(r, base, origins, i), r.log[i];
            && StoreProtocol.Fits(x.op, x.call, x.reading)
            && (origins[i].Submission? ==> x.op.Save? && e == TaskLifecycle.Submitted(x.op.record, x.op.now))
            && (origins[i].Resumption? ==>
                  x.op.Save? && e.Settled? && e.id == x.op.record.id && e.outcome == origins[i].outcome
                  && e.now == x.op.now && e.loadedAt <= i && SawAt(r, base, origins[i].load, e.loadedAt))
            && (origins[i].Removal? ==> !x.op.Save?)
            && (x.op.Delete? ==> e == TaskLifecycle.Deleted(x.op.id))
            && (x.op.Purge? ==> e == TaskLifecycle.Purged(x.op.cutoff))
  {
    StoreProtocol.CommittedOnce(s, base, steps, i, i);
    assert FromClient(StoreProtocol.Run(s, steps), base, origins, i);
    if origins[i].Resumption? {
      LoadsSaw(s, base, steps, origins[i].load);
    }
  }

  lemma {:induction false} StoreAgrees(s: State, base: seq<TaskRecord>, steps: seq<Step>, origins: seq<Origin>, n: nat)
    requires ClientRun(s, base, steps, origins) && n <= |origins|
    ensures Agrees(StoreProtocol.Run(s, steps), base, origins, n)
    decreases n, 0
  {
    var r := StoreProtocol.Run(s, steps);
    if n == 0 {
      assert r.log[..0] == [];
    } else {
      StoreAgrees(s, base, steps, origins, n - 1);
      OperationAgrees(s, base, steps, origins, n - 1);
      OpsNext(r.log, n - 1, base);
    }
  }

  lemma {:induction false} OpsNext(log: seq<StoreProtocol.Entry>, n: nat, base: seq<TaskRecord>)
    requires n < |log|
    ensures Replay(base, StoreProtocol.Ops(log[..n + 1])) == Apply(log[n].op, Replay(base, StoreProtocol.Ops(log[..n])))
  {
    assert log[..n + 1] == log[..n] + [log[n]];
    StoreProtocol.OpsAppend(log[..n], log[n], base);
  }

  /** Each event of the life cycle commits the operation it stands for. */
  lemma {:induction false} OperationAgrees(s: State, base: seq<TaskRecord>, steps: seq<Step>, origins: seq<Origin>,
                                           i: nat)
    requires ClientRun(s, base, steps, origins) && i < |origins|
    ensures var r := StoreProtocol.Run(s, steps);
            TaskLifecycle.OpAt(base, Events(r, base, origins), i) == r.log[i].op
    decreases i, 1
  {
    var r := StoreProtocol.Run(s, steps);
    EventFacts(s, base, steps, origins, i);
    if origins[i].Resumption? {
      var e := EventFor(r, base, origins, i);
      StoreAgrees(s, base, steps, origins, e.loadedAt);
      assert FromClient(r, base, origins, i);
      assert IsResumption(r, i, origins[i].load, origins[i].outcome);
    }
  }

  // ---------- the theorem ----------

  /** An event of a client's run is possible at its place. */
  lemma {:induction false} EventValid(s: State, base: seq<TaskRecord>, steps: seq<Step>, origins: seq<Origin>, i: nat)
    requires ClientRun(s, base, steps, origins) && i < |origins|
    ensures TaskLifecycle.ValidAt(base, Events(StoreProtocol.Run(s, steps), base, origins), i)
  {
    var r := StoreProtocol.Run(s, steps);
    var log := Events(r, base, origins);
    EventFacts(s, base, steps, origins, i);
    assert FromClient(r, base, origins, i);
    if origins[i].Submission? {
      var id := r.log[i].op.record.id;
      forall k | 0 <= k < i && TaskLifecycle.SubmittedAt(log, k, id)
        ensures SubmitsId(r.log, origins, k, id)
      {
        EventFacts(s, base, steps, origins, k);
        assert FromClient(r, base, origins, k);
      }
    } else if origins[i].Resumption? {
      var e := log[i];
      StoreAgrees(s, base, steps, origins, e.loadedAt);
      assert IsResumption(r, i, origins[i].load, origins[i].outcome);
      assert r.log[i].call.record.id == e.id;
    }
  }

  /** Every protocol run of the client's calls, with every crash and every leftover file, is a
      valid run of the life cycle, and the visible file is that run's store. */
  lemma {:induction false} ClientRunIsLifecycle(s: State, base: seq<TaskRecord>, steps: seq<Step>, origins: seq<Origin>)
    requires ClientRun(s, base, steps, origins)
    ensures var r := StoreProtocol.Run(s, steps);
            var log := Events(r, base, origins);
            && TaskLifecycle.Valid(base, log)
            && StoreProtocol.Visible(r.disk) == Ok(TaskLifecycle.StoreAt(base, log, |log|))
  {
    var r := StoreProtocol.Run(s, steps);
    var log := Events(r, base, origins);
    forall i | 0 <= i < |log|
      ensures TaskLifecycle.ValidAt(base, log, i)
    {
      EventValid(s, base, steps, origins, i);
    }
    StoreAgrees(s, base, steps, origins, |origins|);
    StoreProtocol.VisibleIsReplay(s, base, steps);
    assert r.log[..|r.log|] == r.log;
  }

  // ---------- no crash loses a submitted task ----------

  /** The entry ends the task: a delete of it, or a save by one of its resumes. */
  ghost predicate EndsTask(e: StoreProtocol.Entry, origin: Origin, id: string) {
    (e.call == StoreProtocol.CallDelete(id)) || (origin.Resumption? && e.call.CallSave? && e.call.record.id == id)
  }

  /** Once the save of a pending task's `Submit` has returned, `RecoverPending` finds the task
      in the visible file, once, however many calls and processes crash: until a delete of it
      or the save of one of its resumes is committed. */
  lemma {:induction false} SubmittedSurvives(s: State, base: seq<TaskRecord>, steps: seq<Step>, origins: seq<Origin>,
                                             k: nat, m: nat)
    requires ClientRun(s, base, steps, origins)
    requires var r := StoreProtocol.Run(s, steps);
             && k < |r.events| && r.events[k].outcome == StoreProtocol.WriteOk(m) && r.events[k].t.call.CallSave?
             && m < |origins| && origins[m].Submission? && r.events[k].t.call.record.status == PENDING
             && forall i :: m < i < |origins| ==> !EndsTask(r.log[i], origins[i], r.events[k].t.call.record.id)
    ensures var r := StoreProtocol.Run(s, steps);
            var rec := r.events[k].t.call.record;
            && r.log[m].op.Save? && StoreProtocol.Visible(r.disk).Ok?
            && UniqueIds(StoreProtocol.Visible(r.disk).value)
            && rec.(updatedAt := r.log[m].op.now) in TaskLifecycle.Pending(StoreProtocol.Visible(r.disk).value)
  {
    var r := StoreProtocol.Run(s, steps);
    var log := Events(r, base, origins);
    ClientRunIsLifecycle(s, base, steps, origins);
    StoreProtocol.ReturnsAreAtomic(s, base, steps, k);
    EventFacts(s, base, steps, origins, m);
    forall i | m < i < |log|
      ensures !TaskLifecycle.Ends(log[i], log[m].record.id)
    {
      EventFacts(s, base, steps, origins, i);
      assert FromClient(r, base, origins, i);
    }
    TaskLifecycle.SubmittedIsRecovered(base, log, m, |log|);
  }

  // ---------- what the file on disk shows over time ----------

  /** What the visible file holds for a task after the first `n` steps. */
  ghost function OnDisk(s: State, steps: seq<Step>, n: nat, id: string): Option<TaskRecord>
    requires n <= |steps|
  {
    match StoreProtocol.Visible(StoreProtocol.Run(s, steps[..n]).disk)
    case Ok(rs) => Find(rs, id)
    case Err(_) => None
  }

  /** Every state on the way shows the store of the life cycle at some earlier event. */
  lemma {:induction false} OnDiskIsRecord(s: State, base: seq<TaskRecord>, steps: seq<Step>, origins: seq<Origin>,
                                          n: nat, id: string) returns (e: nat)
    requires ClientRun(s, base, steps, origins) && n <= |steps|
    ensures e == |StoreProtocol.Run(s, steps[..n]).log| <= |origins|
    ensures var log := Events(StoreProtocol.Run(s, steps), base, origins);
            OnDisk(s, steps, n, id) == TaskLifecycle.RecordAt(base, log, e, id)
  {
    var r := StoreProtocol.Run(s, steps);
    e := |StoreProtocol.Run(s, steps[..n]).log|;
    StoreProtocol.LogGrows(s, steps, n);
    StoreProtocol.VisibleIsReplay(s, base, steps[..n]);
    StoreAgrees(s, base, steps, origins, e);
    assert r.log[..e] == StoreProtocol.Run(s, steps[..n]).log;
  }

  lemma {:induction false} EarlierLog(s: State, steps: seq<Step>, a: nat, b: nat)
    requires a <= b <= |steps|
    ensures |StoreProtocol.Run(s, steps[..a]).log| <= |StoreProtocol.Run(s, steps[..b]).log|
  {
    StoreProtocol.LogGrows(s, steps[..b], a);
    assert steps[..b][..a] == steps[..a];
  }

  /** On disk, too, a task that has left pending never becomes pending again, and its id,
      engine, remote id and creation time never change. */
  lemma {:induction false} DiskTellsOneStory(s: State, base: seq<TaskRecord>, steps: seq<Step>, origins: seq<Origin>,
                                             a: nat, b: nat, id: string)
    requires ClientRun(s, base, steps, origins) && a <= b <= |steps|
    requires OnDisk(s, steps, a, id).Some? && OnDisk(s, steps, b, id).Some?
    ensures TaskLifecycle.SameTask(OnDisk(s, steps, a, id).value, OnDisk(s, steps, b, id).value)
    ensures OnDisk(s, steps, a, id).value.status != PENDING ==> OnDisk(s, steps, b, id).value.status != PENDING
  {
    var log := Events(StoreProtocol.Run(s, steps), base, origins);
    ClientRunIsLifecycle(s, base, steps, origins);
    var m := OnDiskIsRecord(s, base, steps, origins, a, id);
    var n := OnDiskIsRecord(s, base, steps, origins, b, id);
    EarlierLog(s, steps, a, b);
    TaskLifecycle.IdentityNeverChanges(base, log, m, n, id);
    if OnDisk(s, steps, a, id).value.status != PENDING {
      TaskLifecycle.PresentIsKnown(base, log, m, id);
      TaskLifecycle.NeverPendingAgain(base, log, m, n, id);
    }
  }
}
