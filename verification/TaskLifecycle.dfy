/** The life of a task (client.go: `Submit`, `Resume`, `RecoverPending`) over the atomic
    store. By `StoreProtocol` every run of the store is a sequence of committed operations;
    here each committed operation is an event of the client, and a `Resume` carries the
    position at which its `Load` saw the store, so overlapping resumes are covered. */
module TaskLifecycle {
  import opened Common
  import opened TaskStore

  /** What an engine run returned. */
  datatype EngineResult = EngineResult(value: string, kind: OutputKind)

  datatype ResumeOutcome = Succeeded(result: EngineResult) | Broke(message: string)

  /** The record `Submit` builds: pending with a remote id, or completed. */
  function NewRecord(id: string, engineName: string, result: EngineResult, now: int): TaskRecord {
    if result.kind == PlainText
    then TaskRecord(id, engineName, result.value, PENDING, now, now, "", Unknown, "")
    else TaskRecord(id, engineName, "", COMPLETED, now, now, result.value, result.kind, "")
  }

  /** The record `Resume` saves over the one it loaded. */
  function SettledRecord(loaded: TaskRecord, o: ResumeOutcome): TaskRecord {
    match o
    case Succeeded(r) => loaded.(status := COMPLETED, resultVal := r.value, resultKind := r.kind)
    case Broke(m) => loaded.(status := FAILED, errMsg := m)
  }

  predicate Terminal(r: TaskRecord) {
    r.status == COMPLETED || r.status == FAILED
  }

  // ---------- runs ----------

  datatype Event =
    | Submitted(record: TaskRecord, now: int)
    | Settled(loadedAt: nat, id: string, outcome: ResumeOutcome, now: int)
    | Deleted(id: string)
    | Purged(cutoff: int)

  /** The operation event `n` commits. */
  function OpAt(base: seq<TaskRecord>, log: seq<Event>, n: nat): Op
    requires n < |log|
    decreases n, 1
  {
    match log[n]
    case Submitted(r, now) => Save(r, now)
    case Settled(p, id, o, now) =>
      (match if p <= n then Find(StoreAt(base, log, p), id) else None {
         case Some(r) => Save(SettledRecord(r, o), now)
         case None => Delete(id)
       })
    case Deleted(id) => Delete(id)
    case Purged(cutoff) => Purge(cutoff)
  }

  /** The store after the first `n` events. */
  function StoreAt(base: seq<TaskRecord>, log: seq<Event>, n: nat): seq<TaskRecord>
    requires n <= |log|
    decreases n, 0
  {
    if n == 0 then base else Apply(OpAt(base, log, n - 1), StoreAt(base, log, n - 1))
  }

  /** A submitted id is new; a resume goes on only from a record that is not settled. */
  ghost predicate ValidAt(base: seq<TaskRecord>, log: seq<Event>, n: nat)
    requires n < |log|
  {
    match log[n]
    case Submitted(r, _) => !Known(base, log, n, r.id)
    case Settled(p, id, _, _) =>
      p <= n && Find(StoreAt(base, log, p), id).Some? && !Terminal(Find(StoreAt(base, log, p), id).value)
    case _ => true
  }

  ghost predicate Valid(base: seq<TaskRecord>, log: seq<Event>) {
    UniqueIds(base) && forall n :: 0 <= n < |log| ==> ValidAt(base, log, n)
  }

  ghost predicate SubmittedAt(log: seq<Event>, k: nat, id: string) {
    k < |log| && log[k].Submitted? && log[k].record.id == id
  }

  /** The id was in the store at the start or was submitted before event `n`. */
  ghost predicate Known(base: seq<TaskRecord>, log: seq<Event>, n: nat, id: string) {
    Find(base, id).Some? || exists k :: 0 <= k < n && SubmittedAt(log, k, id)
  }

  function Ops(base: seq<TaskRecord>, log: seq<Event>): seq<Op> {
    seq(|log|, i requires 0 <= i < |log| => OpAt(base, log, i))
  }

  /** The store of a run is the replay of its operations, as in the protocol. */
  lemma {:induction false} StoreIsReplay(base: seq<TaskRecord>, log: seq<Event>, n: nat)
    requires n <= |log|
    ensures StoreAt(base, log, n) == Replay(base, Ops(base, log)[..n])
  {
    if n > 0 {
      StoreIsReplay(base, log, n - 1);
      ReplayStep(base, Ops(base, log), n - 1);
    }
  }

  // ---------- one event, seen from one id ----------

  lemma {:induction false} StoreUnique(base: seq<TaskRecord>, log: seq<Event>, n: nat)
    requires UniqueIds(base) && n <= |log|
    ensures UniqueIds(StoreAt(base, log, n))
  {
    if n > 0 {
      StoreUnique(base, log, n - 1);
      FindApply(OpAt(base, log, n - 1), StoreAt(base, log, n - 1), "");
    }
  }

  ghost function RecordAt(base: seq<TaskRecord>, log: seq<Event>, n: nat, id: string): Option<TaskRecord>
    requires n <= |log|
  {
    Find(StoreAt(base, log, n), id)
  }

  /** The record of an id after event `n`. */
  ghost function RecordAfter(base: seq<TaskRecord>, log: seq<Event>, n: nat, id: string): Option<TaskRecord>
    requires n < |log| && ValidAt(base, log, n)
  {
    var r := RecordAt(base, log, n, id);
    match log[n]
    case Submitted(x, now) => if x.id == id then Some(x.(updatedAt := now)) else r
    case Settled(p, i, o, now) =>
      if i == id then Some(SettledRecord(RecordAt(base, log, p, i).value, o).(updatedAt := now)) else r
    case Deleted(d) => if d == id then None else r
    case Purged(c) => if r.Some? && r.value.status != PENDING && r.value.updatedAt <= c then None else r
  }

  lemma {:induction false} RecordStep(base: seq<TaskRecord>, log: seq<Event>, n: nat, id: string)
    requires Valid(base, log) && n < |log|
    ensures ValidAt(base, log, n)
    ensures RecordAt(base, log, n + 1, id) == RecordAfter(base, log, n, id)
  {
    StoreUnique(base, log, n);
    FindApply(OpAt(base, log, n), StoreAt(base, log, n), id);
    FindIn(StoreAt(base, log, n), id);
    assert ValidAt(base, log, n);
    if log[n].Settled? {
      FindIn(StoreAt(base, log, log[n].loadedAt), log[n].id);
    }
  }

  /** A record in the store comes from the start or from a submit. */
  lemma {:induction false} PresentIsKnown(base: seq<TaskRecord>, log: seq<Event>, n: nat, id: string)
    requires Valid(base, log) && n <= |log| && RecordAt(base, log, n, id).Some?
    ensures Known(base, log, n, id)
  {
    if n > 0 {
      RecordStep(base, log, n - 1, id);
      if SubmittedAt(log, n - 1, id) {
      } else if log[n - 1].Settled? && log[n - 1].id == id {
        assert ValidAt(base, log, n - 1);
        PresentIsKnown(base, log, log[n - 1].loadedAt, id);
      } else {
        PresentIsKnown(base, log, n - 1, id);
      }
    }
  }

  // ---------- what never changes ----------

  ghost predicate SameTask(a: TaskRecord, b: TaskRecord) {
    a.id == b.id && a.engineName == b.engineName && a.remoteID == b.remoteID && a.createdAt == b.createdAt
  }

  /** Where a record's identity was fixed. */
  ghost predicate FromOrigin(base: seq<TaskRecord>, log: seq<Event>, n: nat, r: TaskRecord) {
    || (Find(base, r.id).Some? && SameTask(Find(base, r.id).value, r))
    || exists k :: 0 <= k < n && SubmittedAt(log, k, r.id) && SameTask(log[k].record, r)
  }

  lemma {:induction false} RecordFromOrigin(base: seq<TaskRecord>, log: seq<Event>, n: nat, id: string)
    requires Valid(base, log) && n <= |log| && RecordAt(base, log, n, id).Some?
    ensures FromOrigin(base, log, n, RecordAt(base, log, n, id).value)
    ensures RecordAt(base, log, n, id).value.id == id
  {
    FindIn(StoreAt(base, log, n), id);
    if n > 0 {
      RecordStep(base, log, n - 1, id);
      if SubmittedAt(log, n - 1, id) {
        assert SameTask(log[n - 1].record, RecordAt(base, log, n, id).value);
      } else if log[n - 1].Settled? && log[n - 1].id == id {
        assert ValidAt(base, log, n - 1);
        RecordFromOrigin(base, log, log[n - 1].loadedAt, id);
      } else {
        RecordFromOrigin(base, log, n - 1, id);
      }
    }
  }

  /** The id, engine, remote id and creation time of a task never change, however submits,
      resumes, deletes and purges interleave. */
  lemma {:induction false} IdentityNeverChanges(base: seq<TaskRecord>, log: seq<Event>, m: nat, n: nat, id: string)
    requires Valid(base, log) && m <= |log| && n <= |log|
    requires RecordAt(base, log, m, id).Some? && RecordAt(base, log, n, id).Some?
    ensures var a, b := RecordAt(base, log, m, id).value, RecordAt(base, log, n, id).value;
            && a.id == b.id == id && a.engineName == b.engineName && a.remoteID == b.remoteID
            && a.createdAt == b.createdAt && SameTask(a, b)
  {
    RecordFromOrigin(base, log, m, id);
    RecordFromOrigin(base, log, n, id);
    forall j, k | 0 <= j < k < |log| && SubmittedAt(log, j, id)
      ensures !SubmittedAt(log, k, id)
    {
      assert ValidAt(base, log, k);
    }
    forall k | 0 <= k < |log| && Find(base, id).Some?
      ensures !SubmittedAt(log, k, id)
    {
      assert ValidAt(base, log, k);
    }
  }

  // ---------- pending ----------

  ghost predicate PendingAt(base: seq<TaskRecord>, log: seq<Event>, n: nat, id: string)
    requires n <= |log|
  {
    RecordAt(base, log, n, id).Some? && RecordAt(base, log, n, id).value.status == PENDING
  }

  lemma {:induction false} KnownStays(base: seq<TaskRecord>, log: seq<Event>, m: nat, n: nat, id: string)
    requires m <= n && Known(base, log, m, id)
    ensures Known(base, log, n, id)
  {
  }

  /** A task that has left pending never becomes pending again. */
  lemma {:induction false} NeverPendingAgain(base: seq<TaskRecord>, log: seq<Event>, m: nat, n: nat, id: string)
    requires Valid(base, log) && m <= n <= |log|
    requires Known(base, log, m, id) && !PendingAt(base, log, m, id)
    ensures !PendingAt(base, log, n, id)
    decreases n
  {
    if m < n {
      NeverPendingAgain(base, log, m, n - 1, id);
      RecordStep(base, log, n - 1, id);
      KnownStays(base, log, m, n - 1, id);
    }
  }

  /** The event settles or deletes this task. */
  predicate Ends(e: Event, id: string) {
    (e.Settled? && e.id == id) || (e.Deleted? && e.id == id)
  }

  /** A pending record stays, unchanged, until a resume of its id is saved or it is deleted:
      no purge and no event of another task removes it. */
  lemma {:induction false} PendingStays(base: seq<TaskRecord>, log: seq<Event>, m: nat, n: nat, id: string)
    requires Valid(base, log) && m <= n <= |log|
    requires PendingAt(base, log, m, id)
    requires forall k :: m <= k < n ==> !Ends(log[k], id)
    ensures RecordAt(base, log, n, id) == RecordAt(base, log, m, id)
    decreases n
  {
    if m < n {
      PendingStays(base, log, m, n - 1, id);
      RecordStep(base, log, n - 1, id);
      assert ValidAt(base, log, n - 1);
      PresentIsKnown(base, log, n - 1, id);
    }
  }

  /** `RecoverPending`: the pending records of the store. */
  function Pending(rs: seq<TaskRecord>): seq<TaskRecord> {
    if rs == [] then []
    else Pending(rs[..|rs| - 1]) + if rs[|rs| - 1].status == PENDING then [rs[|rs| - 1]] else []
  }

  lemma {:induction false} PendingMembers(rs: seq<TaskRecord>, r: TaskRecord)
    ensures r in Pending(rs) <==> r in rs && r.status == PENDING
  {
    if rs != [] {
      PendingMembers(rs[..|rs| - 1], r);
      assert rs == rs[..|rs| - 1] + [rs[|rs| - 1]];
    }
  }

  /** After a pending submit, recovery finds the record in every later state until the task
      ends; and it finds it exactly once, since ids stay unique. */
  lemma {:induction false} SubmittedIsRecovered(base: seq<TaskRecord>, log: seq<Event>, m: nat, n: nat)
    requires Valid(base, log) && m < n <= |log|
    requires log[m].Submitted? && log[m].record.status == PENDING
    requires forall k :: m < k < n ==> !Ends(log[k], log[m].record.id)
    ensures log[m].record.(updatedAt := log[m].now) in Pending(StoreAt(base, log, n))
    ensures UniqueIds(StoreAt(base, log, n))
  {
    var id := log[m].record.id;
    RecordStep(base, log, m, id);
    PendingStays(base, log, m + 1, n, id);
    FindIn(StoreAt(base, log, n), id);
    PendingMembers(StoreAt(base, log, n), log[m].record.(updatedAt := log[m].now));
    StoreUnique(base, log, n);
  }

  // ---------- settled ----------

  /** A settled record is final as long as no resume that loaded before it was settled is
      saved afterwards: later it is either unchanged or gone. */
  lemma {:induction false} TerminalIsFinal(base: seq<TaskRecord>, log: seq<Event>, m: nat, n: nat, id: string)
    requires Valid(base, log) && m <= n <= |log|
    requires RecordAt(base, log, m, id).Some? && Terminal(RecordAt(base, log, m, id).value)
    requires forall k :: m <= k < n && log[k].Settled? && log[k].id == id ==> log[k].loadedAt >= m
    ensures RecordAt(base, log, n, id) == RecordAt(base, log, m, id) || RecordAt(base, log, n, id) == None
    decreases n
  {
    if m < n {
      TerminalIsFinal(base, log, m, n - 1, id);
      RecordStep(base, log, n - 1, id);
      assert ValidAt(base, log, n - 1);
      if log[n - 1].Settled? && log[n - 1].id == id {
        TerminalIsFinal(base, log, m, log[n - 1].loadedAt, id);
      } else {
        PresentIsKnown(base, log, m, id);
      }
    }
  }

  /** The status a resume leaves. */
  function StatusOf(o: ResumeOutcome): string {
    if o.Succeeded? then COMPLETED else FAILED
  }

  /** A resume of this task is saved with another status. */
  predicate Contradicts(e: Event, id: string, status: string) {
    e.Settled? && e.id == id && StatusOf(e.outcome) != status
  }

  /** One event turns a settled task into one settled otherwise exactly when it saves a resume
      of that task that ended otherwise: a completed task fails by a broken resume, a failed
      one completes by one that succeeded, and by nothing else. */
  lemma {:induction false} FlipIff(base: seq<TaskRecord>, log: seq<Event>, n: nat, id: string)
    requires Valid(base, log) && n < |log|
    requires RecordAt(base, log, n, id).Some? && Terminal(RecordAt(base, log, n, id).value)
    ensures var before, after := RecordAt(base, log, n, id).value.status, RecordAt(base, log, n + 1, id);
            && (after.Some? && after.value.status != before <==> Contradicts(log[n], id, before))
            && (before == COMPLETED && after.Some? && after.value.status == FAILED
                <==> before == COMPLETED && log[n].Settled? && log[n].id == id && log[n].outcome.Broke?)
            && (before == FAILED && after.Some? && after.value.status == COMPLETED
                <==> before == FAILED && log[n].Settled? && log[n].id == id && log[n].outcome.Succeeded?)
  {
    RecordStep(base, log, n, id);
    PresentIsKnown(base, log, n, id);
  }

  /** The status of the task at event `n`, if it is still there, is this one. */
  ghost predicate StatusIs(base: seq<TaskRecord>, log: seq<Event>, n: nat, id: string, status: string)
    requires n <= |log|
  {
    RecordAt(base, log, n, id).None? || RecordAt(base, log, n, id).value.status == status
  }

  ghost predicate StatusStays(base: seq<TaskRecord>, log: seq<Event>, m: nat, n: nat, id: string, status: string)
    requires n <= |log|
  {
    forall k :: m <= k <= n ==> StatusIs(base, log, k, id, status)
  }

  ghost predicate NoneContradicts(log: seq<Event>, m: nat, n: nat, id: string, status: string)
    requires n <= |log|
  {
    forall e :: m <= e < n ==> !Contradicts(log[e], id, status)
  }

  /** A settled task keeps its status from `m` to `n`, as long as it is there, if and only if
      no resume of it that ended otherwise is saved in between. */
  lemma {:induction false} SettledStatusIff(base: seq<TaskRecord>, log: seq<Event>, m: nat, n: nat, id: string)
    requires Valid(base, log) && m <= n <= |log|
    requires RecordAt(base, log, m, id).Some? && Terminal(RecordAt(base, log, m, id).value)
    ensures var status := RecordAt(base, log, m, id).value.status;
            StatusStays(base, log, m, n, id, status) <==> NoneContradicts(log, m, n, id, status)
  {
    StatusStaysIff(base, log, m, n, id, RecordAt(base, log, m, id).value.status);
  }

  lemma {:induction false} StatusKept(base: seq<TaskRecord>, log: seq<Event>, m: nat, n: nat, id: string, status: string)
    requires Valid(base, log) && m <= n <= |log| && RecordAt(base, log, m, id).Some?
    requires (status == COMPLETED || status == FAILED) && StatusIs(base, log, m, id, status)
    requires NoneContradicts(log, m, n, id, status)
    ensures StatusIs(base, log, n, id, status)
    decreases n
  {
    if m < n {
      StatusKept(base, log, m, n - 1, id, status);
      StatusStepIff(base, log, m, n - 1, id, status);
    }
  }

  lemma {:induction false} StatusStaysIff(base: seq<TaskRecord>, log: seq<Event>, m: nat, n: nat, id: string, status: string)
    requires Valid(base, log) && m <= n <= |log| && RecordAt(base, log, m, id).Some?
    requires (status == COMPLETED || status == FAILED) && StatusIs(base, log, m, id, status)
    ensures StatusStays(base, log, m, n, id, status) <==> NoneContradicts(log, m, n, id, status)
  {
    if NoneContradicts(log, m, n, id, status) {
      forall k | m <= k <= n
        ensures StatusIs(base, log, k, id, status)
      {
        StatusKept(base, log, m, k, id, status);
      }
    }
    if StatusStays(base, log, m, n, id, status) {
      forall e | m <= e < n
        ensures !Contradicts(log[e], id, status)
      {
        StatusStepIff(base, log, m, e, id, status);
      }
    }
  }

  lemma {:induction false} StatusStepIff(base: seq<TaskRecord>, log: seq<Event>, m: nat, n: nat, id: string, status: string)
    requires Valid(base, log) && m <= n < |log| && RecordAt(base, log, m, id).Some?
    requires status == COMPLETED || status == FAILED
    requires StatusIs(base, log, n, id, status)
    ensures StatusIs(base, log, n + 1, id, status) <==> !Contradicts(log[n], id, status)
  {
    RecordStep(base, log, n, id);
    PresentIsKnown(base, log, m, id);
    assert ValidAt(base, log, n);
  }

  /** The record a resume saves. */
  ghost function Written(base: seq<TaskRecord>, log: seq<Event>, e: nat): TaskRecord
    requires e < |log| && ValidAt(base, log, e) && log[e].Settled?
  {
    SettledRecord(RecordAt(base, log, log[e].loadedAt, log[e].id).value, log[e].outcome).(updatedAt := log[e].now)
  }

  /** The event saves another record for the task. */
  ghost predicate Replaces(base: seq<TaskRecord>, log: seq<Event>, e: nat, id: string, r: TaskRecord)
    requires e < |log|
  {
    ValidAt(base, log, e) && log[e].Settled? && log[e].id == id && Written(base, log, e) != r
  }

  ghost predicate RecordIs(base: seq<TaskRecord>, log: seq<Event>, n: nat, id: string, r: TaskRecord)
    requires n <= |log|
  {
    RecordAt(base, log, n, id).None? || RecordAt(base, log, n, id).value == r
  }

  ghost predicate RecordStays(base: seq<TaskRecord>, log: seq<Event>, m: nat, n: nat, id: string, r: TaskRecord)
    requires n <= |log|
  {
    forall k :: m <= k <= n ==> RecordIs(base, log, k, id, r)
  }

  ghost predicate NoneReplaces(base: seq<TaskRecord>, log: seq<Event>, m: nat, n: nat, id: string, r: TaskRecord)
    requires n <= |log|
  {
    forall e :: m <= e < n ==> !Replaces(base, log, e, id, r)
  }

  lemma {:induction false} RecordStepIff(base: seq<TaskRecord>, log: seq<Event>, m: nat, n: nat, id: string, r: TaskRecord)
    requires Valid(base, log) && m <= n < |log| && RecordAt(base, log, m, id).Some?
    requires RecordIs(base, log, n, id, r)
    ensures RecordIs(base, log, n + 1, id, r) <==> !Replaces(base, log, n, id, r)
  {
    RecordStep(base, log, n, id);
    PresentIsKnown(base, log, m, id);
  }

  lemma {:induction false} RecordKept(base: seq<TaskRecord>, log: seq<Event>, m: nat, n: nat, id: string, r: TaskRecord)
    requires Valid(base, log) && m <= n <= |log| && RecordAt(base, log, m, id) == Some(r) && Terminal(r)
    requires NoneReplaces(base, log, m, n, id, r)
    ensures RecordIs(base, log, n, id, r)
    decreases n
  {
    if m < n {
      RecordKept(base, log, m, n - 1, id, r);
      RecordStepIff(base, log, m, n - 1, id, r);
    }
  }

  lemma {:induction false} RecordStaysIff(base: seq<TaskRecord>, log: seq<Event>, m: nat, n: nat, id: string)
    requires Valid(base, log) && m <= n <= |log|
    requires RecordAt(base, log, m, id).Some? && Terminal(RecordAt(base, log, m, id).value)
    ensures var r := RecordAt(base, log, m, id).value;
            RecordStays(base, log, m, n, id, r) <==> NoneReplaces(base, log, m, n, id, r)
  {
    var r := RecordAt(base, log, m, id).value;
    if NoneReplaces(base, log, m, n, id, r) {
      forall k | m <= k <= n
        ensures RecordIs(base, log, k, id, r)
      {
        RecordKept(base, log, m, k, id, r);
      }
    }
    if RecordStays(base, log, m, n, id, r) {
      forall e | m <= e < n
        ensures !Replaces(base, log, e, id, r)
      {
        RecordStepIff(base, log, m, e, id, r);
      }
    }
  }

  /** The event saves a resume of the task. */
  predicate SettledOf(e: Event, id: string) {
    e.Settled? && e.id == id
  }

  /** The record is the one the task started with. */
  ghost predicate IsOrigin(base: seq<TaskRecord>, log: seq<Event>, id: string, r: TaskRecord) {
    || Find(base, id) == Some(r)
    || exists k :: 0 <= k < |log| && SubmittedAt(log, k, id) && r == log[k].record.(updatedAt := log[k].now)
  }

  lemma {:induction false} OneOrigin(base: seq<TaskRecord>, log: seq<Event>, id: string, a: TaskRecord, b: TaskRecord)
    requires Valid(base, log) && IsOrigin(base, log, id, a) && IsOrigin(base, log, id, b)
    ensures a == b
  {
    forall j, k | 0 <= j < k < |log| && SubmittedAt(log, j, id)
      ensures !SubmittedAt(log, k, id)
    {
      assert ValidAt(base, log, k);
    }
    forall k | 0 <= k < |log| && Find(base, id).Some?
      ensures !SubmittedAt(log, k, id)
    {
      assert ValidAt(base, log, k);
    }
  }

  /** As long as a task is not settled, or no resume of it has been saved, its record is the
      one it started with. */
  lemma {:induction false} UnsettledIsOrigin(base: seq<TaskRecord>, log: seq<Event>, n: nat, id: string)
    requires Valid(base, log) && n <= |log| && RecordAt(base, log, n, id).Some?
    requires !Terminal(RecordAt(base, log, n, id).value) || forall e :: 0 <= e < n ==> !SettledOf(log[e], id)
    ensures IsOrigin(base, log, id, RecordAt(base, log, n, id).value)
  {
    if n > 0 {
      RecordStep(base, log, n - 1, id);
      if SubmittedAt(log, n - 1, id) {
      } else if !SettledOf(log[n - 1], id) {
        UnsettledIsOrigin(base, log, n - 1, id);
      }
    }
  }

  /** Both resumes ended with the same outcome at the same clock reading. */
  predicate SameEnding(a: Event, b: Event)
    requires a.Settled? && b.Settled?
  {
    a.outcome == b.outcome && a.now == b.now
  }

  /** Two resumes of a task save the same record exactly if they ended alike. */
  lemma {:induction false} SameWrittenIff(base: seq<TaskRecord>, log: seq<Event>, a: nat, b: nat, id: string)
    requires Valid(base, log) && a < |log| && b < |log| && SettledOf(log[a], id) && SettledOf(log[b], id)
    ensures ValidAt(base, log, a) && ValidAt(base, log, b)
    ensures Written(base, log, a) == Written(base, log, b) <==> SameEnding(log[a], log[b])
  {
    assert ValidAt(base, log, a) && ValidAt(base, log, b);
    UnsettledIsOrigin(base, log, log[a].loadedAt, id);
    UnsettledIsOrigin(base, log, log[b].loadedAt, id);
    OneOrigin(base, log, id, RecordAt(base, log, log[a].loadedAt, id).value,
              RecordAt(base, log, log[b].loadedAt, id).value);
  }

  ghost predicate AllEndAlike(log: seq<Event>, w: nat, n: nat, id: string)
    requires w < |log| && n <= |log| && log[w].Settled?
  {
    forall e :: w < e < n && SettledOf(log[e], id) ==> SameEnding(log[e], log[w])
  }

  /** The record a resume has saved is final, unchanged whenever it is there, if and only if
      every resume of the task that is saved later ended with the same outcome at the same
      clock reading; submits, purges and deletions never change it. */
  lemma {:induction false} SettledRecordIff(base: seq<TaskRecord>, log: seq<Event>, w: nat, n: nat, id: string)
    requires Valid(base, log) && w < n <= |log| && SettledOf(log[w], id)
    ensures RecordAt(base, log, w + 1, id).Some? && Terminal(RecordAt(base, log, w + 1, id).value)
    ensures RecordStays(base, log, w + 1, n, id, RecordAt(base, log, w + 1, id).value) <==> AllEndAlike(log, w, n, id)
  {
    RecordStep(base, log, w, id);
    var r := Written(base, log, w);
    RecordStaysIff(base, log, w + 1, n, id);
    forall e | w < e < n
      ensures Replaces(base, log, e, id, r) <==> SettledOf(log[e], id) && !SameEnding(log[e], log[w])
    {
      assert ValidAt(base, log, e);
      if SettledOf(log[e], id) {
        SameWrittenIff(base, log, e, w, id);
      }
    }
  }

  /** A task that is settled before any resume of it has been saved is never resumed, and its
      record is final. */
  lemma {:induction false} SettledAtOnce(base: seq<TaskRecord>, log: seq<Event>, m: nat, n: nat, id: string)
    requires Valid(base, log) && m <= n <= |log|
    requires RecordAt(base, log, m, id).Some? && Terminal(RecordAt(base, log, m, id).value)
    requires forall e :: 0 <= e < m ==> !SettledOf(log[e], id)
    ensures forall e :: 0 <= e < |log| ==> !SettledOf(log[e], id)
    ensures RecordStays(base, log, m, n, id, RecordAt(base, log, m, id).value)
  {
    var r := RecordAt(base, log, m, id).value;
    UnsettledIsOrigin(base, log, m, id);
    forall e | 0 <= e < |log|
      ensures !SettledOf(log[e], id)
    {
      assert ValidAt(base, log, e);
      if SettledOf(log[e], id) {
        UnsettledIsOrigin(base, log, log[e].loadedAt, id);
        OneOrigin(base, log, id, r, RecordAt(base, log, log[e].loadedAt, id).value);
      }
    }
    RecordStaysIff(base, log, m, n, id);
  }

  /** It does happen: two resumes that both loaded the pending record leave a task failed
      that was completed before. */
  lemma {:induction false} OverlappingResumesFlip(id: string, result: EngineResult)
    ensures var r := NewRecord(id, "e", EngineResult("remote", PlainText), 0);
            var log := [Submitted(r, 0), Settled(1, id, Succeeded(result), 1), Settled(1, id, Broke("late"), 2)];
            && Valid([], log)
            && RecordAt([], log, 2, id).Some? && RecordAt([], log, 2, id).value.status == COMPLETED
            && RecordAt([], log, 3, id).Some? && RecordAt([], log, 3, id).value.status == FAILED
  {
    var r := NewRecord(id, "e", EngineResult("remote", PlainText), 0);
    var log := [Submitted(r, 0), Settled(1, id, Succeeded(result), 1), Settled(1, id, Broke("late"), 2)];
    assert StoreAt([], log, 1) == [r];
    assert ValidAt([], log, 0) && ValidAt([], log, 1) && ValidAt([], log, 2);
    assert Valid([], log);
    RecordStep([], log, 1, id);
    RecordStep([], log, 2, id);
  }

  // ---------- the client ----------

  datatype ClientError = NoStore | Execution | Storage(e: StoreError) | PreviouslyFailed(message: string)
                       | NoEngine | NotResumable | ResumeBroke(message: string)

  /** `Submit`, after the engine ran: save a fresh record, report the id of a pending task. */
  method Submit(store: FileTaskStore?, engineName: string, ran: Result<EngineResult, ()>, freshID: string,
                now: int, savedAt: int, io: Io)
      returns (r: Result<string, ClientError>)
    modifies store
    ensures store == null ==> r == Err(NoStore)
    ensures store != null && ran.Err? ==> r == Err(Execution) && store.file == old(store.file)
    ensures store != null && ran.Ok? && Reading(old(store.file), io).Ok? && io.write ==>
              var rec := NewRecord(freshID, engineName, ran.value, now);
              && store.file == Some(Full(Apply(Save(rec, savedAt), Reading(old(store.file), io).value)))
              && r == Ok(if ran.value.kind == PlainText then freshID else "")
    ensures store != null && ran.Ok? && Reading(old(store.file), io).Ok? && io.write ==>
              && store.file.Some? && store.file.value.Full?
              && Find(store.file.value.records, freshID).Some?
              && var found := Find(store.file.value.records, freshID).value;
                 && found.id == freshID && found.engineName == engineName
                 && found.createdAt == now && found.updatedAt == savedAt && found.errMsg == ""
                 && (ran.value.kind == PlainText ==> found.status == PENDING && found.remoteID == ran.value.value)
                 && (ran.value.kind != PlainText ==>
                       && found.status == COMPLETED && found.remoteID == ""
                       && found.resultVal == ran.value.value && found.resultKind == ran.value.kind)
    ensures store != null && ran.Ok? && (Reading(old(store.file), io).Err? || !io.write) ==>
              && store.file == old(store.file)
              && r == Err(Storage(if Reading(old(store.file), io).Err? then Reading(old(store.file), io).error
                                  else WriteFailed))
  {
    if store == null {
      return Err(NoStore);
    }
    if ran.Err? {
      return Err(Execution);
    }
    var rec := NewRecord(freshID, engineName, ran.value, now);
    var saved := store.Save(rec, savedAt, io);
    if saved.Err? {
      return Err(Storage(saved.error));
    }
    FindUpsert(Reading(old(store.file), io).value, rec.(updatedAt := savedAt), freshID);
    r := Ok(if rec.status == PENDING then rec.id else "");
  }

  /** `Resume` up to the engine call: what it does with the record it loaded. */
  method BeginResume(store: FileTaskStore?, id: string, engines: map<string, bool>, io: Io)
      returns (r: Result<TaskRecord, ClientError>, settled: Option<EngineResult>)
    ensures r.Ok? ==>
              && store != null && Reading(store.file, io).Ok?
              && Find(Reading(store.file, io).value, id) == Some(r.value)
              && r.value.status != FAILED
              && (settled.None? <==> r.value.status != COMPLETED)
              && (settled.None? ==> r.value.engineName in engines && engines[r.value.engineName])
              && (settled.Some? ==> settled.value == EngineResult(r.value.resultVal, r.value.resultKind))
    ensures r.Err? ==> settled.None?
    ensures store == null ==> r == Err(NoStore)
    ensures store != null && Reading(store.file, io).Err? ==> r == Err(Storage(Reading(store.file, io).error))
    ensures store != null && Reading(store.file, io).Ok? ==>
              match Find(Reading(store.file, io).value, id) {
                case None => r == Err(Storage(NotFound))
                case Some(rec) =>
                  if rec.status == COMPLETED then r == Ok(rec)
                  else if rec.status == FAILED then r == Err(PreviouslyFailed(rec.errMsg))
                  else if rec.engineName !in engines then r == Err(NoEngine)
                  else if !engines[rec.engineName] then r == Err(NotResumable)
                  else r == Ok(rec)
              }
  {
    settled := None;
    if store == null {
      return Err(NoStore), None;
    }
    var loaded := store.Load(id, io);
    if loaded.Err? {
      return Err(Storage(loaded.error)), None;
    }
    var rec := loaded.value;
    if rec.status == COMPLETED {
      return Ok(rec), Some(EngineResult(rec.resultVal, rec.resultKind));
    }
    if rec.status == FAILED {
      return Err(PreviouslyFailed(rec.errMsg)), None;
    }
    if rec.engineName !in engines {
      return Err(NoEngine), None;
    }
    if !engines[rec.engineName] {
      return Err(NotResumable), None;
    }
    r := Ok(rec);
  }

  /** `Resume` after the engine call: save the settled record; a failing save is ignored. */
  method FinishResume(store: FileTaskStore, loaded: TaskRecord, o: ResumeOutcome, now: int, io: Io)
      returns (r: Result<EngineResult, ClientError>)
    modifies store
    ensures r == match o { case Succeeded(x) => Ok(x) case Broke(m) => Err(ResumeBroke(m)) }
    ensures store.file == if Reading(old(store.file), io).Ok? && io.write
                          then Some(Full(Apply(Save(SettledRecord(loaded, o), now), Reading(old(store.file), io).value)))
                          else old(store.file)
  {
    var rec := loaded;
    match o {
      case Broke(m) =>
        rec := rec.(status := FAILED, errMsg := m);
        var _ := store.Save(rec, now, io);
        r := Err(ResumeBroke(m));
      case Succeeded(x) =>
        rec := rec.(status := COMPLETED, resultVal := x.value, resultKind := x.kind);
        var _ := store.Save(rec, now, io);
        r := Ok(x);
    }
  }

  // ---------- one call after another ----------

  /** A `Submit` whose save succeeds, and then a `Resume` of the id, by which the engine is
      asked for the remote id it gave, or which gives back the result at once. */
  method SubmitThenResume(store: FileTaskStore, engineName: string, result: EngineResult, freshID: string, now: int,
                          savedAt: int, engines: map<string, bool>, io: Io, later: Io)
      returns (submitted: Result<string, ClientError>, loaded: Result<TaskRecord, ClientError>,
               settled: Option<EngineResult>)
    requires Reading(store.file, io).Ok? && io.write && later.lock && later.read
    requires engineName in engines && engines[engineName]
    modifies store
    ensures loaded.Ok? && loaded.value.id == freshID && loaded.value.engineName == engineName
    ensures loaded.value.createdAt == now && loaded.value.updatedAt == savedAt
    ensures result.kind == PlainText ==>
              && submitted == Ok(freshID) && settled == None
              && loaded.value.status == PENDING && loaded.value.remoteID == result.value
    ensures result.kind != PlainText ==> submitted == Ok("") && settled == Some(result)
  {
    submitted := Submit(store, engineName, Ok(result), freshID, now, savedAt, io);
    loaded, settled := BeginResume(store, freshID, engines, later);
  }

  /** A `Resume` whose save succeeds, and then another one: it gives back the result of the
      first, or its error, without asking the engine. */
  method ResumeTwice(store: FileTaskStore, record: TaskRecord, o: ResumeOutcome, now: int,
                     engines: map<string, bool>, io: Io, later: Io)
      returns (first: Result<EngineResult, ClientError>, loaded: Result<TaskRecord, ClientError>,
               settled: Option<EngineResult>)
    requires Reading(store.file, io).Ok? && io.write && later.lock && later.read
    modifies store
    ensures o.Succeeded? ==> first == Ok(o.result) && loaded.Ok? && settled == Some(o.result)
    ensures o.Succeeded? ==> SameTask(record, loaded.value) && loaded.value.updatedAt == now
    ensures o.Broke? ==> first == Err(ResumeBroke(o.message)) && loaded == Err(PreviouslyFailed(o.message))
  {
    FindUpsert(Reading(store.file, io).value, SettledRecord(record, o).(updatedAt := now), record.id);
    first := FinishResume(store, record, o, now, io);
    loaded, settled := BeginResume(store, record.id, engines, later);
  }

  method RecoverPending(store: FileTaskStore?, io: Io) returns (r: Result<seq<TaskRecord>, ClientError>)
    ensures r == if store == null then Err(NoStore)
                 else match Reading(store.file, io) {
                        case Err(e) => Err(Storage(e))
                        case Ok(rs) => Ok(Pending(rs))
                      }
  {
    if store == null {
      return Err(NoStore);
    }
    var read := store.All(io);
    if read.Err? {
      return Err(Storage(read.error));
    }
    var all, pending := read.value, [];
    for i := 0 to |all|
      invariant pending == Pending(all[..i])
    {
      assert all[..i + 1][..i] == all[..i];
      if all[i].status == PENDING {
        pending := pending + [all[i]];
      }
    }
    assert all[..|all|] == all;
    r := Ok(pending);
  }
}
