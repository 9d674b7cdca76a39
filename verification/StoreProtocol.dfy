/** The task store as a protocol between concurrent callers and crashing processes
    (taskstore.go, taskstore_flock.go). An agent is one call in flight, in any process.
    Every file-system action and every lock action is one step; a run is an arbitrary
    sequence of steps, and a step that is not possible leaves the state unchanged. */
module StoreProtocol {
  import opened Common
  import opened TaskStore

  // ---------- state ----------

  /** Files by inode, and the two names in the directory. */
  datatype Disk = Disk(inodes: map<nat, Data>, main: Option<nat>, tmp: Option<nat>, next: nat)

  function DataAt(d: Disk, name: Option<nat>): Option<Data> {
    match name
    case None => None
    case Some(i) => if i in d.inodes then Some(d.inodes[i]) else None
  }

  datatype Call =
    | CallSave(record: TaskRecord)
    | CallDelete(id: string)
    | CallPurge(maxAge: int)
    | CallLoad(id: string)
    | CallAll

  predicate Writes(c: Call) {
    c.CallSave? || c.CallDelete? || c.CallPurge?
  }

  /** The operation a writing call performs, once it has read the clock. */
  function Resolve(c: Call, now: int): Op
    requires Writes(c)
  {
    match c
    case CallSave(r) => Save(r, now)
    case CallDelete(id) => Delete(id)
    case CallPurge(maxAge) => Purge(now - maxAge)
  }

  /** The operation is the one the call asks for at this clock reading: a save is stamped
      with the reading, and a purge reaches back from it by the age it was given. */
  ghost predicate Fits(op: Op, c: Call, reading: int) {
    && (c.CallSave? ==> op.Save? && op.record == c.record && op.now == reading)
    && (c.CallDelete? ==> op.Delete? && op.id == c.id)
    && (c.CallPurge? ==> op.Purge? && reading - op.cutoff == c.maxAge)
    && !c.CallLoad? && !c.CallAll?
  }

  /** One call: its number, what it asks, and how many operations were committed before it. */
  datatype Ticket = Ticket(id: nat, call: Call, from: nat)

  /** A reader returns the records it read; `Load` then picks one of them. */
  datatype Outcome = ReadOk(records: seq<TaskRecord>) | WriteOk(position: nat) | Failed

  datatype PC =
    | Idle
    | Waiting(t: Ticket)
    | Locked(t: Ticket)
    | Opened(t: Ticket, handle: Option<nat>)
    | Loaded(t: Ticket, rs: seq<TaskRecord>)
    | Writing(t: Ticket, op: Op, reading: int, rs: seq<TaskRecord>, file: nat)
    | Written(t: Ticket, op: Op, reading: int, rs: seq<TaskRecord>, file: nat)
    | Done(t: Ticket, outcome: Outcome)

  /** A committed operation, with the clock reading its call took: the rename of its
      temporary file happened. */
  datatype Entry = Entry(ticket: nat, call: Call, op: Op, reading: int)

  /** A call that returned, with the number of operations committed by then. */
  datatype Event = Event(t: Ticket, outcome: Outcome, at: nat)

  datatype State = State(
    disk: Disk,
    writer: Option<nat>,
    readers: set<nat>,
    agents: map<nat, PC>,
    log: seq<Entry>,
    events: seq<Event>,
    tickets: nat
  )

  function PCOf(s: State, a: nat): PC {
    if a in s.agents then s.agents[a] else Idle
  }

  // ---------- steps ----------

  datatype Step =
    | Invoke(a: nat, call: Call)
    | Acquire(a: nat)
    | LockFails(a: nat)
    | Open(a: nat)
    | Read(a: nat)
    | ReadFails(a: nat)
    | CreateTmp(a: nat, now: int)
    | CreateFails(a: nat)
    | WriteSome(a: nat)
    | WriteAll(a: nat)
    | WriteFails(a: nat)
    | Rename(a: nat)
    | RenameFails(a: nat, removed: bool)
    | Unlock(a: nat)
    | Crash(a: nat)

  function At(s: State, a: nat, pc: PC): State {
    s.(agents := s.agents[a := pc])
  }

  function Released(s: State, a: nat): State {
    s.(writer := if s.writer == Some(a) then None else s.writer, readers := s.readers - {a})
  }

  /** `flock`: exclusive for writers, shared for readers. */
  function DoAcquire(s: State, a: nat, t: Ticket): State {
    if Writes(t.call) then
      if s.writer == None && s.readers == {} then At(s, a, Locked(t)).(writer := Some(a)) else s
    else if s.writer == None then At(s, a, Locked(t)).(readers := s.readers + {a})
    else s
  }

  /** Reading the opened file; writers go on, readers are done. */
  function DoRead(s: State, a: nat, t: Ticket, handle: Option<nat>): State {
    match Decode(DataAt(s.disk, handle))
    case Err(_) => At(s, a, Done(t, Failed))
    case Ok(rs) => At(s, a, if Writes(t.call) then Loaded(t, rs) else Done(t, ReadOk(rs)))
  }

  /** Opening the temporary file for writing truncates it or creates it. */
  function DoCreate(s: State, a: nat, t: Ticket, rs: seq<TaskRecord>, now: int): State {
    if !Writes(t.call) then s
    else
      var op := Resolve(t.call, now);
      var d := s.disk;
      var d' := match d.tmp {
                  case Some(i) => d.(inodes := d.inodes[i := Empty])
                  case None => d.(inodes := d.inodes[d.next := Empty], tmp := Some(d.next), next := d.next + 1)
                };
      At(s, a, Writing(t, op, now, Apply(op, rs), d'.tmp.value)).(disk := d')
  }

  function SetInode(s: State, i: nat, data: Data): State {
    s.(disk := s.disk.(inodes := s.disk.inodes[i := data]))
  }

  /** Renaming acts on the name: whatever the temporary name denotes becomes the file. */
  function DoRename(s: State, a: nat, t: Ticket, op: Op, reading: int): State {
    match s.disk.tmp
    case None => At(s, a, Done(t, Failed))
    case Some(_) =>
      At(s, a, Done(t, WriteOk(|s.log|))).(
        disk := s.disk.(main := s.disk.tmp, tmp := None),
        log := s.log + [Entry(t.id, t.call, op, reading)])
  }

  function Do(s: State, step: Step): State {
    match step
    case Invoke(a, call) =>
      if PCOf(s, a).Idle?
      then At(s, a, Waiting(Ticket(s.tickets, call, |s.log|))).(tickets := s.tickets + 1)
      else s
    case Acquire(a) =>
      if PCOf(s, a).Waiting? then DoAcquire(s, a, PCOf(s, a).t) else s
    case LockFails(a) =>
      if PCOf(s, a).Waiting?
      then At(s, a, Idle).(events := s.events + [Event(PCOf(s, a).t, Failed, |s.log|)])
      else s
    case Open(a) =>
      if PCOf(s, a).Locked? then At(s, a, Opened(PCOf(s, a).t, s.disk.main)) else s
    case Read(a) =>
      if PCOf(s, a).Opened? then DoRead(s, a, PCOf(s, a).t, PCOf(s, a).handle) else s
    case ReadFails(a) =>
      if PCOf(s, a).Locked? || PCOf(s, a).Opened? then At(s, a, Done(PCOf(s, a).t, Failed)) else s
    case CreateTmp(a, now) =>
      if PCOf(s, a).Loaded? then DoCreate(s, a, PCOf(s, a).t, PCOf(s, a).rs, now) else s
    case CreateFails(a) =>
      if PCOf(s, a).Loaded? then At(s, a, Done(PCOf(s, a).t, Failed)) else s
    case WriteSome(a) =>
      if PCOf(s, a).Writing? then SetInode(s, PCOf(s, a).file, Torn) else s
    case WriteAll(a) =>
      if PCOf(s, a).Writing?
      then SetInode(At(s, a, Written(PCOf(s, a).t, PCOf(s, a).op, PCOf(s, a).reading, PCOf(s, a).rs, PCOf(s, a).file)),
                    PCOf(s, a).file, Full(PCOf(s, a).rs))
      else s
    case WriteFails(a) =>
      if PCOf(s, a).Writing? then At(s, a, Done(PCOf(s, a).t, Failed)) else s
    case Rename(a) =>
      if PCOf(s, a).Written? then DoRename(s, a, PCOf(s, a).t, PCOf(s, a).op, PCOf(s, a).reading) else s
    case RenameFails(a, removed) =>
      if PCOf(s, a).Written?
      then At(s, a, Done(PCOf(s, a).t, Failed)).(
             disk := if removed then s.disk.(tmp := None) else s.disk)
      else s
    case Unlock(a) =>
      if PCOf(s, a).Done?
      then Released(At(s, a, Idle), a).(
             events := s.events + [Event(PCOf(s, a).t, PCOf(s, a).outcome, |s.log|)])
      else s
    case Crash(a) => Released(At(s, a, Idle), a)
  }

  function Run(s: State, steps: seq<Step>): State {
    if steps == [] then s else Do(Run(s, steps[..|steps| - 1]), steps[|steps| - 1])
  }

  // ---------- what the file shows ----------

  function Ops(log: seq<Entry>): seq<Op> {
    seq(|log|, i requires 0 <= i < |log| => log[i].op)
  }

  /** What a reader that opens the file now would get. */
  function Visible(d: Disk): Result<seq<TaskRecord>, StoreError> {
    Decode(DataAt(d, d.main))
  }

  /** Nobody is in the store; the file is whole or absent; a temporary file with any
      content may be left over. */
  ghost predicate Initial(s: State, base: seq<TaskRecord>) {
    && s.writer == None && s.readers == {} && s.agents == map[]
    && s.log == [] && s.events == [] && s.tickets == 0
    && DiskOk(s.disk)
    && Visible(s.disk) == Ok(base)
  }

  ghost predicate DiskOk(d: Disk) {
    && (forall i :: i in d.inodes ==> i < d.next)
    && (d.main.Some? ==> d.main.value in d.inodes)
    && (d.tmp.Some? ==> d.tmp.value in d.inodes && d.tmp != d.main)
  }

  // ---------- the invariant ----------

  predicate Holds(pc: PC) {
    !pc.Idle? && !pc.Waiting?
  }

  ghost predicate LockOk(s: State) {
    && (s.writer.Some? ==> s.readers == {})
    && (forall a: nat {:trigger PCOf(s, a)} :: s.writer == Some(a) <==> Holds(PCOf(s, a)) && Writes(PCOf(s, a).t.call))
    && (forall a: nat {:trigger PCOf(s, a)} :: a in s.readers <==> Holds(PCOf(s, a)) && !Writes(PCOf(s, a).t.call))
  }

  /** The records some prefix of the log between two points leaves. */
  ghost predicate SeenBetween(rs: seq<TaskRecord>, base: seq<TaskRecord>, log: seq<Entry>, from: nat, to: nat) {
    exists i :: from <= i <= to <= |log| && rs == Replay(base, Ops(log[..i]))
  }

  ghost predicate Committed(t: Ticket, log: seq<Entry>, position: nat, to: nat) {
    && t.from <= position < to <= |log|
    && log[position].ticket == t.id && log[position].call == t.call
  }

  ghost predicate InLog(id: nat, log: seq<Entry>) {
    exists i :: 0 <= i < |log| && log[i].ticket == id
  }

  ghost predicate OutcomeOk(t: Ticket, o: Outcome, base: seq<TaskRecord>, log: seq<Entry>, at: nat) {
    match o
    case ReadOk(rs) => !Writes(t.call) && SeenBetween(rs, base, log, t.from, at)
    case WriteOk(p) => Writes(t.call) && Committed(t, log, p, at)
    case Failed => !InLog(t.id, log)
  }

  /** What an agent that holds the lock knows about the disk. */
  ghost predicate AgentOk(pc: PC, d: Disk, base: seq<TaskRecord>, log: seq<Entry>) {
    match pc
    case Idle => true
    case Waiting(t) => !InLog(t.id, log)
    case Locked(t) => !InLog(t.id, log)
    case Opened(t, handle) => !InLog(t.id, log) && handle == d.main
    case Loaded(t, rs) => !InLog(t.id, log) && Writes(t.call) && rs == Replay(base, Ops(log))
    case Writing(t, op, reading, rs, file) =>
      && !InLog(t.id, log) && Writes(t.call) && Fits(op, t.call, reading)
      && rs == Apply(op, Replay(base, Ops(log))) && d.tmp == Some(file)
    case Written(t, op, reading, rs, file) =>
      && !InLog(t.id, log) && Writes(t.call) && Fits(op, t.call, reading)
      && rs == Apply(op, Replay(base, Ops(log))) && d.tmp == Some(file)
      && file in d.inodes && d.inodes[file] == Full(rs)
    case Done(t, o) => OutcomeOk(t, o, base, log, |log|)
  }

  ghost predicate TicketsOk(s: State) {
    && (forall a: nat {:trigger PCOf(s, a)} :: !PCOf(s, a).Idle? ==>
          PCOf(s, a).t.id < s.tickets && PCOf(s, a).t.from <= |s.log|)
    && (forall a: nat, b: nat {:trigger PCOf(s, a), PCOf(s, b)} :: a != b && !PCOf(s, a).Idle? && !PCOf(s, b).Idle? ==>
          PCOf(s, a).t.id != PCOf(s, b).t.id)
    && (forall i :: 0 <= i < |s.log| ==> s.log[i].ticket < s.tickets && Fits(s.log[i].op, s.log[i].call, s.log[i].reading))
    && (forall i, j :: 0 <= i < j < |s.log| ==> s.log[i].ticket != s.log[j].ticket)
  }

  ghost predicate EventsOk(s: State, base: seq<TaskRecord>) {
    forall k :: 0 <= k < |s.events| ==> EventOk(s, base, s.events[k])
  }

  ghost predicate EventOk(s: State, base: seq<TaskRecord>, e: Event) {
    && e.t.id < s.tickets && e.t.from <= e.at <= |s.log|
    && OutcomeOk(e.t, e.outcome, base, s.log, e.at)
    && (forall a: nat {:trigger PCOf(s, a)} :: !PCOf(s, a).Idle? ==> PCOf(s, a).t.id != e.t.id)
  }

  ghost predicate Inv(s: State, base: seq<TaskRecord>) {
    && LockOk(s)
    && DiskOk(s.disk)
    && Visible(s.disk) == Ok(Replay(base, Ops(s.log)))
    && (forall a: nat {:trigger PCOf(s, a)} :: AgentOk(PCOf(s, a), s.disk, base, s.log))
    && TicketsOk(s)
    && EventsOk(s, base)
  }

  // ---------- every step keeps the invariant ----------

  lemma {:induction false} InitialInv(s: State, base: seq<TaskRecord>)
    requires Initial(s, base)
    ensures Inv(s, base)
  {
    assert Ops(s.log) == [];
  }

  /** A step that changes one agent and perhaps the lock. */
  lemma {:induction false} LocalStep(s: State, s': State, base: seq<TaskRecord>, a: nat, pc: PC)
    requires Inv(s, base)
    requires s' == s.(agents := s.agents[a := pc], writer := s'.writer, readers := s'.readers)
    requires LockOk(s')
    requires AgentOk(pc, s.disk, base, s.log)
    requires pc.Idle? || (!PCOf(s, a).Idle? && pc.t == PCOf(s, a).t)
    ensures Inv(s', base)
  {
    assert PCOf(s', a) == pc;
    assert forall b: nat {:trigger PCOf(s', b)} :: b != a ==> PCOf(s', b) == PCOf(s, b);
    forall k | 0 <= k < |s'.events|
      ensures EventOk(s', base, s'.events[k])
    {
      assert EventOk(s, base, s.events[k]);
    }
  }

  /** The same agent keeps the same side of the lock. */
  lemma {:induction false} SameLock(s: State, a: nat, pc: PC)
    requires LockOk(s)
    requires Holds(PCOf(s, a)) == Holds(pc)
    requires Holds(pc) ==> PCOf(s, a).t.call == pc.t.call
    ensures LockOk(s.(agents := s.agents[a := pc]))
  {
    var s' := s.(agents := s.agents[a := pc]);
    assert PCOf(s', a) == pc;
    assert forall b: nat {:trigger PCOf(s', b)} :: b != a ==> PCOf(s', b) == PCOf(s, b);
    assert PCOf(s, a) == PCOf(s, a);
  }

  /** Leaving the store releases the lock. */
  lemma {:induction false} ReleaseLock(s: State, a: nat)
    requires LockOk(s)
    ensures LockOk(Released(At(s, a, Idle), a))
  {
    var s' := Released(At(s, a, Idle), a);
    assert PCOf(s', a) == Idle;
    assert forall b: nat {:trigger PCOf(s', b)} :: b != a ==> PCOf(s', b) == PCOf(s, b);
    assert PCOf(s, a) == PCOf(s, a);
  }

  lemma {:induction false} AddEvent(s: State, base: seq<TaskRecord>, e: Event)
    requires Inv(s, base) && EventOk(s, base, e)
    ensures Inv(s.(events := s.events + [e]), base)
  {
    var s' := s.(events := s.events + [e]);
    assert forall b: nat {:trigger PCOf(s', b)} :: PCOf(s', b) == PCOf(s, b);
    assert forall b: nat {:trigger PCOf(s, b)} :: PCOf(s', b) == PCOf(s, b);
    forall k | 0 <= k < |s'.events|
      ensures EventOk(s', base, s'.events[k])
    {
      assert k < |s.events| ==> EventOk(s, base, s.events[k]);
    }
  }

  /** An agent leaves, returning an outcome to its caller. */
  lemma {:induction false} Return(s: State, s': State, base: seq<TaskRecord>, a: nat, o: Outcome)
    requires Inv(s, base) && !PCOf(s, a).Idle?
    requires OutcomeOk(PCOf(s, a).t, o, base, s.log, |s.log|)
    requires s' == Released(At(s, a, Idle), a).(events := s.events + [Event(PCOf(s, a).t, o, |s.log|)])
    ensures Inv(s', base)
  {
    var left := Released(At(s, a, Idle), a);
    ReleaseLock(s, a);
    LocalStep(s, left, base, a, Idle);
    var e := Event(PCOf(s, a).t, o, |s.log|);
    assert PCOf(left, a) == Idle;
    assert forall b: nat {:trigger PCOf(left, b)} :: b != a ==> PCOf(left, b) == PCOf(s, b);
    AddEvent(left, base, e);
  }

  lemma {:induction false} InvokeInv(s: State, base: seq<TaskRecord>, a: nat, call: Call)
    requires Inv(s, base) && PCOf(s, a).Idle?
    ensures Inv(Do(s, Invoke(a, call)), base)
  {
    var t := Ticket(s.tickets, call, |s.log|);
    var s' := Do(s, Invoke(a, call));
    assert PCOf(s', a) == Waiting(t);
    assert forall b: nat {:trigger PCOf(s', b)} :: b != a ==> PCOf(s', b) == PCOf(s, b);
    forall k | 0 <= k < |s'.events|
      ensures EventOk(s', base, s'.events[k])
    {
      assert EventOk(s, base, s.events[k]);
    }
  }

  lemma {:induction false} AcquireInv(s: State, base: seq<TaskRecord>, a: nat)
    requires Inv(s, base) && PCOf(s, a).Waiting?
    ensures Inv(Do(s, Acquire(a)), base)
  {
    var t := PCOf(s, a).t;
    var s' := DoAcquire(s, a, t);
    if s' != s {
      assert PCOf(s', a) == Locked(t);
      assert forall b: nat {:trigger PCOf(s', b)} :: b != a ==> PCOf(s', b) == PCOf(s, b);
      assert forall b: nat {:trigger PCOf(s, b)} :: b != a ==> PCOf(s', b) == PCOf(s, b);
      LocalStep(s, s', base, a, Locked(t));
    }
  }

  lemma {:induction false} ReadInv(s: State, base: seq<TaskRecord>, a: nat)
    requires Inv(s, base) && PCOf(s, a).Opened?
    ensures Inv(Do(s, Read(a)), base)
  {
    var t := PCOf(s, a).t;
    var rs := Replay(base, Ops(s.log));
    var pc := if Writes(t.call) then Loaded(t, rs) else Done(t, ReadOk(rs));
    assert Do(s, Read(a)) == At(s, a, pc);
    assert s.log[..|s.log|] == s.log;
    SameLock(s, a, pc);
    LocalStep(s, At(s, a, pc), base, a, pc);
  }

  /** While one agent holds the exclusive lock nobody else is inside. */
  lemma {:induction false} OthersOutside(s: State, base: seq<TaskRecord>, a: nat, b: nat)
    requires Inv(s, base) && Holds(PCOf(s, a)) && Writes(PCOf(s, a).t.call) && b != a
    ensures PCOf(s, b).Idle? || PCOf(s, b).Waiting?
    ensures s.writer == Some(a) && s.readers == {}
  {
  }

  /** A step of the exclusive holder that touches nothing but the temporary file. */
  lemma {:induction false} TmpStep(s: State, base: seq<TaskRecord>, a: nat, pc: PC, d: Disk)
    requires Inv(s, base) && Holds(PCOf(s, a)) && Writes(PCOf(s, a).t.call)
    requires Holds(pc) && pc.t == PCOf(s, a).t
    requires DiskOk(d) && d.main == s.disk.main && DataAt(d, d.main) == DataAt(s.disk, s.disk.main)
    requires AgentOk(pc, d, base, s.log)
    ensures Inv(At(s, a, pc).(disk := d), base)
  {
    var s' := At(s, a, pc).(disk := d);
    SameLock(s, a, pc);
    assert PCOf(s', a) == pc;
    assert forall b: nat {:trigger PCOf(s', b)} :: PCOf(s', b) == PCOf(At(s, a, pc), b);
    forall b: nat {:trigger PCOf(s', b)}
      ensures AgentOk(PCOf(s', b), s'.disk, base, s'.log)
    {
      if b != a {
        OthersOutside(s, base, a, b);
        assert PCOf(s', b) == PCOf(s, b);
      }
    }
    assert forall b: nat {:trigger PCOf(s', b)} :: b != a ==> PCOf(s', b) == PCOf(s, b);
    forall k | 0 <= k < |s'.events|
      ensures EventOk(s', base, s'.events[k])
    {
      assert EventOk(s, base, s.events[k]);
    }
  }

  // ---------- committing ----------

  lemma {:induction false} OpsAppend(log: seq<Entry>, e: Entry, base: seq<TaskRecord>)
    ensures Replay(base, Ops(log + [e])) == Apply(e.op, Replay(base, Ops(log)))
  {
    assert Ops(log + [e])[..|log|] == Ops(log);
  }

  /** Outcomes reported earlier stay true when another call commits. */
  lemma {:induction false} OutcomeGrows(t: Ticket, o: Outcome, base: seq<TaskRecord>, log: seq<Entry>, at: nat, e: Entry)
    requires OutcomeOk(t, o, base, log, at) && e.ticket != t.id
    ensures OutcomeOk(t, o, base, log + [e], at)
  {
    match o {
      case ReadOk(rs) =>
        var i :| t.from <= i <= at <= |log| && rs == Replay(base, Ops(log[..i]));
        assert (log + [e])[..i] == log[..i];
      case WriteOk(_) =>
      case Failed =>
    }
  }

  lemma {:induction false} NotInLogAppend(id: nat, log: seq<Entry>, e: Entry)
    requires !InLog(id, log) && e.ticket != id
    ensures !InLog(id, log + [e])
  {
  }

  /** The rename commits one operation, the one its call asked for, and what becomes visible
      is that operation applied to what was visible before. */
  lemma {:induction false} RenameInv(s: State, base: seq<TaskRecord>, a: nat)
    requires Inv(s, base) && PCOf(s, a).Written?
    ensures Inv(Do(s, Rename(a)), base)
    ensures var w, s' := PCOf(s, a), Do(s, Rename(a));
            && Fits(w.op, w.t.call, w.reading) && s'.log == s.log + [Entry(w.t.id, w.t.call, w.op, w.reading)]
            && Visible(s.disk).Ok? && Visible(s'.disk) == Ok(Apply(w.op, Visible(s.disk).value))
  {
    var w := PCOf(s, a);
    var t := w.t;
    assert AgentOk(w, s.disk, base, s.log);
    var e := Entry(t.id, t.call, w.op, w.reading);
    var pc := Done(t, WriteOk(|s.log|));
    var s' := Do(s, Rename(a));
    assert s' == At(s, a, pc).(disk := s.disk.(main := s.disk.tmp, tmp := None), log := s.log + [e]);
    OpsAppend(s.log, e, base);
    SameLock(s, a, pc);
    assert PCOf(s', a) == pc;
    assert forall b: nat {:trigger PCOf(s', b)} :: PCOf(s', b) == PCOf(At(s, a, pc), b);
    assert forall b: nat {:trigger PCOf(s', b)} :: b != a ==> PCOf(s', b) == PCOf(s, b);
    forall b: nat {:trigger PCOf(s', b)}
      ensures AgentOk(PCOf(s', b), s'.disk, base, s'.log)
    {
      if b != a {
        OthersOutside(s, base, a, b);
        assert AgentOk(PCOf(s, b), s.disk, base, s.log);
        if PCOf(s, b).Waiting? {
          NotInLogAppend(PCOf(s, b).t.id, s.log, e);
        }
      }
    }
    LogTicketsGrow(s, s', a, e);
    forall k | 0 <= k < |s'.events|
      ensures EventOk(s', base, s'.events[k])
    {
      var ev := s.events[k];
      assert EventOk(s, base, ev);
      OutcomeGrows(ev.t, ev.outcome, base, s.log, ev.at, e);
    }
  }

  lemma {:induction false} LogTicketsGrow(s: State, s': State, a: nat, e: Entry)
    requires TicketsOk(s) && PCOf(s, a).Written? && !InLog(PCOf(s, a).t.id, s.log)
    requires e == Entry(PCOf(s, a).t.id, PCOf(s, a).t.call, PCOf(s, a).op, PCOf(s, a).reading)
    requires Fits(e.op, e.call, e.reading)
    requires s'.tickets == s.tickets && s'.log == s.log + [e]
    requires PCOf(s', a).Done? && PCOf(s', a).t == PCOf(s, a).t
    requires forall b: nat {:trigger PCOf(s', b)} :: b != a ==> PCOf(s', b) == PCOf(s, b)
    ensures TicketsOk(s')
  {
    assert forall i :: 0 <= i < |s.log| ==> s.log[i].ticket != e.ticket;
  }

  // ---------- all steps, all runs ----------

  lemma {:induction false} TmpStepInv(s: State, base: seq<TaskRecord>, step: Step)
    requires Inv(s, base)
    requires step.CreateTmp? || step.WriteSome? || step.WriteAll? || step.RenameFails?
    ensures Inv(Do(s, step), base)
  {
    var a := step.a;
    var pc := PCOf(s, a);
    assert AgentOk(pc, s.disk, base, s.log);
    match step {
      case CreateTmp(_, now) =>
        if pc.Loaded? {
          var s' := DoCreate(s, a, pc.t, pc.rs, now);
          TmpStep(s, base, a, PCOf(s', a), s'.disk);
        }
      case WriteSome(_) =>
        if pc.Writing? {
          var s' := SetInode(s, pc.file, Torn);
          assert s' == At(s, a, pc).(disk := s'.disk) by {
            assert s.agents[a := pc] == s.agents;
          }
          TmpStep(s, base, a, pc, s'.disk);
        }
      case WriteAll(_) =>
        if pc.Writing? {
          var s' := Do(s, step);
          TmpStep(s, base, a, Written(pc.t, pc.op, pc.reading, pc.rs, pc.file), s'.disk);
        }
      case RenameFails(_, removed) =>
        if pc.Written? {
          TmpStep(s, base, a, Done(pc.t, Failed), if removed then s.disk.(tmp := None) else s.disk);
        }
    }
  }

  lemma {:induction false} LocalStepInv(s: State, base: seq<TaskRecord>, step: Step)
    requires Inv(s, base)
    requires step.Open? || step.ReadFails? || step.CreateFails? || step.WriteFails? || step.Crash?
    ensures Inv(Do(s, step), base)
  {
    var a := step.a;
    var pc := PCOf(s, a);
    assert AgentOk(pc, s.disk, base, s.log);
    match step {
      case Open(_) =>
        if pc.Locked? {
          SameLock(s, a, Opened(pc.t, s.disk.main));
          LocalStep(s, Do(s, step), base, a, Opened(pc.t, s.disk.main));
        }
      case ReadFails(_) =>
        if pc.Locked? || pc.Opened? {
          SameLock(s, a, Done(pc.t, Failed));
          LocalStep(s, Do(s, step), base, a, Done(pc.t, Failed));
        }
      case CreateFails(_) =>
        if pc.Loaded? {
          SameLock(s, a, Done(pc.t, Failed));
          LocalStep(s, Do(s, step), base, a, Done(pc.t, Failed));
        }
      case WriteFails(_) =>
        if pc.Writing? {
          SameLock(s, a, Done(pc.t, Failed));
          LocalStep(s, Do(s, step), base, a, Done(pc.t, Failed));
        }
      case Crash(_) =>
        ReleaseLock(s, a);
        LocalStep(s, Do(s, step), base, a, Idle);
    }
  }

  lemma {:induction false} ReturnInv(s: State, base: seq<TaskRecord>, step: Step)
    requires Inv(s, base) && (step.LockFails? || step.Unlock?)
    ensures Inv(Do(s, step), base)
  {
    var a := step.a;
    var pc := PCOf(s, a);
    assert AgentOk(pc, s.disk, base, s.log);
    if step.Unlock? && pc.Done? {
      Return(s, Do(s, step), base, a, pc.outcome);
    } else if step.LockFails? && pc.Waiting? {
      assert Released(At(s, a, Idle), a) == At(s, a, Idle);
      Return(s, Do(s, step), base, a, Failed);
    }
  }

  lemma {:induction false} StepInv(s: State, base: seq<TaskRecord>, step: Step)
    requires Inv(s, base)
    ensures Inv(Do(s, step), base)
  {
    match step {
      case Invoke(a, call) => if PCOf(s, a).Idle? { InvokeInv(s, base, a, call); }
      case Acquire(a) => if PCOf(s, a).Waiting? { AcquireInv(s, base, a); }
      case Read(a) => if PCOf(s, a).Opened? { ReadInv(s, base, a); }
      case Rename(a) => if PCOf(s, a).Written? { RenameInv(s, base, a); }
      case LockFails(_) => ReturnInv(s, base, step);
      case Unlock(_) => ReturnInv(s, base, step);
      case Open(_) => LocalStepInv(s, base, step);
      case ReadFails(_) => LocalStepInv(s, base, step);
      case CreateFails(_) => LocalStepInv(s, base, step);
      case WriteFails(_) => LocalStepInv(s, base, step);
      case Crash(_) => LocalStepInv(s, base, step);
      case _ => TmpStepInv(s, base, step);
    }
  }

  lemma {:induction false} RunInv(s: State, base: seq<TaskRecord>, steps: seq<Step>)
    requires Initial(s, base)
    ensures Inv(Run(s, steps), base)
  {
    if steps == [] {
      InitialInv(s, base);
    } else {
      RunInv(s, base, steps[..|steps| - 1]);
      StepInv(Run(s, steps[..|steps| - 1]), base, steps[|steps| - 1]);
    }
  }

  // ---------- what it means for callers ----------

  /** In every run, whatever crashes and whatever is left over, the visible file is the
      committed operations applied in rename order. */
  lemma {:induction false} VisibleIsReplay(s: State, base: seq<TaskRecord>, steps: seq<Step>)
    requires Initial(s, base)
    ensures var r := Run(s, steps);
            Visible(r.disk) == Ok(Replay(base, Ops(r.log)))
  {
    RunInv(s, base, steps);
  }

  /** Every call that returned took effect at one moment between its start and its return:
      a reader saw the store as it was then, a writer was committed then and there, and a
      call that failed was never committed. */
  lemma {:induction false} ReturnsAreAtomic(s: State, base: seq<TaskRecord>, steps: seq<Step>, k: nat)
    requires Initial(s, base) && k < |Run(s, steps).events|
    ensures var r := Run(s, steps);
            var e := r.events[k];
            e.t.from <= e.at <= |r.log| && OutcomeOk(e.t, e.outcome, base, r.log, e.at)
  {
    RunInv(s, base, steps);
    assert EventOk(Run(s, steps), base, Run(s, steps).events[k]);
  }

  /** No call is committed twice, and each committed operation is the one its call asked for
      at the time it read from the clock: a save is stamped with that time, and a purge has
      the cutoff that lies its age before it. */
  lemma {:induction false} CommittedOnce(s: State, base: seq<TaskRecord>, steps: seq<Step>, i: nat, j: nat)
    requires Initial(s, base) && i < |Run(s, steps).log| && j < |Run(s, steps).log|
    ensures var log := Run(s, steps).log;
            var e := log[i];
            && (e.call.CallSave? ==> e.op == Save(e.call.record, e.reading))
            && (e.call.CallDelete? ==> e.op == Delete(e.call.id))
            && (e.call.CallPurge? ==> e.op == Purge(e.reading - e.call.maxAge))
            && !e.call.CallLoad? && !e.call.CallAll?
            && (e.ticket == log[j].ticket ==> i == j)
  {
    RunInv(s, base, steps);
    assert Fits(Run(s, steps).log[i].op, Run(s, steps).log[i].call, Run(s, steps).log[i].reading);
  }

  // ---------- what a committed call did to the file ----------

  /** Step `n` of a run commits an operation. */
  ghost predicate CommitsAt(s: State, steps: seq<Step>, n: nat) {
    n < |steps| && |Run(s, steps[..n + 1]).log| > |Run(s, steps[..n]).log|
  }

  /** What the path shows just before and just after step `n`. */
  ghost predicate Shows(s: State, steps: seq<Step>, n: nat, before: seq<TaskRecord>, after: seq<TaskRecord>) {
    && n < |steps|
    && Visible(Run(s, steps[..n]).disk) == Ok(before)
    && Visible(Run(s, steps[..n + 1]).disk) == Ok(after)
  }

  lemma {:induction false} OnlyRenameCommits(s: State, step: Step)
    requires |Do(s, step).log| > |s.log|
    ensures step.Rename? && PCOf(s, step.a).Written?
  {
  }

  lemma {:induction false} CommitStep(s: State, base: seq<TaskRecord>, steps: seq<Step>, n: nat) returns (e: Entry)
    requires Initial(s, base) && CommitsAt(s, steps, n)
    ensures Run(s, steps[..n + 1]).log == Run(s, steps[..n]).log + [e] && Fits(e.op, e.call, e.reading)
    ensures var d := Run(s, steps[..n]).disk;
            Visible(d).Ok? && Visible(Run(s, steps[..n + 1]).disk) == Ok(Apply(e.op, Visible(d).value))
  {
    var r := Run(s, steps[..n]);
    assert steps[..n + 1][..n] == steps[..n];
    RunInv(s, base, steps[..n]);
    OnlyRenameCommits(r, steps[n]);
    RenameInv(r, base, steps[n].a);
    var w := PCOf(r, steps[n].a);
    e := Entry(w.t.id, w.t.call, w.op, w.reading);
  }

  /** The last operation committed. */
  function LastOf(s: State): Entry
    requires s.log != []
  {
    s.log[|s.log| - 1]
  }

  /** A purge of some age takes out exactly the completed and failed records that had not been
      updated since that long before its clock reading: pending ones and younger ones stay. */
  lemma {:induction false} PurgeShows(s: State, base: seq<TaskRecord>, steps: seq<Step>, n: nat,
                                      before: seq<TaskRecord>, after: seq<TaskRecord>)
    requires Initial(s, base) && CommitsAt(s, steps, n) && Shows(s, steps, n, before, after)
    ensures var e := LastOf(Run(s, steps[..n + 1]));
            e.call.CallPurge? ==>
              forall r :: r in after <==> r in before && (r.status == PENDING || r.updatedAt > e.reading - e.call.maxAge)
  {
    var e := CommitStep(s, base, steps, n);
    if e.call.CallPurge? {
      FilterMembers(before, e.op);
    }
  }

  /** A save leaves its record under its id, stamped with its clock reading; a delete leaves
      none; neither touches another id. */
  lemma {:induction false} SaveShows(s: State, base: seq<TaskRecord>, steps: seq<Step>, n: nat,
                                     before: seq<TaskRecord>, after: seq<TaskRecord>, id: string)
    requires Initial(s, base) && CommitsAt(s, steps, n) && Shows(s, steps, n, before, after) && UniqueIds(base)
    ensures var e := LastOf(Run(s, steps[..n + 1]));
            && (e.call.CallSave? ==>
                  Find(after, id) == if id == e.call.record.id then Some(e.call.record.(updatedAt := e.reading))
                                     else Find(before, id))
            && (e.call.CallDelete? ==> Find(after, id) == if id == e.call.id then None else Find(before, id))
  {
    var e := CommitStep(s, base, steps, n);
    VisibleIsReplay(s, base, steps[..n]);
    ReplayUnique(base, Ops(Run(s, steps[..n]).log));
    FindApply(e.op, before, id);
    FindIn(before, id);
  }

  // ---------- undisturbed calls go through ----------

  /** Nobody holds the lock, and the agent has no call in flight. */
  ghost predicate Free(s: State, a: nat) {
    s.writer == None && s.readers == {} && PCOf(s, a).Idle?
  }

  /** Calling, taking the lock and reading the file. */
  function LookSteps(a: nat, call: Call): seq<Step> {
    [Invoke(a, call), Acquire(a), Open(a), Read(a)]
  }

  /** What a writing call does then, with a write that is first torn and then whole. */
  function ReplaceSteps(a: nat, now: int): seq<Step> {
    [CreateTmp(a, now), WriteSome(a), WriteAll(a), Rename(a), Unlock(a)]
  }

  function WriteSteps(a: nat, call: Call, now: int): seq<Step> {
    LookSteps(a, call) + ReplaceSteps(a, now)
  }

  function ReadSteps(a: nat, call: Call): seq<Step> {
    LookSteps(a, call) + [Unlock(a)]
  }

  lemma {:induction false} RunNext(s: State, steps: seq<Step>, n: nat)
    requires n < |steps|
    ensures Run(s, steps[..n + 1]) == Do(Run(s, steps[..n]), steps[n])
  {
    assert steps[..n + 1][..n] == steps[..n];
  }

  /** Only the agent and the lock are different. */
  ghost predicate Inside(r: State, s: State, a: nat, pc: PC, lock: bool)
    requires !pc.Idle?
  {
    && r.disk == s.disk && r.log == s.log && r.events == s.events && r.tickets == s.tickets + 1
    && PCOf(r, a) == pc
    && r.writer == (if lock && Writes(pc.t.call) then Some(a) else None)
    && r.readers == if lock && !Writes(pc.t.call) then {a} else {}
  }

  lemma {:induction false} SoloEnter(s: State, a: nat, call: Call)
    requires Free(s, a)
    ensures var t := Ticket(s.tickets, call, |s.log|);
            var r := Do(s, Invoke(a, call));
            Inside(r, s, a, Waiting(t), false) && Inside(Do(r, Acquire(a)), s, a, Locked(t), true)
  {
  }

  lemma {:induction false} SoloLook(r: State, s: State, a: nat, t: Ticket)
    requires Inside(r, s, a, Locked(t), true) && Visible(s.disk).Ok?
    ensures var o := Do(r, Open(a));
            && Inside(o, s, a, Opened(t, s.disk.main), true)
            && var rs := Visible(s.disk).value;
               Inside(Do(o, Read(a)), s, a, if Writes(t.call) then Loaded(t, rs) else Done(t, ReadOk(rs)), true)
  {
  }

  /** The call takes the lock alone and has read the file. */
  lemma {:induction false} SoloStart(s: State, base: seq<TaskRecord>, a: nat, call: Call)
    requires Inv(s, base) && Free(s, a)
    ensures var t, rs := Ticket(s.tickets, call, |s.log|), Visible(s.disk).value;
            Inside(Run(s, LookSteps(a, call)), s, a, if Writes(call) then Loaded(t, rs) else Done(t, ReadOk(rs)), true)
  {
    var t := Ticket(s.tickets, call, |s.log|);
    var steps := LookSteps(a, call);
    assert steps[..0] == [] && steps[..4] == steps;
    RunNext(s, steps, 0);
    RunNext(s, steps, 1);
    RunNext(s, steps, 2);
    RunNext(s, steps, 3);
    SoloEnter(s, a, call);
    SoloLook(Run(s, steps[..2]), s, a, t);
  }

  lemma {:induction false} SoloCreate(s: State, a: nat, t: Ticket, rs: seq<TaskRecord>, now: int)
    requires PCOf(s, a) == Loaded(t, rs) && Writes(t.call)
    ensures var r, op := Do(s, CreateTmp(a, now)), Resolve(t.call, now);
            && r.disk.tmp.Some? && PCOf(r, a) == Writing(t, op, now, Apply(op, rs), r.disk.tmp.value)
            && r.disk.tmp.value in r.disk.inodes && r.disk.main == s.disk.main
            && r.log == s.log && r.events == s.events && r.tickets == s.tickets
            && r.writer == s.writer && r.readers == s.readers
            && r.disk.next == s.disk.next + if s.disk.tmp.Some? then 0 else 1
  {
  }

  lemma {:induction false} SoloFill(s: State, a: nat, t: Ticket, op: Op, now: int, rs: seq<TaskRecord>, file: nat)
    requires PCOf(s, a) == Writing(t, op, now, rs, file) && s.disk.tmp == Some(file)
    ensures var r := Do(Do(s, WriteSome(a)), WriteAll(a));
            && PCOf(r, a) == Written(t, op, now, rs, file)
            && r.disk == s.disk.(inodes := r.disk.inodes) && file in r.disk.inodes && r.disk.inodes[file] == Full(rs)
            && r.log == s.log && r.events == s.events && r.tickets == s.tickets
            && r.writer == s.writer && r.readers == s.readers
  {
  }

  lemma {:induction false} SoloFinish(s: State, a: nat, t: Ticket, op: Op, now: int, rs: seq<TaskRecord>, file: nat)
    requires PCOf(s, a) == Written(t, op, now, rs, file) && s.disk.tmp == Some(file)
    requires file in s.disk.inodes && s.disk.inodes[file] == Full(rs) && s.writer == Some(a) && s.readers == {}
    ensures var r := Do(Do(s, Rename(a)), Unlock(a));
            && Free(r, a) && r.tickets == s.tickets
            && r.log == s.log + [Entry(t.id, t.call, op, now)]
            && r.events == s.events + [Event(t, WriteOk(|s.log|), |s.log| + 1)]
            && Visible(r.disk) == Ok(rs) && r.disk.tmp == None && r.disk.next == s.disk.next
  {
  }

  /** The steps after reading: the temporary file is made, torn, whole, renamed, unlocked. */
  lemma {:induction false} SoloRest(s: State, a: nat, t: Ticket, rs: seq<TaskRecord>, now: int)
    requires PCOf(s, a) == Loaded(t, rs) && Writes(t.call) && s.writer == Some(a) && s.readers == {}
    ensures var r := Do(Do(Do(Do(Do(s, CreateTmp(a, now)), WriteSome(a)), WriteAll(a)), Rename(a)), Unlock(a));
            && Free(r, a) && r.tickets == s.tickets
            && r.log == s.log + [Entry(t.id, t.call, Resolve(t.call, now), now)]
            && r.events == s.events + [Event(t, WriteOk(|s.log|), |s.log| + 1)]
            && r.disk.tmp == None && r.disk.next == s.disk.next + if s.disk.tmp.Some? then 0 else 1
  {
    var op := Resolve(t.call, now);
    SoloCreate(s, a, t, rs, now);
    var made := Do(s, CreateTmp(a, now));
    SoloFill(made, a, t, op, now, Apply(op, rs), made.disk.tmp.value);
    SoloFinish(Do(Do(made, WriteSome(a)), WriteAll(a)), a, t, op, now, Apply(op, rs), made.disk.tmp.value);
  }

  lemma {:induction false} RunFive(s: State, a: Step, b: Step, c: Step, d: Step, e: Step)
    ensures Run(s, [a, b, c, d, e]) == Do(Do(Do(Do(Do(s, a), b), c), d), e)
  {
    var steps := [a, b, c, d, e];
    assert steps[..0] == [] && steps[..5] == steps;
    RunNext(s, steps, 0);
    RunNext(s, steps, 1);
    RunNext(s, steps, 2);
    RunNext(s, steps, 3);
    RunNext(s, steps, 4);
  }

  lemma {:induction false} RunSplit(s: State, a: seq<Step>, b: seq<Step>)
    ensures Run(s, a + b) == Run(Run(s, a), b)
    decreases |b|
  {
    if b == [] {
      assert a + b == a;
    } else {
      RunSplit(s, a, b[..|b| - 1]);
      assert (a + b)[..|a + b| - 1] == a + b[..|b| - 1];
    }
  }

  /** A save, delete or purge that nobody disturbs is committed, at the clock reading it takes,
      and reported so; it leaves no temporary file, and reuses one that was left over. */
  lemma {:induction false} SoloWrite(s: State, base: seq<TaskRecord>, a: nat, call: Call, now: int)
    requires Inv(s, base) && Free(s, a) && (call.CallSave? || call.CallDelete? || call.CallPurge?)
    ensures var r := Run(s, WriteSteps(a, call, now));
            && Inv(r, base) && Free(r, a) && r.disk.tmp == None
            && |r.log| == |s.log| + 1 && s.log <= r.log && r.log[|s.log|].call == call && r.log[|s.log|].reading == now
            && r.log[|s.log|].ticket == s.tickets
            && r.events == s.events + [Event(Ticket(s.tickets, call, |s.log|), WriteOk(|s.log|), |s.log| + 1)]
            && r.disk.next == s.disk.next + if s.disk.tmp.Some? then 0 else 1
  {
    var read := Run(s, LookSteps(a, call));
    SoloStart(s, base, a, call);
    RunSplit(s, LookSteps(a, call), ReplaceSteps(a, now));
    RunFive(read, CreateTmp(a, now), WriteSome(a), WriteAll(a), Rename(a), Unlock(a));
    SoloRest(read, a, Ticket(s.tickets, call, |s.log|), Visible(s.disk).value, now);
    StepsKeep(s, base, WriteSteps(a, call, now));
  }

  lemma {:induction false} StepsKeep(s: State, base: seq<TaskRecord>, steps: seq<Step>)
    requires Inv(s, base)
    ensures Inv(Run(s, steps), base)
  {
    if steps != [] {
      StepsKeep(s, base, steps[..|steps| - 1]);
      StepInv(Run(s, steps[..|steps| - 1]), base, steps[|steps| - 1]);
    }
  }

  /** A writer that crashes with a half-written temporary file leaves it behind; the path shows
      what it did, nothing is committed, and the next writer gets on and reuses the file. */
  lemma {:induction false} CrashRecovers(s: State, base: seq<TaskRecord>, a: nat, call: Call, now: int)
    requires Inv(s, base) && PCOf(s, a).Writing? && (call.CallSave? || call.CallDelete? || call.CallPurge?)
    ensures var r := Do(Do(s, WriteSome(a)), Crash(a));
            && DataAt(r.disk, r.disk.tmp) == Some(Torn) && Visible(r.disk) == Visible(s.disk)
            && r.log == s.log && r.events == s.events && Free(r, a)
            && var w := Run(r, WriteSteps(a, call, now));
               w.disk.tmp == None && w.disk.next == s.disk.next && |w.log| == |s.log| + 1 && s.log <= w.log
               && w.log[|s.log|].call == call && w.log[|s.log|].reading == now
  {
    var torn := Do(s, WriteSome(a));
    StepInv(s, base, WriteSome(a));
    StepInv(torn, base, Crash(a));
    assert AgentOk(PCOf(s, a), s.disk, base, s.log);
    SoloWrite(Do(torn, Crash(a)), base, a, call, now);
  }

  /** A load or a listing that no writer disturbs returns what the path shows, and changes nothing. */
  lemma {:induction false} SoloRead(s: State, base: seq<TaskRecord>, a: nat, call: Call)
    requires Inv(s, base) && Free(s, a) && (call.CallLoad? || call.CallAll?)
    ensures var r := Run(s, ReadSteps(a, call));
            && Free(r, a) && r.disk == s.disk && r.log == s.log
            && r.events == s.events
                 + [Event(Ticket(s.tickets, call, |s.log|), ReadOk(Visible(s.disk).value), |s.log|)]
  {
    SoloStart(s, base, a, call);
    assert ReadSteps(a, call)[..4] == LookSteps(a, call);
  }

  /** Readers do not wait for each other. */
  lemma {:induction false} ReadersShare(s: State, a: nat)
    requires s.writer == None && PCOf(s, a).Waiting? && (PCOf(s, a).t.call.CallLoad? || PCOf(s, a).t.call.CallAll?)
    ensures PCOf(Do(s, Acquire(a)), a) == Locked(PCOf(s, a).t)
  {
  }

  lemma {:induction false} StepGrows(s: State, step: Step)
    ensures s.log <= Do(s, step).log
  {
  }

  /** Nothing committed is ever undone: the log of a run extends the log of each of its beginnings. */
  lemma {:induction false} LogGrows(s: State, steps: seq<Step>, n: nat)
    requires n <= |steps|
    ensures Run(s, steps[..n]).log <= Run(s, steps).log
    decreases |steps|
  {
    if n == |steps| {
      assert steps[..n] == steps;
    } else {
      var last := |steps| - 1;
      assert steps[..last][..n] == steps[..n];
      LogGrows(s, steps[..last], n);
      StepGrows(Run(s, steps[..last]), steps[last]);
    }
  }

  /** Two agents inside the store are both readers. */
  lemma {:induction false} WritersExclude(s: State, base: seq<TaskRecord>, steps: seq<Step>, a: nat, b: nat)
    requires Initial(s, base) && a != b
    requires Holds(PCOf(Run(s, steps), a)) && Holds(PCOf(Run(s, steps), b))
    ensures !Writes(PCOf(Run(s, steps), a).t.call) && !Writes(PCOf(Run(s, steps), b).t.call)
  {
    RunInv(s, base, steps);
    if Writes(PCOf(Run(s, steps), a).t.call) {
      OthersOutside(Run(s, steps), base, a, b);
    } else if Writes(PCOf(Run(s, steps), b).t.call) {
      OthersOutside(Run(s, steps), base, b, a);
    }
  }
}
