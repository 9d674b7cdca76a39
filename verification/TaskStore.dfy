/** The file-backed task store (taskstore.go): records, the effect of each writing
    operation on the record list, and the store's methods under the lock. */
module TaskStore {
  import opened Common

  const PENDING := "pending"
  const COMPLETED := "completed"
  const FAILED := "failed"

  /** `OutputKind`; `Unknown` is its zero value. */
  datatype OutputKind = Unknown | URL | DataURI | JSON | PlainText

  datatype TaskRecord = TaskRecord(
    id: string,
    engineName: string,
    remoteID: string,
    status: string,
    createdAt: int,
    updatedAt: int,
    resultVal: string,
    resultKind: OutputKind,
    errMsg: string
  )

  /** A writing operation with the clock reading it uses already taken. */
  datatype Op = Save(record: TaskRecord, now: int) | Delete(id: string) | Purge(cutoff: int)

  // ---------- effect on the record list ----------

  /** Replace the first record with the same id, or append. */
  function Upsert(rs: seq<TaskRecord>, r: TaskRecord): seq<TaskRecord> {
    if rs == [] then [r]
    else if rs[0].id == r.id then [r] + rs[1..]
    else [rs[0]] + Upsert(rs[1..], r)
  }

  predicate Kept(op: Op, r: TaskRecord) {
    match op
    case Save(_, _) => true
    case Delete(id) => r.id != id
    case Purge(cutoff) => r.status == PENDING || r.updatedAt > cutoff
  }

  function Filter(rs: seq<TaskRecord>, op: Op): seq<TaskRecord> {
    if rs == [] then []
    else Filter(rs[..|rs| - 1], op) + if Kept(op, rs[|rs| - 1]) then [rs[|rs| - 1]] else []
  }

  function Apply(op: Op, rs: seq<TaskRecord>): seq<TaskRecord> {
    match op
    case Save(r, now) => Upsert(rs, r.(updatedAt := now))
    case _ => Filter(rs, op)
  }

  function Replay(base: seq<TaskRecord>, ops: seq<Op>): seq<TaskRecord> {
    if ops == [] then base else Apply(ops[|ops| - 1], Replay(base, ops[..|ops| - 1]))
  }

  /** The first record with an id. */
  function Find(rs: seq<TaskRecord>, id: string): Option<TaskRecord> {
    if rs == [] then None
    else if rs[0].id == id then Some(rs[0])
    else Find(rs[1..], id)
  }

  ghost predicate UniqueIds(rs: seq<TaskRecord>) {
    forall i, j :: 0 <= i < j < |rs| ==> rs[i].id != rs[j].id
  }

  // ---------- what the operations mean ----------

  lemma {:induction false} FindUpsert(rs: seq<TaskRecord>, r: TaskRecord, id: string)
    ensures Find(Upsert(rs, r), id) == if id == r.id then Some(r) else Find(rs, id)
  {
    if rs != [] && rs[0].id != r.id {
      FindUpsert(rs[1..], r, id);
    }
  }

  lemma {:induction false} FindIn(rs: seq<TaskRecord>, id: string)
    ensures Find(rs, id).Some? ==> Find(rs, id).value in rs && Find(rs, id).value.id == id
    ensures Find(rs, id).None? ==> forall r :: r in rs ==> r.id != id
  {
    if rs != [] && rs[0].id != id {
      FindIn(rs[1..], id);
      assert rs == [rs[0]] + rs[1..];
    }
  }

  lemma {:induction false} FindUnique(rs: seq<TaskRecord>, r: TaskRecord)
    requires UniqueIds(rs) && r in rs
    ensures Find(rs, r.id) == Some(r)
  {
    FindIn(rs, r.id);
  }

  lemma {:induction false} UpsertIds(rs: seq<TaskRecord>, r: TaskRecord)
    ensures forall x :: x in Upsert(rs, r) ==> x == r || x in rs
    ensures UniqueIds(rs) ==> UniqueIds(Upsert(rs, r))
  {
    if rs == [] {
    } else if rs[0].id == r.id {
      assert rs == [rs[0]] + rs[1..];
    } else {
      UpsertIds(rs[1..], r);
      assert rs == [rs[0]] + rs[1..];
      if UniqueIds(rs) {
        assert UniqueIds(rs[1..]);
        var u := Upsert(rs[1..], r);
        forall j | 0 <= j < |u|
          ensures u[j].id != rs[0].id
        {
          assert u[j] in u;
        }
      }
    }
  }

  lemma {:induction false} FilterMembers(rs: seq<TaskRecord>, op: Op)
    ensures forall r :: r in Filter(rs, op) <==> r in rs && Kept(op, r)
    ensures UniqueIds(rs) ==> UniqueIds(Filter(rs, op))
  {
    if rs != [] {
      var n := |rs| - 1;
      FilterMembers(rs[..n], op);
      assert rs == rs[..n] + [rs[n]];
      if UniqueIds(rs) {
        assert UniqueIds(rs[..n]);
        var f := Filter(rs[..n], op);
        forall i | 0 <= i < |f|
          ensures f[i].id != rs[n].id
        {
          assert f[i] in f;
        }
      }
    }
  }

  /** One operation, seen through `Find`, on a store with unique ids. */
  lemma {:induction false} FindApply(op: Op, rs: seq<TaskRecord>, id: string)
    requires UniqueIds(rs)
    ensures UniqueIds(Apply(op, rs))
    ensures Find(Apply(op, rs), id)
         == match op {
              case Save(r, now) => if id == r.id then Some(r.(updatedAt := now)) else Find(rs, id)
              case _ => if Find(rs, id).Some? && Kept(op, Find(rs, id).value) then Find(rs, id) else None
            }
  {
    match op {
      case Save(r, now) =>
        UpsertIds(rs, r.(updatedAt := now));
        FindUpsert(rs, r.(updatedAt := now), id);
      case _ =>
        FilterMembers(rs, op);
        FindIn(rs, id);
        FindIn(Filter(rs, op), id);
        if Find(rs, id).Some? && Kept(op, Find(rs, id).value) {
          FindUnique(Filter(rs, op), Find(rs, id).value);
        }
    }
  }

  lemma {:induction false} ReplayUnique(base: seq<TaskRecord>, ops: seq<Op>)
    requires UniqueIds(base)
    ensures UniqueIds(Replay(base, ops))
  {
    if ops != [] {
      ReplayUnique(base, ops[..|ops| - 1]);
      FindApply(ops[|ops| - 1], Replay(base, ops[..|ops| - 1]), "");
    }
  }

  lemma {:induction false} ReplayStep(base: seq<TaskRecord>, ops: seq<Op>, n: nat)
    requires n < |ops|
    ensures Replay(base, ops[..n + 1]) == Apply(ops[n], Replay(base, ops[..n]))
  {
    assert ops[..n + 1][..n] == ops[..n];
  }

  /** No lost update: a saved record stays until another save of its id, or a delete or purge
      that drops it, is committed later. */
  lemma {:induction false} NoLostUpdate(base: seq<TaskRecord>, ops: seq<Op>, i: nat, n: nat)
    requires UniqueIds(base) && i < n <= |ops| && ops[i].Save?
    requires forall j :: i < j < n ==>
               !(ops[j].Save? && ops[j].record.id == ops[i].record.id)
               && Kept(ops[j], ops[i].record.(updatedAt := ops[i].now))
    ensures Find(Replay(base, ops[..n]), ops[i].record.id)
         == Some(ops[i].record.(updatedAt := ops[i].now))
    decreases n
  {
    ReplayUnique(base, ops[..n - 1]);
    ReplayStep(base, ops, n - 1);
    FindApply(ops[n - 1], Replay(base, ops[..n - 1]), ops[i].record.id);
    if i < n - 1 {
      NoLostUpdate(base, ops, i, n - 1);
    }
  }

  // ---------- the store's methods, under the lock ----------

  /** What a path holds: an empty file reads as no records, a torn one does not decode. */
  datatype Data = Empty | Torn | Full(records: seq<TaskRecord>)

  datatype StoreError = LockFailed | ReadFailed | DecodeFailed | WriteFailed | NotFound

  function Decode(file: Option<Data>): Result<seq<TaskRecord>, StoreError> {
    match file
    case None => Ok([])
    case Some(Empty) => Ok([])
    case Some(Torn) => Err(DecodeFailed)
    case Some(Full(rs)) => Ok(rs)
  }

  /** Which of the operating system's parts in a call succeed: the lock, reading the file,
      and writing and renaming the temporary one. */
  datatype Io = Io(lock: bool, read: bool, write: bool)

  /** The records a call finds, or the error it ends with. */
  function Reading(file: Option<Data>, io: Io): Result<seq<TaskRecord>, StoreError> {
    if !io.lock then Err(LockFailed)
    else if !io.read then Err(ReadFailed)
    else Decode(file)
  }

  class FileTaskStore {
    /** The file at the store's path. */
    var file: Option<Data>

    constructor ()
      ensures file == None
    {
      file := None;
    }

    /** `readAll`, under a lock. */
    method ReadAll(io: Io) returns (r: Result<seq<TaskRecord>, StoreError>)
      ensures io.lock ==> r == Reading(file, io)
    {
      if !io.read {
        return Err(ReadFailed);
      }
      match file {
        case None => r := Ok([]);
        case Some(Empty) => r := Ok([]);
        case Some(Torn) => r := Err(DecodeFailed);
        case Some(Full(rs)) => r := Ok(rs);
      }
    }

    /** `writeAll`: replace the file whole, or fail and leave it alone. */
    method WriteAll(rs: seq<TaskRecord>, io: Io) returns (r: Result<(), StoreError>)
      modifies this
      ensures r == if io.write then Ok(()) else Err(WriteFailed)
      ensures file == if io.write then Some(Full(rs)) else old(file)
    {
      if io.write {
        file := Some(Full(rs));
        r := Ok(());
      } else {
        r := Err(WriteFailed);
      }
    }

    method Save(record: TaskRecord, now: int, io: Io) returns (r: Result<(), StoreError>)
      modifies this
      ensures Reading(old(file), io).Err? ==> r == Err(Reading(old(file), io).error) && file == old(file)
      ensures Reading(old(file), io).Ok? ==>
                && r == (if io.write then Ok(()) else Err(WriteFailed))
                && file == if io.write then Some(Full(Apply(Op.Save(record, now), Reading(old(file), io).value)))
                           else old(file)
    {
      if !io.lock {
        return Err(LockFailed);
      }
      var read := ReadAll(io);
      if read.Err? {
        return Err(read.error);
      }
      var records := read.value;
      var stamped := record.(updatedAt := now);
      var found := false;
      var i := 0;
      assert read.value[0..] == read.value;
      while i < |records|
        invariant 0 <= i <= |records| && !found && file == old(file)
        invariant records == read.value
        invariant Upsert(read.value, stamped) == read.value[..i] + Upsert(read.value[i..], stamped)
      {
        if records[i].id == record.id {
          UpsertHit(read.value, stamped, i);
          records := records[i := stamped];
          found := true;
          break;
        }
        UpsertMiss(read.value, stamped, i);
        i := i + 1;
      }
      if !found {
        assert read.value[i..] == [] && read.value[..i] == read.value;
        records := records + [stamped];
      }
      r := WriteAll(records, io);
    }

    method Delete(id: string, io: Io) returns (r: Result<(), StoreError>)
      modifies this
      ensures Reading(old(file), io).Err? ==> r == Err(Reading(old(file), io).error) && file == old(file)
      ensures Reading(old(file), io).Ok? ==>
                && r == (if io.write then Ok(()) else Err(WriteFailed))
                && file == if io.write then Some(Full(Apply(Op.Delete(id), Reading(old(file), io).value)))
                           else old(file)
    {
      r := Rewrite(Op.Delete(id), io);
    }

    method Purge(now: int, maxAge: int, io: Io) returns (r: Result<(), StoreError>)
      modifies this
      ensures Reading(old(file), io).Err? ==> r == Err(Reading(old(file), io).error) && file == old(file)
      ensures Reading(old(file), io).Ok? ==>
                && r == (if io.write then Ok(()) else Err(WriteFailed))
                && file == if io.write then Some(Full(Apply(Op.Purge(now - maxAge), Reading(old(file), io).value)))
                           else old(file)
    {
      r := Rewrite(Op.Purge(now - maxAge), io);
    }

    /** The shape `Delete` and `Purge` share: read, filter in place, write. */
    method Rewrite(op: Op, io: Io) returns (r: Result<(), StoreError>)
      requires !op.Save?
      modifies this
      ensures Reading(old(file), io).Err? ==> r == Err(Reading(old(file), io).error) && file == old(file)
      ensures Reading(old(file), io).Ok? ==>
                && r == (if io.write then Ok(()) else Err(WriteFailed))
                && file == if io.write then Some(Full(Apply(op, Reading(old(file), io).value))) else old(file)
    {
      if !io.lock {
        return Err(LockFailed);
      }
      var read := ReadAll(io);
      if read.Err? {
        return Err(read.error);
      }
      var rs := read.value;
      var records := new TaskRecord[|rs|](i requires 0 <= i < |rs| => rs[i]);
      assert records[..] == rs;
      var n := FilterInPlace(records, op);
      r := WriteAll(records[..n], io);
    }

    method Load(id: string, io: Io) returns (r: Result<TaskRecord, StoreError>)
      ensures Reading(file, io).Err? ==> r == Err(Reading(file, io).error)
      ensures Reading(file, io).Ok? ==>
                var found := Find(Reading(file, io).value, id);
                r == if found.Some? then Ok(found.value) else Err(NotFound)
    {
      if !io.lock {
        return Err(LockFailed);
      }
      var read := ReadAll(io);
      if read.Err? {
        return Err(read.error);
      }
      var rs := read.value;
      for i := 0 to |rs|
        invariant Find(rs, id) == Find(rs[i..], id)
      {
        if rs[i].id == id {
          return Ok(rs[i]);
        }
        assert rs[i..][1..] == rs[i + 1..];
      }
      r := Err(NotFound);
    }

    method All(io: Io) returns (r: Result<seq<TaskRecord>, StoreError>)
      ensures r == Reading(file, io)
    {
      if !io.lock {
        return Err(LockFailed);
      }
      r := ReadAll(io);
    }
  }

  lemma {:induction false} UpsertHit(rs: seq<TaskRecord>, r: TaskRecord, i: nat)
    requires i < |rs| && rs[i].id == r.id
    ensures rs[..i] + Upsert(rs[i..], r) == rs[i := r]
  {
    assert rs[i..][1..] == rs[i + 1..];
  }

  lemma {:induction false} UpsertMiss(rs: seq<TaskRecord>, r: TaskRecord, i: nat)
    requires i < |rs| && rs[i].id != r.id
    ensures rs[..i] + Upsert(rs[i..], r) == rs[..i + 1] + Upsert(rs[i + 1..], r)
  {
    assert rs[i..][1..] == rs[i + 1..];
  }

  /** Filtering within the array itself, over a slice of length zero: the kept records move to the
      front of the same array. */
  method FilterInPlace(a: array<TaskRecord>, op: Op) returns (n: nat)
    modifies a
    ensures n <= a.Length && a[..n] == Filter(old(a[..]), op)
  {
    n := 0;
    for i := 0 to a.Length
      invariant n <= i
      invariant a[..n] == Filter(old(a[..i]), op)
      invariant a[i..] == old(a[i..])
    {
      ghost var was := old(a[..]);
      assert was[..i + 1][..i] == was[..i];
      assert old(a[..i + 1]) == was[..i + 1] && old(a[..i]) == was[..i];
      assert a[i] == a[i..][0] && a[i] == was[i];
      assert a[i + 1..] == a[i..][1..];
      if Kept(op, a[i]) {
        a[n] := a[i];
        n := n + 1;
      }
    }
    assert old(a[..a.Length]) == old(a[..]);
  }
}
