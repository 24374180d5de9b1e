/**
 The Agent's object store as the program runs it: a class over the objects directory and
 the SQLite tables.  Its methods follow the plans of LocalStore statement by statement,
 which the ghost journal records, so what is proved of every cut of a plan holds of a
 crash inside a method.
 */
module ObjectStore {
  import opened Base
  import opened Wire
  import opened LocalStore
  import opened StoreSafety
  import opened Outbox

  /** A row of local_objects. */
  datatype Row = Row(status: ObjectStatus, size: nat, updatedAt: Time)

  datatype Disk = Disk(files: map<Hash, Bytes>, objects: map<Hash, Row>, lan: map<FileId, LanFile>)

  const HOUR := 3600 * SECOND

  function Plain(objects: map<Hash, Row>): map<Hash, ObjectRecord> {
    map h | h in objects :: ObjectRecord(objects[h].status, objects[h].size)
  }

  lemma PlainUpdate(objects: map<Hash, Row>, h: Hash, row: Row)
    ensures Plain(objects[h := row]) == Plain(objects)[h := ObjectRecord(row.status, row.size)]
  {
  }

  lemma PlainRemove(objects: map<Hash, Row>, h: Hash)
    ensures Plain(objects - {h}) == Plain(objects) - {h}
  {
  }

  predicate Expired(f: LanFile, now: Time) {
    f.status != Active && f.purgeAfter.Some? && f.purgeAfter.value <= now
  }

  function ExpiredIds(lan: map<FileId, LanFile>, now: Time): set<FileId> {
    set id | id in lan && Expired(lan[id], now)
  }

  function Deadline(f: LanFile): Time {
    if f.purgeAfter.Some? then f.purgeAfter.value else 0
  }

  ghost predicate ByDeadline(lan: map<FileId, LanFile>, ids: seq<FileId>) {
    && (forall i :: 0 <= i < |ids| ==> ids[i] in lan)
    && forall i, j :: 0 <= i < j < |ids| ==> Deadline(lan[ids[i]]) <= Deadline(lan[ids[j]])
  }

  /** The ids listed are `done`, in order, and none of the rest is due before them. */
  ghost predicate ListedSoFar(lan: map<FileId, LanFile>, ids: seq<FileId>, done: set<FileId>, rest: set<FileId>) {
    && Enumerates(ids, done) && ByDeadline(lan, ids) && rest <= lan.Keys
    && forall i, e :: 0 <= i < |ids| && e in rest ==> Deadline(lan[ids[i]]) <= Deadline(lan[e])
  }

  lemma ListEarliest(lan: map<FileId, LanFile>, ids: seq<FileId>, done: set<FileId>, rest: set<FileId>, id: FileId)
    requires ListedSoFar(lan, ids, done, rest) && id in rest && id !in done
    requires forall e <- rest :: Deadline(lan[id]) <= Deadline(lan[e])
    ensures ListedSoFar(lan, ids + [id], done + {id}, rest - {id})
  {
    ListNext(ids, done, id);
  }

  lemma {:induction false} EarliestExists(lan: map<FileId, LanFile>, ids: set<FileId>) returns (id: FileId)
    requires ids != {} && ids <= lan.Keys
    ensures id in ids && forall e <- ids :: Deadline(lan[id]) <= Deadline(lan[e])
    decreases |ids|
  {
    id :| id in ids;
    if ids != {id} {
      var best := EarliestExists(lan, ids - {id});
      if Deadline(lan[best]) < Deadline(lan[id]) {
        id := best;
      }
    }
  }

  /** The object had references, and every one of them is among `gone`. */
  ghost predicate Orphaned(lan: map<FileId, LanFile>, gone: set<FileId>, h: Hash) {
    && (exists id <- lan :: lan[id].obj == h)
    && (forall id <- lan :: lan[id].obj == h ==> id in gone)
  }

  function StaleRecords(files: map<Hash, Bytes>, objects: map<Hash, Row>, now: Time): set<Hash> {
    set h | h in objects && h !in files && objects[h].status != Ready && objects[h].updatedAt < now - HOUR
  }

  class SQLiteObjectStore {
    var files: map<Hash, Bytes>
    var objects: map<Hash, Row>
    var lan: map<FileId, LanFile>
    var ops: seq<Op>
    ghost var journal: seq<Stmt>

    constructor ()
      ensures View() == Store(map[], map[], map[]) && ops == [] && journal == []
    {
      files, objects, lan, ops, journal := map[], map[], map[], [], [];
    }

    function View(): Store
      reads this
    {
      Store(files, Plain(objects), lan)
    }

    function Contents(): Disk
      reads this
    {
      Disk(files, objects, lan)
    }

    /** The foreign key of lan_files. */
    ghost predicate Valid()
      reads this
    {
      forall id <- lan :: lan[id].obj in objects
    }

    // ---- Durable statements ----

    method UpsertObject(h: Hash, size: nat, status: ObjectStatus, now: Time)
      modifies this
      ensures objects == old(objects)[h := Row(status, size, now)]
      ensures files == old(files) && lan == old(lan) && ops == old(ops)
      ensures Exec(old(View()), Upsert(h, size, status)) == Some(View())
      ensures journal == old(journal) + [Upsert(h, size, status)]
    {
      PlainUpdate(objects, h, Row(status, size, now));
      objects := objects[h := Row(status, size, now)];
      journal := journal + [Upsert(h, size, status)];
    }

    method UpdateObjectStatus(h: Hash, status: ObjectStatus, now: Time) returns (ok: bool)
      modifies this
      ensures ok <==> h in old(objects)
      ensures files == old(files) && lan == old(lan) && ops == old(ops)
      ensures if ok then
          && objects == old(objects)[h := Row(status, old(objects)[h].size, now)]
          && Exec(old(View()), SetStatus(h, status)) == Some(View())
          && journal == old(journal) + [SetStatus(h, status)]
        else
          Exec(old(View()), SetStatus(h, status)) == None && objects == old(objects) && journal == old(journal)
    {
      ok := h in objects;
      if ok {
        PlainUpdate(objects, h, objects[h].(status := status, updatedAt := now));
        objects := objects[h := objects[h].(status := status, updatedAt := now)];
        journal := journal + [SetStatus(h, status)];
      }
    }

    /** Only timestamps move, so no plan has a statement for it. */
    method UpdateObjectVerification(h: Hash, now: Time)
      modifies this
      ensures objects == if h in old(objects) then old(objects)[h := old(objects)[h].(updatedAt := now)] else old(objects)
      ensures files == old(files) && lan == old(lan) && ops == old(ops) && journal == old(journal)
      ensures View() == old(View())
    {
      if h in objects {
        PlainUpdate(objects, h, objects[h].(updatedAt := now));
        objects := objects[h := objects[h].(updatedAt := now)];
        assert Plain(objects) == old(Plain(objects));
      }
    }

    method CommitFile(h: Hash, bytes: Bytes)
      modifies this
      ensures files == old(files)[h := bytes] && objects == old(objects) && lan == old(lan) && ops == old(ops)
      ensures Exec(old(View()), WriteFile(h, bytes)) == Some(View())
      ensures journal == old(journal) + [WriteFile(h, bytes)]
    {
      files := files[h := bytes];
      journal := journal + [WriteFile(h, bytes)];
    }

    method RemoveObjectFile(h: Hash)
      modifies this
      ensures files == old(files) - {h} && objects == old(objects) && lan == old(lan) && ops == old(ops)
      ensures Exec(old(View()), RemoveFile(h)) == Some(View())
      ensures journal == old(journal) + [RemoveFile(h)]
    {
      files := files - {h};
      journal := journal + [RemoveFile(h)];
    }

    method DeleteRecord(h: Hash) returns (ok: bool)
      modifies this
      ensures ok <==> h in old(objects)
      ensures files == old(files) && ops == old(ops)
      ensures if ok then
          && objects == old(objects) - {h} && lan == Cascade(old(lan), h)
          && Exec(old(View()), DropRecord(h)) == Some(View())
          && journal == old(journal) + [DropRecord(h)]
        else
          Exec(old(View()), DropRecord(h)) == None && objects == old(objects) && lan == old(lan) && journal == old(journal)
    {
      ok := h in objects;
      if ok {
        PlainRemove(objects, h);
        objects, lan := objects - {h}, Cascade(lan, h);
        journal := journal + [DropRecord(h)];
      }
    }

    method FinalizePurge(id: FileId, owner: UserId) returns (ok: bool)
      modifies this
      ensures ok <==> id in old(lan) && old(lan)[id].owner == owner && old(lan)[id].status == Purging
      ensures files == old(files) && objects == old(objects) && ops == old(ops)
      ensures if ok then
          lan == old(lan) - {id} && Exec(old(View()), DropRow(id, owner)) == Some(View())
          && journal == old(journal) + [DropRow(id, owner)]
        else lan == old(lan) && journal == old(journal)
    {
      ok := id in lan && lan[id].owner == owner && lan[id].status == Purging;
      if ok {
        lan := lan - {id};
        journal := journal + [DropRow(id, owner)];
      }
    }

    // ---- Transactions on rows and the outbox ----

    method CreateLANFile(id: FileId, owner: UserId, obj: Hash, name: Name, normalized: Name, mime: Mime, endpoint: Option<Endpoint>)
      returns (r: Result<(), LocalError>)
      modifies this
      ensures old(Valid()) ==> Valid()
      ensures files == old(files) && objects == old(objects) && journal == old(journal)
      ensures match CreateTx(old(View()), id, owner, obj, name, normalized)
        case Err(e) => r == Err(e) && View() == old(View()) && ops == old(ops)
        case Ok(s) =>
          && r == Ok(()) && View() == s
          && ops == old(ops) + (if endpoint == None then [] else
               [NewOp(Registration(RegisterRequest(id, name, mime, old(objects)[obj].size, obj, endpoint.value)), Pending)])
      ensures r ==
        if exists other <- old(lan) :: old(lan)[other].owner == owner && old(lan)[other].normalized == normalized
                                       && old(lan)[other].status == Active then Err(NameConflict)
        else if obj !in old(objects) || old(objects)[obj].status != Ready then Err(NotReady)
        else if id in old(lan) then Err(Duplicate) else Ok(())
      ensures r.Ok? ==>
        && lan == old(lan)[id := LanFile(owner, obj, name, normalized, Active, None)]
        && ops == old(ops) + (if endpoint == None then [] else
             [Op(Registration(RegisterRequest(id, name, mime, old(objects)[obj].size, obj, endpoint.value)), Pending, 0, None)])
    {
      if NameInUse(View(), owner, normalized, None) {
        return Err(NameConflict);
      }
      if obj !in objects || objects[obj].status != Ready {
        return Err(NotReady);
      }
      if id in lan {
        return Err(Duplicate);
      }
      lan := lan[id := LanFile(owner, obj, name, normalized, Active, None)];
      if endpoint.Some? {
        ops := ops + [NewOp(Registration(RegisterRequest(id, name, mime, objects[obj].size, obj, endpoint.value)), Pending)];
      }
      r := Ok(());
    }

    method RenameLANFile(id: FileId, owner: UserId, name: Name, normalized: Name, coordinated: bool, opId: OpId)
      returns (r: Result<(), LocalError>)
      modifies this
      ensures old(Valid()) ==> Valid()
      ensures files == old(files) && objects == old(objects) && journal == old(journal)
      ensures match RenameTx(old(View()), id, owner, name, normalized)
        case Err(e) => r == Err(e) && View() == old(View()) && ops == old(ops)
        case Ok(s) =>
          && r == Ok(()) && View() == s
          && ops == old(ops) + QueueRow(coordinated, opId, id, Rename, Some(name), None, Pending)
      ensures r ==
        if id !in old(lan) || old(lan)[id].owner != owner then Err(NotFound)
        else if old(lan)[id].status != Active then Err(InvalidState)
        else if exists other <- old(lan) ::
          other != id && old(lan)[other].owner == owner && old(lan)[other].normalized == normalized
          && old(lan)[other].status == Active then Err(NameConflict)
        else Ok(())
      ensures r.Ok? ==>
        && lan == old(lan)[id := old(lan)[id].(name := name, normalized := normalized)]
        && ops == old(ops) + if coordinated then
             [Op(Lifecycle(LifecycleReport(opId, id, Rename, name, None)), Pending, 0, None)] else []
    {
      if id !in lan || lan[id].owner != owner {
        return Err(NotFound);
      }
      if lan[id].status != Active {
        return Err(InvalidState);
      }
      if NameInUse(View(), owner, normalized, Some(id)) {
        return Err(NameConflict);
      }
      lan := lan[id := lan[id].(name := name, normalized := normalized)];
      ops := ops + QueueRow(coordinated, opId, id, Rename, Some(name), None, Pending);
      r := Ok(());
    }

    method TrashLANFile(id: FileId, owner: UserId, now: Time, retention: int, coordinated: bool, opId: OpId)
      returns (r: Result<(), LocalError>)
      modifies this
      ensures old(Valid()) ==> Valid()
      ensures files == old(files) && objects == old(objects) && journal == old(journal)
      ensures match TrashTx(old(View()), id, owner, now + retention)
        case Err(e) => r == Err(e) && View() == old(View()) && ops == old(ops)
        case Ok(s) =>
          && r == Ok(()) && View() == s
          && ops == old(ops) + QueueRow(coordinated, opId, id, Trash, None, Some(now + retention), Pending)
      ensures r == if id in old(lan) && old(lan)[id].owner == owner && old(lan)[id].status == Active then Ok(()) else Err(NotFound)
      ensures r.Ok? ==>
        && lan == old(lan)[id := old(lan)[id].(status := Trashed, purgeAfter := Some(now + retention))]
        && ops == old(ops) + if coordinated then
             [Op(Lifecycle(LifecycleReport(opId, id, Trash, NO_NAME, Some(now + retention))), Pending, 0, None)] else []
    {
      var purgeAfter := now + retention;
      if id !in lan || lan[id].owner != owner || lan[id].status != Active {
        return Err(NotFound);
      }
      lan := lan[id := lan[id].(status := Trashed, purgeAfter := Some(purgeAfter))];
      ops := ops + QueueRow(coordinated, opId, id, Trash, None, Some(purgeAfter), Pending);
      r := Ok(());
    }

    method RestoreLANFile(id: FileId, owner: UserId, coordinated: bool, opId: OpId) returns (r: Result<(), LocalError>)
      modifies this
      ensures old(Valid()) ==> Valid()
      ensures files == old(files) && objects == old(objects) && journal == old(journal)
      ensures match RestoreTx(old(View()), id, owner)
        case Err(e) => r == Err(e) && View() == old(View()) && ops == old(ops)
        case Ok(s) =>
          && r == Ok(()) && View() == s
          && ops == old(ops) + QueueRow(coordinated, opId, id, Restore, None, None, Pending)
      ensures r ==
        if id !in old(lan) || old(lan)[id].owner != owner then Err(NotFound)
        else if old(lan)[id].status != Trashed then Err(InvalidState)
        else if exists other <- old(lan) ::
          old(lan)[other].owner == owner && old(lan)[other].normalized == old(lan)[id].normalized
          && old(lan)[other].status == Active then Err(NameConflict)
        else Ok(())
      ensures r.Ok? ==>
        && lan == old(lan)[id := old(lan)[id].(status := Active, purgeAfter := None)]
        && ops == old(ops) + if coordinated then
             [Op(Lifecycle(LifecycleReport(opId, id, Restore, NO_NAME, None)), Pending, 0, None)] else []
    {
      if id !in lan || lan[id].owner != owner {
        return Err(NotFound);
      }
      if lan[id].status != Trashed {
        return Err(InvalidState);
      }
      if NameInUse(View(), owner, lan[id].normalized, None) {
        return Err(NameConflict);
      }
      lan := lan[id := lan[id].(status := Active, purgeAfter := None)];
      ops := ops + QueueRow(coordinated, opId, id, Restore, None, None, Pending);
      r := Ok(());
    }

    // ---- Import ----

    /**
     Whether the file behind a READY record proves good; if not, the record is downgraded.
     */
    method VerifyPersisted(h: Hash, now: Time) returns (found: Inspection)
      requires h in objects
      modifies this
      ensures found == Inspect(old(View()), h)
      ensures files == old(files) && lan == old(lan) && ops == old(ops)
      ensures found == Intact ==> objects == old(objects) && journal == old(journal)
      ensures found != Intact ==>
        var st := SetStatus(h, if found == Absent then Missing else Corrupt);
        Exec(old(View()), st) == Some(View()) && journal == old(journal) + [st]
      ensures (found == Absent <==> h !in files) && (found == Intact <==> h in files && Sha(files[h]) == h)
      ensures objects == if found == Intact then old(objects)
        else old(objects)[h := Row(if h in files then Corrupt else Missing, old(objects)[h].size, now)]
    {
      if h !in files {
        var _ := UpdateObjectStatus(h, Missing, now);
        return Absent;
      }
      if Sha(files[h]) != h {
        var _ := UpdateObjectStatus(h, Corrupt, now);
        return Damaged;
      }
      found := Intact;
    }

    /** Imports staged content; runs exactly the statements of ImportPlan, in order. */
    method Import(bytes: Bytes, now: Time) returns (h: Hash)
      modifies this
      ensures h == Sha(bytes) && lan == old(lan) && ops == old(ops)
      ensures journal == old(journal) + ImportPlan(old(View()), bytes)
      ensures View() == ExecAll(old(View()), ImportPlan(old(View()), bytes))
      ensures old(Core(View()) && Healthy(View())) ==>
        && Core(View()) && Healthy(View())
        && h in objects && objects[h].status == Ready && objects[h].size == |bytes|
      ensures h in files && Sha(files[h]) == h
      ensures h in objects && objects[h].status == Ready && objects[h].size == |bytes|
      ensures files - {h} == old(files) - {h} && objects - {h} == old(objects) - {h}
      ensures files == old(files) || files[h] == bytes
    {
      ImportSafeIf(View(), bytes);
      h := Sha(bytes);
      ghost var start := View();
      if h in objects && objects[h].status == Ready && objects[h].size == |bytes| {
        var found := VerifyPersisted(h, now);
        if found == Intact {
          assert ImportPlan(start, bytes) == [];
          return;
        }
        ghost var st := SetStatus(h, if found == Absent then Missing else Corrupt);
        ghost var plan := [st] + PublishPlan(h, bytes);
        assert plan == ImportPlan(start, bytes);
        assert plan[0] == st && plan[1..] == PublishPlan(h, bytes);
      } else {
        assert ImportPlan(start, bytes) == PublishPlan(h, bytes);
      }
      Publish(h, bytes, now);
    }

    /** Importing, the rename, READY. */
    method Publish(h: Hash, bytes: Bytes, now: Time)
      requires h == Sha(bytes)
      modifies this
      ensures lan == old(lan) && ops == old(ops)
      ensures journal == old(journal) + PublishPlan(h, bytes)
      ensures View() == ExecAll(old(View()), PublishPlan(h, bytes))
      ensures files == old(files)[h := bytes] && h in objects && objects[h].status == Ready && objects[h].size == |bytes|
      ensures objects - {h} == old(objects) - {h}
    {
      ghost var start := View();
      UpsertObject(h, |bytes|, Importing, now);
      CommitFile(h, bytes);
      var _ := UpdateObjectStatus(h, Ready, now);
      PublishRuns(start, h, bytes);
      UpdateObjectVerification(h, now);
    }

    // ---- Delete and purge ----

    method DeleteObject(h: Hash, now: Time) returns (ok: bool)
      modifies this
      ensures ok <==> h in old(objects)
      ensures ops == old(ops)
      ensures if ok then
          && files == old(files) - {h} && objects == old(objects) - {h} && lan == Cascade(old(lan), h)
          && journal == old(journal) + DeletePlan(h)
          && View() == ExecAll(old(View()), DeletePlan(h))
        else View() == old(View()) && objects == old(objects) && journal == old(journal)
      ensures forall id :: id in lan <==> id in old(lan) && (old(lan)[id].obj != h || !ok)
      ensures forall id <- lan :: lan[id] == old(lan)[id]
    {
      ok := UpdateObjectStatus(h, Deleting, now);
      if ok {
        RemoveObjectFile(h);
        var dropped := DeleteRecord(h);
        DeleteSteps(old(View()), h);
        assert objects == old(objects) - {h};
        PlainRemove(old(objects), h);
      }
    }

    /** Marks the row and queues its report blocked, in one transaction; says whether it was the last reference. */
    method BeginPurge(id: FileId, owner: UserId, coordinated: bool, opId: OpId) returns (r: Result<bool, LocalError>)
      modifies this
      ensures old(Valid()) ==> Valid()
      ensures files == old(files) && objects == old(objects) && journal == old(journal)
      ensures match BeginPurgeTx(old(View()), id, owner)
        case Err(e) => r == Err(e) && View() == old(View()) && ops == old(ops)
        case Ok(marked) =>
          && View() == marked && r == Ok(LastReference(marked, id, marked.lan[id].obj))
          && ops == old(ops) + QueueRow(coordinated, opId, id, Purge, None, None, Processing)
      ensures r.Ok? <==>
        id in old(lan) && old(lan)[id].owner == owner && old(lan)[id].obj in objects && old(lan)[id].status != Active
      ensures r.Err? ==> r.error == if id in old(lan) && old(lan)[id].owner == owner && old(lan)[id].obj in objects
                                    then InvalidState else NotFound
      ensures r.Ok? ==>
        && lan == old(lan)[id := old(lan)[id].(status := Purging)]
        && (r.value <==> forall other <- old(lan) :: other != id ==> old(lan)[other].obj != old(lan)[id].obj)
        && ops == old(ops) + if coordinated then
             [Op(Lifecycle(LifecycleReport(opId, id, Purge, NO_NAME, None)), Processing, 0, None)] else []
    {
      if id !in lan || lan[id].owner != owner || lan[id].obj !in objects {
        return Err(NotFound);
      }
      if lan[id].status == Active {
        return Err(InvalidState);
      }
      lan := lan[id := lan[id].(status := Purging)];
      ops := ops + QueueRow(coordinated, opId, id, Purge, None, None, Processing);
      r := Ok(LastReference(View(), id, lan[id].obj));
      SameReferences(old(View()), View(), id);
    }

    /** Marks the row, deletes, then releases the report. */
    method PurgeLANFile(id: FileId, owner: UserId, coordinated: bool, opId: OpId, now: Time) returns (r: Result<(), LocalError>)
      requires Valid()
      modifies this
      ensures Valid()
      ensures match BeginPurgeTx(old(View()), id, owner)
        case Err(e) => r == Err(e) && View() == old(View()) && objects == old(objects) && ops == old(ops) && journal == old(journal)
        case Ok(marked) =>
          && r == Ok(()) && journal == old(journal) + PurgePlan(marked, id)
          && View() == ExecAll(marked, PurgePlan(marked, id))
          && ops == old(ops) + QueueRow(coordinated, opId, id, Purge, None, None, Pending)
          && lan == old(lan) - {id}
          && (if LastReference(old(View()), id, old(lan)[id].obj)
              then objects == old(objects) - {old(lan)[id].obj} && files == old(files) - {old(lan)[id].obj}
              else objects == old(objects) && files == old(files))
      ensures r.Ok? <==> id in old(lan) && old(lan)[id].owner == owner && old(lan)[id].status != Active
      ensures r.Ok? ==>
        && lan == old(lan) - {id}
        && (if exists other <- old(lan) :: other != id && old(lan)[other].obj == old(lan)[id].obj
            then objects == old(objects) && files == old(files)
            else objects == old(objects) - {old(lan)[id].obj} && files == old(files) - {old(lan)[id].obj})
        && ops == old(ops) + if coordinated then
             [Op(Lifecycle(LifecycleReport(opId, id, Purge, NO_NAME, None)), Pending, 0, None)] else []
      ensures r.Err? ==> lan == old(lan) && objects == old(objects) && files == old(files) && ops == old(ops)
    {
      var row := |ops|;
      var begun := BeginPurge(id, owner, coordinated, opId);
      if begun.Err? {
        return Err(begun.error);
      }
      var obj := lan[id].obj;
      ghost var marked := View();
      SameReferences(old(View()), marked, id);
      if begun.value {
        var _ := DeleteObject(obj, now);
        OnlyReference(old(lan), marked.lan, id, obj);
      } else {
        var _ := FinalizePurge(id, owner);
        assert PurgePlan(marked, id)[1..] == [];
        assert lan == old(lan) - {id};
      }
      if coordinated {
        ops := ops[row := ops[row].(status := Pending)];
      }
      r := Ok(());
    }

    /** ORDER BY purge_after. */
    method Earliest(rest: set<FileId>) returns (id: FileId)
      requires rest != {} && rest <= lan.Keys
      ensures id in rest && forall e <- rest :: Deadline(lan[id]) <= Deadline(lan[e])
    {
      ghost var _ := EarliestExists(lan, rest);
      id :| id in rest && forall e <- rest :: Deadline(lan[id]) <= Deadline(lan[e]);
    }

    /** The expired rows, each once, earliest deadline first. */
    method ListExpired(now: Time) returns (targets: seq<FileId>)
      ensures Enumerates(targets, ExpiredIds(lan, now)) && ByDeadline(lan, targets)
      ensures forall id :: id in targets <==>
        id in lan && lan[id].status != Active && lan[id].purgeAfter.Some? && lan[id].purgeAfter.value <= now
      ensures forall i, j :: 0 <= i < j < |targets| ==>
        targets[i] != targets[j] && lan[targets[i]].purgeAfter.value <= lan[targets[j]].purgeAfter.value
    {
      targets := [];
      var rest := ExpiredIds(lan, now);
      ghost var done := {};
      while rest != {}
        invariant done + rest == ExpiredIds(lan, now) && done !! rest
        invariant ListedSoFar(lan, targets, done, rest)
        decreases |rest|
      {
        var id := Earliest(rest);
        ListEarliest(lan, targets, done, rest, id);
        MoveOver(done, rest, id);
        targets, done := targets + [id], done + {id};
        rest := rest - {id};
      }
    }

    /**
     The retention sweep.  It meets no error, removes every expired row and no other, and an
     object loses its record and its bytes exactly when all the references it had expired.
     */
    method PurgeExpired(now: Time, coordinated: bool, opIds: FileId -> OpId) returns (errors: seq<LocalError>)
      requires Valid()
      modifies this
      ensures Valid() && errors == []
      ensures Swept(old(Contents()), Contents(), ExpiredIds(old(lan), now))
      ensures forall id <- old(lan) :: id !in lan <==>
        && old(lan)[id].status != Active
        && old(lan)[id].purgeAfter.Some? && old(lan)[id].purgeAfter.value <= now
      ensures forall id <- lan :: id in old(lan) && lan[id] == old(lan)[id]
      ensures forall h <- old(files) :: h !in files <==>
        && (exists id <- old(lan) :: old(lan)[id].obj == h)
        && (forall id <- old(lan) :: old(lan)[id].obj == h ==> id !in lan)
      ensures forall h <- files :: h in old(files) && files[h] == old(files)[h]
    {
      errors := [];
      var targets := ListExpired(now);
      ghost var start := Contents();
      ghost var done := {};
      var i := 0;
      while i < |targets|
        invariant i <= |targets| && Valid() && errors == []
        invariant forall k :: 0 <= k < |targets| ==> (targets[k] in done <==> k < i)
        invariant forall id <- done :: id in targets
        invariant Swept(start, Contents(), done)
      {
        var id := targets[i];
        assert id in targets && id in lan;
        var r := PurgeExpiredOne(id, now, coordinated, opIds(id), start, done);
        match r {
          case Err(e) => errors := errors + [e];
          case Ok(_) =>
        }
        done := done + {id};
        i := i + 1;
      }
      assert done == ExpiredIds(old(lan), now);
      SweptRows(start, Contents(), now);
    }

    /** One target of the sweep. */
    method PurgeExpiredOne(id: FileId, now: Time, coordinated: bool, opId: OpId, ghost start: Disk, ghost done: set<FileId>)
      returns (r: Result<(), LocalError>)
      requires Valid() && Swept(start, Contents(), done)
      requires id in lan && lan[id].status != Active && id !in done
      modifies this
      ensures Valid() && r == Ok(()) && Swept(start, Contents(), done + {id})
    {
      ghost var before := Contents();
      r := PurgeLANFile(id, lan[id].owner, coordinated, opId, now);
      SweepStep(start, before, Contents(), done, id);
    }

    // ---- Startup recovery ----

    /** Re-hashes a file, and stamps its record or, when the file is missing or does not match, marks it corrupt. */
    method Verify(h: Hash, now: Time) returns (good: bool)
      modifies this
      ensures files == old(files) && lan == old(lan) && ops == old(ops)
      ensures good <==> h in files && Sha(files[h]) == h
      ensures objects == if h !in old(objects) then old(objects)
        else old(objects)[h := Row(if good then old(objects)[h].status else Corrupt, old(objects)[h].size, now)]
      ensures journal == old(journal) + (if good || h !in old(objects) then [] else [SetStatus(h, Corrupt)])
    {
      if h !in files || Sha(files[h]) != h {
        var _ := UpdateObjectStatus(h, Corrupt, now);
        return false;
      }
      UpdateObjectVerification(h, now);
      good := true;
    }

    /** The walk's visit of one file; `stored` is the record listed when recovery began. */
    method Visit(h: Hash, stored: Option<Row>, now: Time, ghost start: Store)
      requires h in files && start.files == files
      requires stored == if h in objects then Some(objects[h]) else None
      requires (h in start.objects <==> stored.Some?)
      requires stored.Some? ==> start.objects[h] == ObjectRecord(stored.value.status, stored.value.size)
      modifies this
      ensures files == old(files) && lan == old(lan) && ops == old(ops)
      ensures objects == old(objects)[h := Row(RecoveredRecord(start, h).status, RecoveredRecord(start, h).size, now)]
      ensures journal == old(journal) + VisitPlan(start, h)
    {
      if stored == None {
        UpsertObject(h, |files[h]|, Quarantined, now);
        return;
      }
      var good := Verify(h, now);
      if !good {
        var _ := UpdateObjectStatus(h, Corrupt, now);
        return;
      }
      if stored.value.status != Ready {
        var _ := UpdateObjectStatus(h, Ready, now);
        UpdateObjectVerification(h, now);
      }
    }

    /** The forward scan: every file on disk, in some order. */
    method WalkFiles(now: Time, ghost start: Store) returns (ghost walk: seq<Hash>)
      requires start == View()
      modifies this
      ensures files == old(files) && lan == old(lan) && ops == old(ops)
      ensures Enumerates(walk, files.Keys) && journal == old(journal) + WalkPlan(start, walk)
      ensures Walked(old(objects), objects, start, files.Keys, now)
    {
      var stored := objects;
      var todo := files.Keys;
      ghost var done := {};
      walk := [];
      while todo != {}
        invariant done + todo == files.Keys && done !! todo
        invariant files == old(files) && lan == old(lan) && ops == old(ops)
        invariant Enumerates(walk, done)
        invariant journal == old(journal) + WalkPlan(start, walk)
        invariant Walked(stored, objects, start, done, now)
        decreases |todo|
      {
        var h :| h in todo;
        ghost var before, written := objects, journal;
        Visit(h, if h in stored then Some(stored[h]) else None, now, start);
        WalkedStep(stored, before, start, done, h, now);
        WalkPlanAppend(start, walk, h);
        Regroup(old(journal), WalkPlan(start, walk), VisitPlan(start, h));
        ListNext(walk, done, h);
        MoveOver(done, todo, h);
        walk, done := walk + [h], done + {h};
        todo := todo - {h};
      }
    }

    /** The check of one listed record against the disk. */
    method CheckRecord(h: Hash, stored: map<Hash, Row>, now: Time, ghost start: Store, ghost done: set<Hash>)
      requires start.files == files && start.objects == Plain(stored) && h in stored && h !in done
      requires Checked(stored, objects, start, done, now)
      modifies this
      ensures files == old(files) && lan == old(lan) && ops == old(ops)
      ensures Checked(stored, objects, start, done + {h}, now)
      ensures journal == old(journal)
        + (if h !in start.files && start.objects[h].status == Ready then [SetStatus(h, Missing)] else [])
    {
      if h !in files && stored[h].status == Ready {
        var _ := UpdateObjectStatus(h, Missing, now);
      }
      CheckedStep(stored, old(objects), start, done, h, now);
    }

    /** The reverse check: READY records whose file is missing are downgraded. */
    method CheckRecords(stored: map<Hash, Row>, now: Time, ghost start: Store) returns (ghost listed: seq<Hash>)
      requires start.files == files && start.objects == Plain(stored)
      requires Checked(stored, objects, start, {}, now)
      modifies this
      ensures files == old(files) && lan == old(lan) && ops == old(ops)
      ensures Enumerates(listed, stored.Keys) && journal == old(journal) + ReversePlan(start, listed)
      ensures Checked(stored, objects, start, stored.Keys, now)
    {
      var todo := stored.Keys;
      ghost var done := {};
      listed := [];
      while todo != {}
        invariant done + todo == stored.Keys && done !! todo
        invariant files == old(files) && lan == old(lan) && ops == old(ops)
        invariant Enumerates(listed, done)
        invariant journal == old(journal) + ReversePlan(start, listed)
        invariant Checked(stored, objects, start, done, now)
        decreases |todo|
      {
        var h :| h in todo;
        CheckRecord(h, stored, now, start, done);
        ReverseNext(old(journal), start, listed, h);
        ListNext(listed, done, h);
        MoveOver(done, todo, h);
        listed, done := listed + [h], done + {h};
        todo := todo - {h};
      }
    }

    /** cleanupStaleObjects. */
    method CleanupStale(now: Time, ghost start: Store) returns (ghost stale: seq<Hash>)
      requires start.files == files
      modifies this
      ensures files == old(files) && ops == old(ops)
      ensures Enumerates(stale, OldRecords(old(objects), now))
      ensures journal == old(journal) + CleanupPlan(start, stale)
      ensures objects == KeptRecords(old(objects), files, OldRecords(old(objects), now))
      ensures lan == KeptRows(old(lan), files, OldRecords(old(objects), now))
      ensures forall h <- old(objects) :: h !in objects <==>
        h !in files && old(objects)[h].status != Ready && old(objects)[h].updatedAt < now - 3600 * SECOND
      ensures forall h <- objects :: h in old(objects) && objects[h] == old(objects)[h]
      ensures forall id <- old(lan) :: id !in lan <==> old(lan)[id].obj in old(objects) && old(lan)[id].obj !in objects
      ensures forall id <- lan :: id in old(lan) && lan[id] == old(lan)[id]
    {
      var todo := OldRecords(objects, now);
      ghost var done := {};
      stale := [];
      KeptAll(objects, lan, files);
      while todo != {}
        invariant done + todo == OldRecords(old(objects), now) && done !! todo
        invariant files == old(files) && ops == old(ops)
        invariant Enumerates(stale, done)
        invariant journal == old(journal) + CleanupPlan(start, stale)
        invariant objects == KeptRecords(old(objects), files, done) && lan == KeptRows(old(lan), files, done)
        decreases |todo|
      {
        var h :| h in todo;
        ghost var step := if h in files then [] else [DropRecord(h)];
        if h !in files {
          var _ := DeleteRecord(h);
        }
        KeptNext(old(objects), old(lan), files, done, h);
        CleanupPlanAppend(start, stale, h);
        Regroup(old(journal), CleanupPlan(start, stale), step);
        ListNext(stale, done, h);
        MoveOver(done, todo, h);
        stale, done := stale + [h], done + {h};
        todo := todo - {h};
      }
    }

    /**
     Startup recovery at one instant: it runs the statements of RecoveryPlan for the orders
     it chose, and its whole effect is Recovered, with an hour as the age of stale records.
     */
    method StartupRecovery(now: Time) returns (ghost walk: seq<Hash>, ghost listed: seq<Hash>, ghost stale: seq<Hash>)
      modifies this
      ensures files == old(files) && ops == old(ops)
      ensures RecoveryOrders(old(View()), walk, listed, stale)
      ensures journal == old(journal) + RecoveryPlan(old(View()), walk, listed, stale)
      ensures View() == Recovered(old(View()), StaleRecords(old(files), old(objects), now))
      ensures forall h <- files ::
        && h in objects
        && objects[h].status == (if h !in old(objects) then Quarantined else if Sha(files[h]) == h then Ready else Corrupt)
        && objects[h].size == if h in old(objects) then old(objects)[h].size else |files[h]|
      ensures forall h <- old(objects) :: h !in files ==>
        var row := old(objects)[h];
        if row.status != Ready && row.updatedAt < now - 3600 * SECOND then h !in objects
        else
          && h in objects && objects[h].size == row.size
          && objects[h].status == if row.status == Ready then Missing else row.status
      ensures forall h <- objects :: h in files || h in old(objects)
      ensures forall id :: id in lan <==>
        && id in old(lan)
        && var h := old(lan)[id].obj;
        !(h !in files && h in old(objects) && old(objects)[h].status != Ready && old(objects)[h].updatedAt < now - 3600 * SECOND)
      ensures forall id <- lan :: lan[id] == old(lan)[id]
    {
      ghost var start := View();
      var stored := objects;
      walk := WalkFiles(now, start);
      WalkedAll(stored, objects, start, now);
      listed := CheckRecords(stored, now, start);
      ghost var checked := objects;
      stale := CleanupStale(now, start);
      StaleAfterScan(stored, checked, start, now);
      RecoveryView(stored, checked, objects, start, lan, now);
      Regroup(old(journal), WalkPlan(start, walk), ReversePlan(start, listed));
      Regroup(old(journal), WalkPlan(start, walk) + ReversePlan(start, listed), CleanupPlan(start, stale));
      OrdersAgree(stored, start, walk, listed, stale, now);
      RecoveredRows(stored, start, now, objects, lan);
    }
  }

  lemma ImportSafeIf(s: Store, bytes: Bytes)
    ensures Core(s) && Healthy(s) ==>
      var t := ExecAll(s, ImportPlan(s, bytes));
      Core(t) && Healthy(t) && Sha(bytes) in t.objects && t.objects[Sha(bytes)] == ObjectRecord(Ready, |bytes|)
  {
    if Core(s) && Healthy(s) {
      ImportSafe(s, bytes);
      SafeKeepsLive(s, ImportPlan(s, bytes));
    }
  }

  // ---- How far a scan has come ----

  lemma Regroup(a: seq<Stmt>, b: seq<Stmt>, c: seq<Stmt>)
    ensures (a + b) + c == a + (b + c)
  {
  }

  lemma MoveOver<T>(done: set<T>, todo: set<T>, x: T)
    requires x in todo && done !! todo
    ensures (done + {x}) + (todo - {x}) == done + todo && done + {x} !! todo - {x}
  {
  }

  lemma ListNext<T(!new)>(order: seq<T>, done: set<T>, x: T)
    requires Enumerates(order, done) && x !in done
    ensures Enumerates(order + [x], done + {x})
  {
  }

  /** Files in `done` have been visited; other records are as they were. */
  ghost predicate Walked(stored: map<Hash, Row>, objects: map<Hash, Row>, start: Store, done: set<Hash>, now: Time) {
    && done <= start.files.Keys && objects.Keys == stored.Keys + done
    && (forall h <- done :: objects[h] == Row(RecoveredRecord(start, h).status, RecoveredRecord(start, h).size, now))
    && (forall h <- stored :: h !in done ==> objects[h] == stored[h])
  }

  /** All files visited, and the records in `done` checked against the disk. */
  ghost predicate Checked(stored: map<Hash, Row>, objects: map<Hash, Row>, start: Store, done: set<Hash>, now: Time) {
    && objects.Keys == stored.Keys + start.files.Keys
    && (forall h <- start.files :: objects[h] == Row(RecoveredRecord(start, h).status, RecoveredRecord(start, h).size, now))
    && (forall h <- stored :: h !in start.files ==>
          objects[h] == if h in done && stored[h].status == Ready then Row(Missing, stored[h].size, now) else stored[h])
  }

  lemma WalkedStep(stored: map<Hash, Row>, objects: map<Hash, Row>, start: Store, done: set<Hash>, h: Hash, now: Time)
    requires Walked(stored, objects, start, done, now) && h in start.files
    ensures Walked(stored, objects[h := Row(RecoveredRecord(start, h).status, RecoveredRecord(start, h).size, now)],
                   start, done + {h}, now)
  {
  }

  lemma CheckedStep(stored: map<Hash, Row>, objects: map<Hash, Row>, start: Store, done: set<Hash>, h: Hash, now: Time)
    requires Checked(stored, objects, start, done, now) && h in stored && h !in done
    ensures Checked(stored,
      if h !in start.files && stored[h].status == Ready then objects[h := Row(Missing, stored[h].size, now)] else objects,
      start, done + {h}, now)
  {
  }

  lemma WalkedAll(stored: map<Hash, Row>, objects: map<Hash, Row>, start: Store, now: Time)
    requires Walked(stored, objects, start, start.files.Keys, now)
    ensures Checked(stored, objects, start, {}, now)
  {
  }

  lemma OrdersAgree(stored: map<Hash, Row>, start: Store, walk: seq<Hash>, listed: seq<Hash>, stale: seq<Hash>, now: Time)
    requires start.objects == Plain(stored)
    requires Enumerates(walk, start.files.Keys) && Enumerates(listed, stored.Keys)
    requires Enumerates(stale, StaleRecords(start.files, stored, now))
    ensures RecoveryOrders(start, walk, listed, stale)
  {
  }

  /** Records and rows left when the old records `gone` that have no file are deleted. */
  function KeptRecords(objects: map<Hash, Row>, files: map<Hash, Bytes>, gone: set<Hash>): map<Hash, Row> {
    map h | h in objects && !(h in gone && h !in files) :: objects[h]
  }

  function KeptRows(lan: map<FileId, LanFile>, files: map<Hash, Bytes>, gone: set<Hash>): map<FileId, LanFile> {
    map id | id in lan && !(lan[id].obj in gone && lan[id].obj !in files) :: lan[id]
  }

  lemma KeptAll(objects: map<Hash, Row>, lan: map<FileId, LanFile>, files: map<Hash, Bytes>)
    ensures KeptRecords(objects, files, {}) == objects && KeptRows(lan, files, {}) == lan
  {
  }

  lemma KeptNext(objects: map<Hash, Row>, lan: map<FileId, LanFile>, files: map<Hash, Bytes>, gone: set<Hash>, h: Hash)
    ensures KeptRecords(objects, files, gone + {h})
         == if h in files then KeptRecords(objects, files, gone) else KeptRecords(objects, files, gone) - {h}
    ensures KeptRows(lan, files, gone + {h})
         == if h in files then KeptRows(lan, files, gone) else Cascade(KeptRows(lan, files, gone), h)
  {
  }

  /** What GetStaleObjects returns. */
  function OldRecords(objects: map<Hash, Row>, now: Time): set<Hash> {
    set h | h in objects && objects[h].status != Ready && objects[h].updatedAt < now - HOUR
  }

  lemma {:induction false} WalkPlanAppend(s: Store, walk: seq<Hash>, h: Hash)
    requires forall x <- walk :: x in s.files
    requires h in s.files
    ensures WalkPlan(s, walk + [h]) == WalkPlan(s, walk) + VisitPlan(s, h)
    decreases |walk|
  {
    if walk == [] {
      assert [] + [h] == [h] && [h][1..] == [];
      assert VisitPlan(s, h) + [] == VisitPlan(s, h);
    } else {
      assert (walk + [h])[1..] == walk[1..] + [h];
      WalkPlanAppend(s, walk[1..], h);
    }
  }

  /** One more record checked, on top of what the journal held before the scan. */
  lemma ReverseNext(before: seq<Stmt>, start: Store, listed: seq<Hash>, h: Hash)
    requires h in start.objects && forall k <- listed :: k in start.objects
    ensures before + ReversePlan(start, listed + [h]) == before + ReversePlan(start, listed)
      + (if h !in start.files && start.objects[h].status == Ready then [SetStatus(h, Missing)] else [])
  {
    ReversePlanAppend(start, listed, h);
    Regroup(before, ReversePlan(start, listed), if h !in start.files && start.objects[h].status == Ready then [SetStatus(h, Missing)] else []);
  }

  lemma {:induction false} ReversePlanAppend(s: Store, listed: seq<Hash>, h: Hash)
    requires forall x <- listed :: x in s.objects
    requires h in s.objects
    ensures ReversePlan(s, listed + [h]) == ReversePlan(s, listed)
      + (if h !in s.files && s.objects[h].status == Ready then [SetStatus(h, Missing)] else [])
    decreases |listed|
  {
    if listed == [] {
      assert [] + [h] == [h] && [h][1..] == [];
    } else {
      assert (listed + [h])[1..] == listed[1..] + [h];
      ReversePlanAppend(s, listed[1..], h);
    }
  }

  lemma {:induction false} CleanupPlanAppend(s: Store, stale: seq<Hash>, h: Hash)
    ensures CleanupPlan(s, stale + [h]) == CleanupPlan(s, stale) + (if h in s.files then [] else [DropRecord(h)])
    decreases |stale|
  {
    if stale == [] {
      assert [] + [h] == [h] && [h][1..] == [];
    } else {
      assert (stale + [h])[1..] == stale[1..] + [h];
      CleanupPlanAppend(s, stale[1..], h);
    }
  }

  /** Whatever the scans touched is fresh, so only old records without files are stale. */
  lemma StaleAfterScan(stored: map<Hash, Row>, objects: map<Hash, Row>, start: Store, now: Time)
    requires Checked(stored, objects, start, stored.Keys, now)
    ensures OldRecords(objects, now) == StaleRecords(start.files, stored, now)
  {
  }

  lemma RecoveryView(stored: map<Hash, Row>, checked: map<Hash, Row>, objects: map<Hash, Row>, start: Store,
                     lan: map<FileId, LanFile>, now: Time)
    requires start.objects == Plain(stored) && Checked(stored, checked, start, stored.Keys, now)
    requires objects == KeptRecords(checked, start.files, StaleRecords(start.files, stored, now))
    requires lan == KeptRows(start.lan, start.files, StaleRecords(start.files, stored, now))
    ensures Store(start.files, Plain(objects), lan) == Recovered(start, StaleRecords(start.files, stored, now))
  {
    var r := Recovered(start, StaleRecords(start.files, stored, now));
    assert Plain(objects) == r.objects;
    assert lan == r.lan;
  }

  /** What one pass of recovery leaves, on the fields of the rows. */
  lemma RecoveredRows(stored: map<Hash, Row>, start: Store, now: Time, objects: map<Hash, Row>, lan: map<FileId, LanFile>)
    requires start.objects == Plain(stored)
    requires Store(start.files, Plain(objects), lan) == Recovered(start, StaleRecords(start.files, stored, now))
    ensures forall h <- start.files ::
      && h in objects
      && objects[h].status == (if h !in stored then Quarantined else if Sha(start.files[h]) == h then Ready else Corrupt)
      && objects[h].size == if h in stored then stored[h].size else |start.files[h]|
    ensures forall h <- stored :: h !in start.files ==>
      var row := stored[h];
      if row.status != Ready && row.updatedAt < now - 3600 * SECOND then h !in objects
      else
        && h in objects && objects[h].size == row.size
        && objects[h].status == if row.status == Ready then Missing else row.status
    ensures forall h <- objects :: h in start.files || h in stored
    ensures forall id :: id in lan <==>
      && id in start.lan
      && var h := start.lan[id].obj;
      !(h !in start.files && h in stored && stored[h].status != Ready && stored[h].updatedAt < now - 3600 * SECOND)
    ensures forall id <- lan :: lan[id] == start.lan[id]
  {
    var r := Recovered(start, StaleRecords(start.files, stored, now));
    assert Plain(objects) == r.objects && lan == r.lan;
    forall h ensures h in objects <==> h in r.objects {
      assert h in Plain(objects) <==> h in objects;
    }
    forall h | h in objects ensures objects[h].status == r.objects[h].status && objects[h].size == r.objects[h].size {
      assert Plain(objects)[h] == r.objects[h];
    }
  }

  /** The queue row a coordinated call adds. */
  function QueueRow(coordinated: bool, opId: OpId, id: FileId, action: Action, name: Option<Name>, purgeAfter: Option<Time>, status: OpStatus)
    : seq<Op>
  {
    if !coordinated then []
    else [NewOp(Lifecycle(LifecycleReport(opId, id, action, if name.Some? then name.value else NO_NAME, purgeAfter)), status)]
  }

  lemma PublishRuns(s: Store, h: Hash, bytes: Bytes)
    ensures var s1 := Exec(s, Upsert(h, |bytes|, Importing)).value;
      var s2 := Exec(s1, WriteFile(h, bytes)).value;
      Exec(s2, SetStatus(h, Ready)) == Some(ExecAll(s, PublishPlan(h, bytes)))
  {
    var s1 := Exec(s, Upsert(h, |bytes|, Importing)).value;
    var s2 := Exec(s1, WriteFile(h, bytes)).value;
    var plan := PublishPlan(h, bytes);
    assert plan[1..] == [WriteFile(h, bytes), SetStatus(h, Ready)];
    assert plan[1..][1..] == [SetStatus(h, Ready)];
    assert ExecAll(s2, [SetStatus(h, Ready)]) == Exec(s2, SetStatus(h, Ready)).value;
    assert ExecAll(s1, plan[1..]) == ExecAll(s2, [SetStatus(h, Ready)]);
  }

  lemma SameReferences(s: Store, marked: Store, id: FileId)
    requires id in s.lan && marked.lan == s.lan[id := s.lan[id].(status := Purging)]
    ensures LastReference(s, id, s.lan[id].obj) == LastReference(marked, id, s.lan[id].obj)
  {
    assert forall other <- s.lan :: marked.lan[other].obj == s.lan[other].obj;
  }

  lemma OnlyReference(lan: map<FileId, LanFile>, marked: map<FileId, LanFile>, id: FileId, obj: Hash)
    requires id in lan && lan[id].obj == obj && marked == lan[id := lan[id].(status := Purging)]
    requires forall other <- marked :: marked[other].obj == obj ==> other == id
    ensures Cascade(marked, obj) == lan - {id}
  {
  }

  /**
   What purging the rows `gone` does to the disk: those rows go and no other, and an object
   goes, record and bytes, exactly when it had references and all of them are among `gone`.
   */
  ghost predicate Swept(before: Disk, after: Disk, gone: set<FileId>) {
    && after.lan == before.lan - gone
    && forall h :: if Orphaned(before.lan, gone, h) then h !in after.objects && h !in after.files
         else SameObject(before, after, h)
  }

  /** What a sweep takes, on the fields of the rows. */
  lemma SweptRows(before: Disk, after: Disk, now: Time)
    requires Swept(before, after, ExpiredIds(before.lan, now))
    ensures forall id <- before.lan :: id !in after.lan <==>
      && before.lan[id].status != Active
      && before.lan[id].purgeAfter.Some? && before.lan[id].purgeAfter.value <= now
    ensures forall id <- after.lan :: id in before.lan && after.lan[id] == before.lan[id]
    ensures forall h <- before.files :: h !in after.files <==>
      && (exists id <- before.lan :: before.lan[id].obj == h)
      && (forall id <- before.lan :: before.lan[id].obj == h ==> id !in after.lan)
    ensures forall h <- after.files :: h in before.files && after.files[h] == before.files[h]
  {
    forall h | h in after.files ensures h in before.files && after.files[h] == before.files[h] {
      assert !Orphaned(before.lan, ExpiredIds(before.lan, now), h);
    }
    forall h | h in before.files
      ensures h !in after.files <==>
        && (exists id <- before.lan :: before.lan[id].obj == h)
        && (forall id <- before.lan :: before.lan[id].obj == h ==> id !in after.lan)
    {
      assert h !in after.files <==> Orphaned(before.lan, ExpiredIds(before.lan, now), h);
    }
  }

  /**
   The retention is kept, over both operations: a row trashed at `t` and not touched since is
   swept exactly once the retention has passed.
   */
  lemma RetentionIsKept(s: Store, id: FileId, owner: UserId, t: Time, retention: int, before: Disk, after: Disk, now: Time)
    requires TrashTx(s, id, owner, t + retention).Ok?
    requires id in before.lan && before.lan[id] == TrashTx(s, id, owner, t + retention).value.lan[id]
    requires Swept(before, after, ExpiredIds(before.lan, now))
    ensures id !in after.lan <==> now >= t + retention
  {
    SweptRows(before, after, now);
  }

  /** Restoring undoes trashing, row and all, exactly if no other active row took the name meanwhile. */
  lemma RestoreUndoesTrash(s: Store, id: FileId, owner: UserId, purgeAfter: Time)
    requires TrashTx(s, id, owner, purgeAfter).Ok? && s.lan[id].purgeAfter == None
    ensures RestoreTx(TrashTx(s, id, owner, purgeAfter).value, id, owner) ==
      if exists other <- s.lan :: other != id && s.lan[other].owner == owner && s.lan[other].status == Active
                                  && s.lan[other].normalized == s.lan[id].normalized
      then Err(NameConflict) else Ok(s)
  {
    var trashed := TrashTx(s, id, owner, purgeAfter).value;
    if RestoreTx(trashed, id, owner).Ok? {
      assert RestoreTx(trashed, id, owner).value.lan == s.lan;
    }
    forall other | other in s.lan && other != id ensures trashed.lan[other] == s.lan[other] {
    }
  }

  ghost predicate SameObject(before: Disk, after: Disk, h: Hash) {
    && (h in after.objects <==> h in before.objects) && (h in after.objects ==> after.objects[h] == before.objects[h])
    && (h in after.files <==> h in before.files) && (h in after.files ==> after.files[h] == before.files[h])
  }

  lemma SweepStep(start: Disk, before: Disk, after: Disk, done: set<FileId>, id: FileId)
    requires Swept(start, before, done) && id in before.lan && id !in done
    requires after.lan == before.lan - {id}
    requires var obj := before.lan[id].obj;
      if LastReference(Store(before.files, Plain(before.objects), before.lan), id, obj)
      then after.objects == before.objects - {obj} && after.files == before.files - {obj}
      else after.objects == before.objects && after.files == before.files
    ensures Swept(start, after, done + {id})
  {
    var obj := before.lan[id].obj;
    OrphanedNext(start.lan, done, id);
    assert after.lan == start.lan - (done + {id});
    forall h ensures if Orphaned(start.lan, done + {id}, h) then h !in after.objects && h !in after.files else SameObject(start, after, h) {
      assert if Orphaned(start.lan, done, h) then h !in before.objects && h !in before.files else SameObject(start, before, h);
    }
  }

  /** The object of the row purged next is orphaned now exactly when the row is its last reference. */
  lemma OrphanedNext(lan: map<FileId, LanFile>, done: set<FileId>, id: FileId)
    requires id in lan && id !in done
    ensures !Orphaned(lan, done, lan[id].obj)
    ensures Orphaned(lan, done + {id}, lan[id].obj) <==>
      forall other <- lan - done :: (lan - done)[other].obj == lan[id].obj ==> other == id
    ensures forall h :: h != lan[id].obj ==> Orphaned(lan, done + {id}, h) == Orphaned(lan, done, h)
  {
    if forall other <- lan - done :: (lan - done)[other].obj == lan[id].obj ==> other == id {
      forall other | other in lan && lan[other].obj == lan[id].obj ensures other in done + {id} {
        if other !in done { assert other in lan - done; }
      }
    }
  }
}
