/** The transfer tables of one account, and how the next task and its source are chosen. */
module Scheduler {
  import opened Base
  import opened TransferTask
  import Rows = ServerCatalog

  /** Task ids are compared to break ties, so they are numbers here. */
  type TaskId = nat
  type EntryId(==, 0, !new)

  datatype Replica = Replica(
    state: Rows.ReplicaState, size: nat, endpoint: Option<Endpoint>, clientFile: Option<FileId>, updatedAt: Time)
  datatype ReplicaKey = ReplicaKey(obj: ObjectId, device: DeviceId)
  datatype Device = Device(active: bool, lastSeen: Option<Time>)
  datatype SourceKey = SourceKey(task: TaskId, device: DeviceId)
  datatype Source = Source(rank: int, disabled: bool)
  datatype FileEntry = FileEntry(obj: ObjectId, active: bool)
  datatype Content = Content(size: nat, sha256: Hash)

  /** The tables the scheduler reads and the rest of the server may change at any time. */
  datatype World = World(
    replicas: map<ReplicaKey, Replica>, devices: map<DeviceId, Device>,
    entries: map<EntryId, FileEntry>, objects: map<ObjectId, Content>)

  datatype Db = Db(tasks: map<TaskId, Task>, sources: map<SourceKey, Source>, world: World)

  /** The assignment a claim hands to the target Agent. */
  datatype Assignment = Assignment(
    task: TaskId, obj: ObjectId, source: DeviceId, content: Content, attempt: nat, version: nat, until: Time)

  // ---- Queries ----

  predicate IsActive(w: World, device: DeviceId) {
    device in w.devices && w.devices[device].active
  }

  predicate IsReady(w: World, obj: ObjectId, device: DeviceId) {
    ReplicaKey(obj, device) in w.replicas && w.replicas[ReplicaKey(obj, device)].state == Rows.ReplicaReady
  }

  /** A ready copy with an endpoint and a client file id, on an active device. */
  predicate HasCopy(w: World, obj: ObjectId, device: DeviceId) {
    && IsReady(w, obj, device) && IsActive(w, device)
    && var copy := w.replicas[ReplicaKey(obj, device)];
    copy.endpoint.Some? && copy.clientFile.Some?
  }

  /** The unique index on the client file ids of one device's undeleted replicas. */
  predicate FileIdTaken(w: World, device: DeviceId, localFile: FileId, except: ReplicaKey) {
    exists k <- w.replicas ::
      && k != except && k.device == device
      && w.replicas[k].clientFile == Some(localFile) && w.replicas[k].state != Rows.ReplicaDeleted
  }

  /** Devices that can serve the object to `target`. */
  function Usable(w: World, obj: ObjectId, target: DeviceId): set<DeviceId> {
    set d | d in w.devices && d != target && HasCopy(w, obj, d)
  }

  predicate HasActiveEntry(w: World, obj: ObjectId) {
    exists e <- w.entries :: w.entries[e].active && w.entries[e].obj == obj
  }

  predicate Eligible(db: Db, device: DeviceId, now: Time, id: TaskId) {
    && id in db.tasks && Claimable(db.tasks[id], device, now)
    && Usable(db.world, db.tasks[id].obj, db.tasks[id].target) != {}
  }

  function EligibleTasks(db: Db, device: DeviceId, now: Time): set<TaskId> {
    set i | i in db.tasks && Eligible(db, device, now, i)
  }

  /** Strictly before in the scheduling order: priority, then age, then id. */
  predicate Precedes(a: Task, i: TaskId, b: Task, j: TaskId) {
    a.priority > b.priority
    || (a.priority == b.priority && (a.createdAt < b.createdAt || (a.createdAt == b.createdAt && i < j)))
  }

  ghost predicate IsFirst(tasks: map<TaskId, Task>, ids: set<TaskId>, id: TaskId)
    requires ids <= tasks.Keys
  {
    id in ids && forall other <- ids :: other != id ==> Precedes(tasks[id], id, tasks[other], other)
  }

  /** ORDER BY last_seen_at DESC NULLS LAST. */
  predicate SeenLater(w: World, d: DeviceId, e: DeviceId)
    requires d in w.devices && e in w.devices
  {
    w.devices[d].lastSeen.Some?
    && (w.devices[e].lastSeen == None || w.devices[d].lastSeen.value > w.devices[e].lastSeen.value)
  }

  predicate RanksBefore(w: World, obj: ObjectId, d: DeviceId, e: DeviceId)
    requires d in w.devices && e in w.devices
    requires ReplicaKey(obj, d) in w.replicas && ReplicaKey(obj, e) in w.replicas
  {
    SeenLater(w, d, e)
    || (!SeenLater(w, e, d) && w.replicas[ReplicaKey(obj, d)].updatedAt > w.replicas[ReplicaKey(obj, e)].updatedAt)
  }

  /** A result of row_number() over the usable devices: 1.., distinct, respecting the order. */
  ghost predicate IsRanking(w: World, obj: ObjectId, target: DeviceId, ranks: map<DeviceId, int>) {
    && ranks.Keys == Usable(w, obj, target)
    && (forall d <- ranks :: 1 <= ranks[d] <= |ranks|)
    && (forall d, e :: d in ranks && e in ranks && d != e ==> ranks[d] != ranks[e])
    && (forall d, e :: d in ranks && e in ranks && RanksBefore(w, obj, d, e) ==> ranks[d] < ranks[e])
  }

  /** Fresh ranks for the usable devices; other source rows stay as they are. */
  function Refreshed(sources: map<SourceKey, Source>, id: TaskId, ranks: map<DeviceId, int>): map<SourceKey, Source> {
    sources + map d | d in ranks :: SourceKey(id, d) := Source(ranks[d], false)
  }

  /** A source row the assignment query can pick: it does not ask that the device differ from the target. */
  predicate Selectable(db: Db, id: TaskId, obj: ObjectId, d: DeviceId) {
    SourceKey(id, d) in db.sources && !db.sources[SourceKey(id, d)].disabled && HasCopy(db.world, obj, d)
  }

  /** ORDER BY rank, last_seen_at DESC NULLS LAST. */
  predicate Better(db: Db, id: TaskId, d: DeviceId, e: DeviceId)
    requires SourceKey(id, d) in db.sources && SourceKey(id, e) in db.sources
    requires d in db.world.devices && e in db.world.devices
  {
    var r, q := db.sources[SourceKey(id, d)].rank, db.sources[SourceKey(id, e)].rank;
    r < q || (r == q && !SeenLater(db.world, e, d))
  }

  /** The row the assignment query picks. */
  ghost predicate IsPicked(db: Db, id: TaskId, obj: ObjectId, d: DeviceId) {
    && Selectable(db, id, obj, d)
    && forall e <- db.world.devices :: Selectable(db, id, obj, e) && e != d ==> Better(db, id, d, e)
  }

  predicate IsLiveFor(t: Task, obj: ObjectId, target: DeviceId) {
    !Terminal(t.state) && t.obj == obj && t.target == target
  }

  predicate HasLive(db: Db, obj: ObjectId, target: DeviceId) {
    exists i <- db.tasks :: IsLiveFor(db.tasks[i], obj, target)
  }

  // ---- What each operation does to the tables ----

  /** What a completion report says of the copy. */
  datatype Announcement = Announcement(content: Content, localFile: FileId, endpoint: Endpoint)

  predicate WellFormed(n: Announcement) {
    Rows.ValidFileId(n.localFile) && Rows.ValidHash(n.content.sha256) && Rows.CleanEndpoint(n.endpoint).Some?
  }

  /** One committed change, with everything that decides it. */
  datatype Change =
    | Created(file: EntryId, target: DeviceId, priority: int, id: TaskId, now: Time, ranks: map<DeviceId, int>)
    | Inserted(obj: ObjectId, target: DeviceId, priority: int, id: TaskId, now: Time)
    | SourceAdded(id: TaskId, device: DeviceId, rank: int)
    | Granted(device: DeviceId, lease: int, now: Time, ranks: map<DeviceId, int>, a: Assignment)
    | Leased(id: TaskId, device: DeviceId, lease: int, now: Time)
    | Reported(id: TaskId, device: DeviceId, expected: nat, state: TaskState, now: Time)
    | Failed(id: TaskId, device: DeviceId, expected: nat, now: Time)
    | Finished(id: TaskId, device: DeviceId, expected: nat, n: Announcement, now: Time)
    | Cancelled(id: TaskId)
    | Elsewhere(world: World)

  function WithTask(db: Db, id: TaskId, t: Task): Db {
    db.(tasks := db.tasks[id := t])
  }

  function WithCopy(w: World, obj: ObjectId, device: DeviceId, n: Announcement, now: Time): World {
    var copy := Replica(Rows.ReplicaReady, n.content.size, Rows.CleanEndpoint(n.endpoint), Some(n.localFile), now);
    w.(replicas := w.replicas[ReplicaKey(obj, device) := copy])
  }

  ghost predicate CreateEffect(before: Db, file: EntryId, target: DeviceId, priority: int, id: TaskId, now: Time,
                               ranks: map<DeviceId, int>, after: Db) {
    && id !in before.tasks && file in before.world.entries && before.world.entries[file].active
    && IsActive(before.world, target)
    && var obj := before.world.entries[file].obj;
    && !IsReady(before.world, obj, target) && !HasLive(before, obj, target)
    && IsRanking(before.world, obj, target, ranks) && ranks != map[]
    && after == Db(before.tasks[id := NewTask(obj, target, priority, now)], Refreshed(before.sources, id, ranks), before.world)
  }

  ghost predicate ClaimEffect(before: Db, device: DeviceId, lease: int, now: Time, ranks: map<DeviceId, int>,
                              a: Assignment, after: Db) {
    && ValidLease(lease)
    && IsFirst(before.tasks, EligibleTasks(before, device, now), a.task)
    && a.obj == before.tasks[a.task].obj
    && IsRanking(before.world, a.obj, before.tasks[a.task].target, ranks)
    && after == Db(before.tasks[a.task := Claimed(before.tasks[a.task], device, now + lease)],
                   Refreshed(before.sources, a.task, ranks), before.world)
    && IsPicked(after, a.task, a.obj, a.source)
    && HasActiveEntry(before.world, a.obj)
    && a.obj in before.world.objects && a.content == before.world.objects[a.obj]
    && a.attempt == after.tasks[a.task].attempt && a.version == after.tasks[a.task].version && a.until == now + lease
  }

  /** The live-task index: another live task has the object and the target. */
  predicate LiveElsewhere(db: Db, id: TaskId)
    requires id in db.tasks
  {
    exists i <- db.tasks :: i != id && IsLiveFor(db.tasks[i], db.tasks[id].obj, db.tasks[id].target)
  }

  predicate IsMove(ch: Change) {
    ch.Leased? || ch.Reported? || ch.Failed? || ch.Finished?
  }

  /**
   What an operation on one task makes of it, or why it is refused.  Only a failure can make
   an ended task live again, so only there can the live-task index refuse; the index on client
   file ids can refuse a completion.
   */
  function Moved(db: Db, ch: Change): Result<Task, TransferError>
    requires IsMove(ch) && ch.id in db.tasks
  {
    var t := db.tasks[ch.id];
    match ch
    case Leased(_, device, lease, now) => Acquire(t, device, lease, now)
    case Reported(_, device, expected, state, now) => Update(t, device, expected, state, now)
    case Failed(id, device, expected, now) =>
      var f := Fail(t, device, expected, now);
      if f.Ok? && !Terminal(f.value.state) && LiveElsewhere(db, id) then Err(Internal) else f
    case Finished(_, device, expected, n, now) =>
      if !WellFormed(n) then Err(Malformed)
      else if t.obj !in db.world.objects then Err(NotFound)
      else
        var c := Complete(t, device, expected, n.content == db.world.objects[t.obj], now);
        if c.Ok? && FileIdTaken(db.world, device, n.localFile, ReplicaKey(t.obj, device)) then Err(Internal) else c
  }

  ghost predicate MoveEffect(before: Db, ch: Change, after: Db)
    requires IsMove(ch)
  {
    && ch.id in before.tasks && Moved(before, ch).Ok?
    && after == Db(before.tasks[ch.id := Moved(before, ch).value], before.sources,
                   if ch.Finished? then WithCopy(before.world, before.tasks[ch.id].obj, ch.device, ch.n, ch.now)
                   else before.world)
  }

  ghost predicate Effect(before: Db, ch: Change, after: Db) {
    match ch
    case Created(file, target, priority, id, now, ranks) => CreateEffect(before, file, target, priority, id, now, ranks, after)
    case Inserted(obj, target, priority, id, now) =>
      && id !in before.tasks && !HasLive(before, obj, target)
      && obj in before.world.objects && target in before.world.devices
      && after == WithTask(before, id, NewTask(obj, target, priority, now))
    case SourceAdded(id, device, rank) =>
      && id in before.tasks && IsActive(before.world, device)
      && var k := SourceKey(id, device);
      && after == before.(sources := before.sources[k := Source(rank, k in before.sources && before.sources[k].disabled)])
    case Granted(device, lease, now, ranks, a) => ClaimEffect(before, device, lease, now, ranks, a, after)
    case Cancelled(id) => id in before.tasks && after == WithTask(before, id, Cancel(before.tasks[id]))
    case Elsewhere(world) => after == before.(world := world)
    case _ => MoveEffect(before, ch, after)
  }

  // ---- The orders are total: there is a first task and a best source ----

  lemma {:induction false} FirstExists(tasks: map<TaskId, Task>, ids: set<TaskId>) returns (first: TaskId)
    requires ids != {} && ids <= tasks.Keys
    ensures IsFirst(tasks, ids, first)
    decreases |ids|
  {
    first :| first in ids;
    if ids != {first} {
      var best := FirstExists(tasks, ids - {first});
      if !Precedes(tasks[first], first, tasks[best], best) {
        first := best;
      }
    }
  }

  /** The scheduling order leaves no choice: whichever task a claim takes, it is the same one. */
  lemma FirstUnique(tasks: map<TaskId, Task>, ids: set<TaskId>, i: TaskId, j: TaskId)
    requires ids <= tasks.Keys && IsFirst(tasks, ids, i) && IsFirst(tasks, ids, j)
    ensures i == j
  {
  }

  lemma BetterTransitive(db: Db, id: TaskId, d: DeviceId, e: DeviceId, f: DeviceId)
    requires SourceKey(id, d) in db.sources && SourceKey(id, e) in db.sources && SourceKey(id, f) in db.sources
    requires d in db.world.devices && e in db.world.devices && f in db.world.devices
    requires Better(db, id, d, e) && Better(db, id, e, f)
    ensures Better(db, id, d, f)
  {
  }

  lemma {:induction false} BestExists(db: Db, id: TaskId, candidates: set<DeviceId>) returns (d: DeviceId)
    requires candidates != {}
    requires forall e <- candidates :: SourceKey(id, e) in db.sources && e in db.world.devices
    ensures d in candidates && forall e <- candidates :: e != d ==> Better(db, id, d, e)
    decreases |candidates|
  {
    d :| d in candidates;
    if candidates != {d} {
      var best := BestExists(db, id, candidates - {d});
      var other := if Better(db, id, d, best) then d else best;
      forall e | e in candidates && e != other ensures Better(db, id, other, e) {
        if e != d && e != best && other == d {
          BetterTransitive(db, id, d, best, e);
        }
      }
      d := other;
    }
  }

  // ---- What a ranking is, on the fields of the rows ----

  lemma RankedMembers(w: World, obj: ObjectId, target: DeviceId, ranks: map<DeviceId, int>)
    requires IsRanking(w, obj, target, ranks)
    ensures forall d :: d in ranks <==>
      && d != target && d in w.devices && w.devices[d].active && ReplicaKey(obj, d) in w.replicas
      && var copy := w.replicas[ReplicaKey(obj, d)];
      copy.state == Rows.ReplicaReady && copy.endpoint.Some? && copy.clientFile.Some?
  {
    assert forall d :: d in ranks <==> d in Usable(w, obj, target);
  }

  /** A lower rank means seen no earlier, and among those seen alike a copy updated no earlier. */
  lemma RankedOrder(w: World, obj: ObjectId, target: DeviceId, ranks: map<DeviceId, int>)
    requires IsRanking(w, obj, target, ranks)
    ensures forall d <- ranks :: d in w.devices && ReplicaKey(obj, d) in w.replicas
    ensures forall d, e :: d in ranks && e in ranks && ranks[d] < ranks[e] ==>
      var seen, other := w.devices[d].lastSeen, w.devices[e].lastSeen;
      && (other.Some? ==> seen.Some? && seen.value >= other.value)
      && (seen == other ==> w.replicas[ReplicaKey(obj, d)].updatedAt >= w.replicas[ReplicaKey(obj, e)].updatedAt)
  {
    RankedMembers(w, obj, target, ranks);
    forall d, e | d in ranks && e in ranks && ranks[d] < ranks[e]
      ensures var seen, other := w.devices[d].lastSeen, w.devices[e].lastSeen;
        && (other.Some? ==> seen.Some? && seen.value >= other.value)
        && (seen == other ==> w.replicas[ReplicaKey(obj, d)].updatedAt >= w.replicas[ReplicaKey(obj, e)].updatedAt)
    {
      assert !RanksBefore(w, obj, e, d);
    }
  }

  /** A task a claim can take, and `e` a device that can serve it, on the fields of the rows. */
  lemma EligibleFor(db: Db, device: DeviceId, now: Time, id: TaskId, e: DeviceId)
    requires id in db.tasks && e in db.world.devices
    requires var t, w := db.tasks[id], db.world;
      && t.target == device && t.state !in {Completed, Canceled, FailedPermanent, Paused}
      && (t.until == None || t.until.value <= now)
      && e != device && w.devices[e].active && ReplicaKey(t.obj, e) in w.replicas
      && var copy := w.replicas[ReplicaKey(t.obj, e)];
      copy.state == Rows.ReplicaReady && copy.endpoint.Some? && copy.clientFile.Some?
    ensures id in EligibleTasks(db, device, now) && e in Usable(db.world, db.tasks[id].obj, device)
  {
    assert e in Usable(db.world, db.tasks[id].obj, device);
  }

  lemma EligibleNeeds(db: Db, device: DeviceId, now: Time, id: TaskId) returns (e: DeviceId)
    requires id in EligibleTasks(db, device, now)
    ensures id in db.tasks && e in db.world.devices
    ensures var t, w := db.tasks[id], db.world;
      && t.target == device && t.state !in {Completed, Canceled, FailedPermanent, Paused}
      && (t.until == None || t.until.value <= now)
      && e != device && w.devices[e].active && ReplicaKey(t.obj, e) in w.replicas
      && var copy := w.replicas[ReplicaKey(t.obj, e)];
      copy.state == Rows.ReplicaReady && copy.endpoint.Some? && copy.clientFile.Some?
  {
    e :| e in Usable(db.world, db.tasks[id].obj, db.tasks[id].target);
  }

  /** What a creation needs and what sources it records, on the fields of the rows. */
  lemma CreationTerms(before: Db, file: EntryId, target: DeviceId, priority: int, id: TaskId, now: Time,
                      ranks: map<DeviceId, int>, after: Db)
    requires CreateEffect(before, file, target, priority, id, now, ranks, after)
    ensures forall i <- before.tasks ::
      before.tasks[i].obj == before.world.entries[file].obj && before.tasks[i].target == target ==>
      before.tasks[i].state in {Completed, Canceled, FailedPermanent}
    ensures exists d <- ranks :: ranks[d] == 1
    ensures forall k :: k in after.sources <==> k in before.sources || (k.task == id && k.device in ranks)
    ensures forall k <- after.sources ::
      after.sources[k] == if k.task == id && k.device in ranks then Source(ranks[k.device], false) else before.sources[k]
  {
    forall i | i in before.tasks
      && before.tasks[i].obj == before.world.entries[file].obj && before.tasks[i].target == target
      ensures before.tasks[i].state in {Completed, Canceled, FailedPermanent}
    {
      assert !IsLiveFor(before.tasks[i], before.world.entries[file].obj, target);
    }
    var _ := RankOne(before.world, before.world.entries[file].obj, target, ranks);
  }

  // ---- A ranking can always be computed ----

  lemma {:induction false} FirstRanked(w: World, obj: ObjectId, ds: set<DeviceId>) returns (first: DeviceId)
    requires ds != {} && forall d <- ds :: d in w.devices && ReplicaKey(obj, d) in w.replicas
    ensures first in ds && forall e <- ds :: !RanksBefore(w, obj, e, first)
    decreases |ds|
  {
    first :| first in ds;
    if ds != {first} {
      var best := FirstRanked(w, obj, ds - {first});
      var other := if RanksBefore(w, obj, first, best) then first else best;
      forall e | e in ds ensures !RanksBefore(w, obj, e, other) {
        if other == first && e != first {
          RanksTransitive(w, obj, e, first, best);
        }
      }
      first := other;
    }
  }

  lemma RanksTransitive(w: World, obj: ObjectId, d: DeviceId, e: DeviceId, f: DeviceId)
    requires forall x | x in {d, e, f} :: x in w.devices && ReplicaKey(obj, x) in w.replicas
    ensures RanksBefore(w, obj, d, e) && RanksBefore(w, obj, e, f) ==> RanksBefore(w, obj, d, f)
    ensures !RanksBefore(w, obj, d, d)
  {
    assert d in {d, e, f} && e in {d, e, f} && f in {d, e, f};
  }

  /** Distinct numbers of a range are no more than the range holds. */
  lemma {:induction false} Pigeonhole(ranks: map<DeviceId, int>, ds: set<DeviceId>, low: int, high: int)
    requires low <= high + 1 && forall d <- ds :: d in ranks && low <= ranks[d] <= high
    requires forall d, e :: d in ds && e in ds && d != e ==> ranks[d] != ranks[e]
    ensures |ds| <= high - low + 1
    decreases high - low + 1
  {
    if ds != {} {
      if d :| d in ds && ranks[d] == high {
        assert |ds - {d}| == |ds| - 1;
        Pigeonhole(ranks, ds - {d}, low, high - 1);
      } else {
        Pigeonhole(ranks, ds, low, high - 1);
      }
    }
  }

  /** Some device has rank one: it is usable and none usable was seen more recently. */
  lemma RankOne(w: World, obj: ObjectId, target: DeviceId, ranks: map<DeviceId, int>) returns (f: DeviceId)
    requires IsRanking(w, obj, target, ranks) && ranks != map[]
    ensures f in ranks && ranks[f] == 1 && Served(w, obj, target, f)
  {
    if forall d <- ranks :: ranks[d] != 1 {
      Pigeonhole(ranks, ranks.Keys, 2, |ranks|);
      assert false;
    }
    f :| f in ranks && ranks[f] == 1;
    forall e | e in Usable(w, obj, target) ensures !SeenLater(w, e, f) {
      assert !RanksBefore(w, obj, e, f);
    }
  }

  // ---- The source that is picked ----

  /** A good source: usable, and no usable device was seen more recently. */
  ghost predicate Served(w: World, obj: ObjectId, target: DeviceId, d: DeviceId) {
    d in Usable(w, obj, target) && forall e <- Usable(w, obj, target) :: !SeenLater(w, e, d)
  }

  /** To be served, on the fields of the rows. */
  lemma ServedMeans(w: World, obj: ObjectId, target: DeviceId, source: DeviceId)
    requires Served(w, obj, target, source)
    ensures source != target && source in w.devices && w.devices[source].active && ReplicaKey(obj, source) in w.replicas
    ensures var copy := w.replicas[ReplicaKey(obj, source)];
      copy.state == Rows.ReplicaReady && copy.endpoint.Some? && copy.clientFile.Some?
    ensures forall e <- w.devices ::
      (e != target && w.devices[e].active && ReplicaKey(obj, e) in w.replicas
        && w.replicas[ReplicaKey(obj, e)].state == Rows.ReplicaReady
        && w.replicas[ReplicaKey(obj, e)].endpoint.Some? && w.replicas[ReplicaKey(obj, e)].clientFile.Some?
        && w.devices[e].lastSeen.Some?)
      ==> w.devices[source].lastSeen.Some? && w.devices[source].lastSeen.value >= w.devices[e].lastSeen.value
  {
    forall e | e in w.devices && e != target && HasCopy(w, obj, e) ensures !SeenLater(w, e, source) {
      assert e in Usable(w, obj, target);
    }
  }

  /** The target itself stands as an enabled source row and holds a copy that can be served. */
  predicate SelfSelectable(db: Db, id: TaskId)
    requires id in db.tasks
  {
    Selectable(db, id, db.tasks[id].obj, db.tasks[id].target)
  }

  /** A claim now would make the target its own source. */
  ghost predicate TargetWins(db: Db, id: TaskId)
    requires id in db.tasks
  {
    && SelfSelectable(db, id)
    && var t := db.tasks[id];
    var rank := db.sources[SourceKey(id, t.target)].rank;
    rank < 1 || (rank == 1 && forall e <- Usable(db.world, t.obj, t.target) :: SeenLater(db.world, t.target, e))
  }

  /** A claim now may do so: the query orders the target and the best usable device alike. */
  ghost predicate TargetTies(db: Db, id: TaskId)
    requires id in db.tasks
  {
    && SelfSelectable(db, id) && !TargetWins(db, id)
    && var t := db.tasks[id];
    && db.sources[SourceKey(id, t.target)].rank == 1
    && forall e <- Usable(db.world, t.obj, t.target) :: !SeenLater(db.world, e, t.target)
  }

  /** The rows the assignment query chooses from, however stale the source rows were. */
  lemma Candidates(db: Db, after: Db, device: DeviceId, lease: int, now: Time, ranks: map<DeviceId, int>, a: Assignment, e: DeviceId)
    requires ClaimEffect(db, device, lease, now, ranks, a, after)
    ensures var target := db.tasks[a.task].target;
      && (Selectable(after, a.task, a.obj, e) <==>
            e in Usable(db.world, a.obj, target) || (e == target && SelfSelectable(db, a.task)))
      && (e in Usable(db.world, a.obj, target) ==> after.sources[SourceKey(a.task, e)].rank == ranks[e])
      && (e == target && SelfSelectable(db, a.task) ==>
            after.sources[SourceKey(a.task, e)] == db.sources[SourceKey(a.task, e)])
  {
    assert e in ranks <==> e in Usable(db.world, a.obj, db.tasks[a.task].target);
  }

  /** The target and the device of rank one are the only ones that can be picked. */
  lemma PickedIsFirst(db: Db, after: Db, device: DeviceId, lease: int, now: Time, ranks: map<DeviceId, int>, a: Assignment, f: DeviceId)
    requires ClaimEffect(db, device, lease, now, ranks, a, after) && f in ranks && ranks[f] == 1
    ensures a.source == f || (a.source == db.tasks[a.task].target && SelfSelectable(db, a.task))
    ensures a.source == f || Better(after, a.task, a.source, f)
  {
    Candidates(db, after, device, lease, now, ranks, a, a.source);
    Candidates(db, after, device, lease, now, ranks, a, f);
    forall d | d in ranks && d != f ensures ranks[d] > 1 {
    }
  }

  /**
   The exact condition for a good source.  A claim pairs the task with a usable device that
   was seen most recently, unless the target's own row wins; only when it ties does the
   query leave the choice open.
   */
  lemma ClaimSource(db: Db, after: Db, device: DeviceId, lease: int, now: Time, ranks: map<DeviceId, int>, a: Assignment)
    requires ClaimEffect(db, device, lease, now, ranks, a, after)
    ensures var target := db.tasks[a.task].target;
      && (a.source == target || Served(db.world, a.obj, target, a.source))
      && (TargetWins(db, a.task) ==> a.source == target)
      && (!TargetWins(db, a.task) && !TargetTies(db, a.task) ==> Served(db.world, a.obj, target, a.source))
  {
    var target := db.tasks[a.task].target;
    assert a.task in EligibleTasks(db, device, now) && ranks != map[] by {
      assert Usable(db.world, a.obj, target) != {};
    }
    var f := RankOne(db.world, a.obj, target, ranks);
    PickedIsFirst(db, after, device, lease, now, ranks, a, f);
    Candidates(db, after, device, lease, now, ranks, a, f);
    Candidates(db, after, device, lease, now, ranks, a, target);
    if target in db.world.devices {
      MostRecent(db.world, a.obj, target, f);
    }
  }

  /** To be seen later than every usable device is to be seen later than the one seen last. */
  lemma MostRecent(w: World, obj: ObjectId, target: DeviceId, f: DeviceId)
    requires Served(w, obj, target, f) && target in w.devices
    ensures SeenLater(w, target, f) <==> forall e <- Usable(w, obj, target) :: SeenLater(w, target, e)
    ensures !SeenLater(w, f, target) <==> forall e <- Usable(w, obj, target) :: !SeenLater(w, e, target)
  {
  }

  /** When the target ties, the query may return it or a usable device: both satisfy its order. */
  lemma TieIsOpen(db: Db, after: Db, device: DeviceId, lease: int, now: Time, ranks: map<DeviceId, int>, a: Assignment) returns (f: DeviceId)
    requires ClaimEffect(db, device, lease, now, ranks, a, after) && TargetTies(db, a.task)
    ensures f in Usable(db.world, a.obj, db.tasks[a.task].target)
    ensures IsPicked(after, a.task, a.obj, f) && IsPicked(after, a.task, a.obj, db.tasks[a.task].target)
  {
    var target := db.tasks[a.task].target;
    assert a.task in EligibleTasks(db, device, now) && ranks != map[] by {
      assert Usable(db.world, a.obj, target) != {};
    }
    f := RankOne(db.world, a.obj, target, ranks);
    MostRecent(db.world, a.obj, target, f);
    forall e | e in after.world.devices && Selectable(after, a.task, a.obj, e)
      ensures (e != f ==> Better(after, a.task, f, e)) && (e != target ==> Better(after, a.task, target, e))
    {
      Candidates(db, after, device, lease, now, ranks, a, e);
      Candidates(db, after, device, lease, now, ranks, a, f);
      Candidates(db, after, device, lease, now, ranks, a, target);
    }
  }

  // ---- The repository ----

  class Repository {
    var db: Db

    constructor (initial: Db)
      ensures db == initial
    {
      db := initial;
    }

    /** One live task per object and target; the sources usable now are ranked and snapshotted. */
    method CreateReplicaTask(file: EntryId, target: DeviceId, priority: int, id: TaskId, now: Time)
      returns (r: Result<TaskId, TransferError>, ghost ranks: map<DeviceId, int>)
      requires id !in db.tasks
      modifies this
      ensures db == old(db) || (r == Ok(id) && Effect(old(db), Created(file, target, priority, id, now, ranks), db))
      ensures db != old(db) ==>
        && file in old(db).world.entries && db.world == old(db).world
        && db.tasks == old(db).tasks[id :=
             Task(old(db).world.entries[file].obj, target, priority, now, Queued, None, None, 0, 1)]
      ensures r.Ok? && db == old(db) ==>
        && r.value in old(db).tasks && file in old(db).world.entries
        && old(db).tasks[r.value].obj == old(db).world.entries[file].obj && old(db).tasks[r.value].target == target
        && old(db).tasks[r.value].state !in {Completed, Canceled, FailedPermanent}
      ensures r == Err(NotFound) <==>
        var w := old(db).world;
        !(file in w.entries && w.entries[file].active && target in w.devices && w.devices[target].active)
      ensures r == Err(AlreadyReplica) <==>
        var w := old(db).world;
        && r != Err(NotFound) && ReplicaKey(w.entries[file].obj, target) in w.replicas
        && w.replicas[ReplicaKey(w.entries[file].obj, target)].state == Rows.ReplicaReady
      ensures var w := old(db).world;
        if !(file in w.entries && w.entries[file].active && IsActive(w, target)) then r == Err(NotFound)
        else if IsReady(w, w.entries[file].obj, target) then r == Err(AlreadyReplica)
        else if HasLive(old(db), w.entries[file].obj, target) then
          r.Ok? && r.value in old(db).tasks && IsLiveFor(old(db).tasks[r.value], w.entries[file].obj, target)
        else if Usable(w, w.entries[file].obj, target) == {} then r == Err(NoSource)
        else r == Ok(id) && db != old(db)
    {
      ranks := map[];
      if file !in db.world.entries || !db.world.entries[file].active || !IsActive(db.world, target) {
        return Err(NotFound), ranks;
      }
      var obj := db.world.entries[file].obj;
      if IsReady(db.world, obj, target) {
        return Err(AlreadyReplica), ranks;
      }
      if HasLive(db, obj, target) {
        var other :| other in db.tasks && IsLiveFor(db.tasks[other], obj, target);
        return Ok(other), ranks;
      }
      var tx := WithTask(db, id, NewTask(obj, target, priority, now));
      var numbered := RankSources(db.world, obj, target);
      tx := tx.(sources := Refreshed(tx.sources, id, numbered));
      if numbered == map[] {
        return Err(NoSource), ranks;
      }
      ranks := numbered;
      assert Usable(db.world, obj, target) != {};
      assert id in tx.tasks;
      db := tx;
      r := Ok(id);
    }

    /** ORDER BY priority DESC, created_at, id LIMIT 1. */
    method First(ids: set<TaskId>) returns (id: TaskId)
      requires ids != {} && ids <= db.tasks.Keys
      ensures IsFirst(db.tasks, ids, id)
    {
      ghost var _ := FirstExists(db.tasks, ids);
      id :| id in ids && forall other <- ids :: other != id ==> Precedes(db.tasks[id], id, db.tasks[other], other);
    }

    /** ORDER BY rank, last_seen_at DESC NULLS LAST LIMIT 1, on rows just refreshed. */
    method Pick(tx: Db, id: TaskId, obj: ObjectId, target: DeviceId, ranks: map<DeviceId, int>) returns (d: DeviceId)
      requires ranks.Keys == Usable(tx.world, obj, target) && ranks != map[]
      requires forall e <- ranks :: SourceKey(id, e) in tx.sources && !tx.sources[SourceKey(id, e)].disabled
      ensures IsPicked(tx, id, obj, d)
    {
      var candidates := set e | e in tx.world.devices && Selectable(tx, id, obj, e);
      var some :| some in ranks;
      assert some in candidates;
      ghost var _ := BestExists(tx, id, candidates);
      d :| d in candidates && forall e <- candidates :: e != d ==> Better(tx, id, d, e);
      forall e | e in tx.world.devices && Selectable(tx, id, obj, e) && e != d ensures Better(tx, id, d, e) {
        assert e in candidates;
      }
    }

    /**
     Leases the first eligible task of the device and pairs it with a source.  When the first
     eligible task has lost its last active file entry the claim fails and changes nothing,
     whatever waits behind that task.
     */
    method ClaimNext(device: DeviceId, lease: int, now: Time)
      returns (r: Result<Assignment, TransferError>, ghost ranks: map<DeviceId, int>)
      modifies this
      ensures r.Err? ==> db == old(db)
      ensures r.Ok? ==> Effect(old(db), Granted(device, lease, now, ranks, r.value), db)
      ensures var ids := EligibleTasks(old(db), device, now);
        if !ValidLease(lease) then r == Err(BadLease)
        else if ids == {} then r == Err(NotFound)
        else if FirstBlocked(old(db), ids) then r == Err(Internal)
        else r.Ok?
    {
      ranks := map[];
      if !ValidLease(lease) {
        return Err(BadLease), ranks;
      }
      var ids := EligibleTasks(db, device, now);
      if ids == {} {
        return Err(NotFound), ranks;
      }
      var id := First(ids);
      var t := db.tasks[id];
      assert id in ids && Eligible(db, device, now, id);
      var numbered := RankSources(db.world, t.obj, t.target);
      var tx := db.(sources := Refreshed(db.sources, id, numbered));
      tx := WithTask(tx, id, Claimed(t, device, now + lease));
      var source := Pick(tx, id, t.obj, t.target, numbered);
      OnlyFirst(db, ids, id);
      if IsBlocked(db, id) {
        return Err(Internal), ranks;
      }
      var claimed := tx.tasks[id];
      var a := Assignment(id, t.obj, source, tx.world.objects[t.obj], claimed.attempt, claimed.version, now + lease);
      ClaimGranted(db, device, lease, now, numbered, a, tx);
      r, ranks := Ok(a), numbered;
      db := tx;
    }

    /** CreateTask: a task of a known object and device, unless the live-task index refuses it. */
    method CreateTask(obj: ObjectId, target: DeviceId, priority: int, id: TaskId, now: Time) returns (r: Result<(), TransferError>)
      requires id !in db.tasks
      modifies this
      ensures r.Err? ==> db == old(db)
      ensures r.Ok? ==> Effect(old(db), Inserted(obj, target, priority, id, now), db)
      ensures if obj !in old(db).world.objects || target !in old(db).world.devices then r == Err(NotFound)
        else if HasLive(old(db), obj, target) then r == Err(Internal)
        else r == Ok(())
      ensures r.Ok? ==>
        && db.sources == old(db).sources && db.world == old(db).world
        && db.tasks == old(db).tasks[id := Task(obj, target, priority, now, Queued, None, None, 0, 1)]
      ensures r == Err(Internal) <==>
        && obj in old(db).world.objects && target in old(db).world.devices
        && exists i <- old(db).tasks ::
          && old(db).tasks[i].obj == obj && old(db).tasks[i].target == target
          && old(db).tasks[i].state !in {Completed, Canceled, FailedPermanent}
    {
      if obj !in db.world.objects || target !in db.world.devices {
        return Err(NotFound);
      }
      if HasLive(db, obj, target) {
        return Err(Internal);
      }
      db := WithTask(db, id, NewTask(obj, target, priority, now));
      r := Ok(());
    }

    /** AddSource asks that the device be active, not that it differ from the task's target. */
    method AddSource(id: TaskId, device: DeviceId, rank: int) returns (r: Result<(), TransferError>)
      modifies this
      ensures r.Err? ==> r.error == NotFound && db == old(db)
      ensures r.Ok? ==> Effect(old(db), SourceAdded(id, device, rank), db)
      ensures r.Ok? <==>
        id in old(db).tasks && device in old(db).world.devices && old(db).world.devices[device].active
      ensures r.Ok? ==>
        && var k := SourceKey(id, device);
        && db.tasks == old(db).tasks && db.world == old(db).world
        && db.sources == old(db).sources[k := Source(rank, k in old(db).sources && old(db).sources[k].disabled)]
    {
      if id !in db.tasks || !IsActive(db.world, device) {
        return Err(NotFound);
      }
      var k := SourceKey(id, device);
      if k in db.sources {
        db := db.(sources := db.sources[k := db.sources[k].(rank := rank)]);
      } else {
        db := db.(sources := db.sources[k := Source(rank, false)]);
      }
      r := Ok(());
    }

    /** What the rest of the server does to the tables the scheduler only reads. */
    method ChangeWorld(world: World)
      modifies this
      ensures Effect(old(db), Elsewhere(world), db)
    {
      db := db.(world := world);
    }

    method AcquireLease(id: TaskId, device: DeviceId, lease: int, now: Time) returns (r: Result<(), TransferError>)
      modifies this
      ensures r.Err? ==> db == old(db)
      ensures r.Ok? ==> Effect(old(db), Leased(id, device, lease, now), db)
      ensures if !ValidLease(lease) then r == Err(BadLease)
        else if id !in old(db).tasks then r == Err(NotFound)
        else SameAnswer(r, Acquire(old(db).tasks[id], device, lease, now))
      ensures r.Ok? <==>
        && SECOND <= lease <= 24 * 3600 * SECOND && id in old(db).tasks
        && var t := old(db).tasks[id];
        && t.target == device && t.state !in {Completed, Canceled, FailedPermanent}
        && (t.owner == None || t.until == None || t.until.value <= now)
      ensures r.Ok? ==>
        var t := old(db).tasks[id];
        db == old(db).(tasks := old(db).tasks[id := t.(
          state := if t.state == Queued then Assigned else t.state, owner := Some(device), until := Some(now + lease),
          attempt := t.attempt + 1, version := t.version + 1)])
    {
      if !ValidLease(lease) {
        return Err(BadLease);
      }
      if id !in db.tasks {
        return Err(NotFound);
      }
      var t := db.tasks[id];
      if t.target != device || Terminal(t.state) {
        return Err(NotClaimable);
      }
      if t.owner.Some? && t.until.Some? && t.until.value > now {
        return Err(NotClaimable);
      }
      var state := if t.state == Queued then Assigned else t.state;
      db := WithTask(db, id, t.(state := state, owner := Some(device), until := Some(now + lease),
                                attempt := t.attempt + 1, version := t.version + 1));
      r := Ok(());
    }

    method UpdateState(id: TaskId, device: DeviceId, expected: nat, state: TaskState, now: Time) returns (r: Result<(), TransferError>)
      modifies this
      ensures r.Err? ==> db == old(db)
      ensures r.Ok? ==> Effect(old(db), Reported(id, device, expected, state, now), db)
      ensures if id !in old(db).tasks then r == Err(NotFound)
        else SameAnswer(r, Update(old(db).tasks[id], device, expected, state, now))
      ensures r.Ok? <==>
        && id in old(db).tasks
        && var t := old(db).tasks[id];
        && t.target == device && t.owner == Some(device) && t.until.Some? && t.until.value > now
        && t.version == expected && ValidTransition(t.state, state)
      ensures r.Ok? ==>
        var t := old(db).tasks[id];
        db == old(db).(tasks := old(db).tasks[id := t.(state := state, version := t.version + 1)])
    {
      if id !in db.tasks {
        return Err(NotFound);
      }
      var t := db.tasks[id];
      if t.target != device {
        return Err(NotClaimable);
      }
      if !ValidTransition(t.state, state) {
        return Err(InvalidTransition);
      }
      if t.owner != Some(device) || t.until == None || t.until.value <= now {
        return Err(NotClaimable);
      }
      if t.version != expected {
        return Err(VersionConflict);
      }
      db := WithTask(db, id, t.(state := state, version := t.version + 1));
      r := Ok(());
    }

    method FailAttempt(id: TaskId, device: DeviceId, expected: nat, now: Time) returns (r: Result<(), TransferError>)
      modifies this
      ensures r.Err? ==> db == old(db)
      ensures r.Ok? ==> Effect(old(db), Failed(id, device, expected, now), db)
      ensures if id !in old(db).tasks then r == Err(NotClaimable)
        else SameAnswer(r, Moved(old(db), Failed(id, device, expected, now)))
      ensures r.Ok? <==>
        && id in old(db).tasks
        && var t := old(db).tasks[id];
        && t.target == device && t.owner == Some(device) && t.until.Some? && t.until.value > now && t.version == expected
        && (t.attempt >= 10 || forall i <- old(db).tasks ::
              i != id && old(db).tasks[i].obj == t.obj && old(db).tasks[i].target == device ==>
              old(db).tasks[i].state in {Completed, Canceled, FailedPermanent})
      ensures r.Ok? ==>
        var t := old(db).tasks[id];
        db == old(db).(tasks := old(db).tasks[id :=
          if t.attempt >= 10 then t.(state := FailedPermanent, owner := None, until := None, version := t.version + 1)
          else t.(state := RetryWait, owner := None, until := Some(now + Backoff(t.attempt)), version := t.version + 1)])
    {
      if id !in db.tasks || db.tasks[id].target != device || db.tasks[id].owner != Some(device)
         || db.tasks[id].until == None || db.tasks[id].until.value <= now || db.tasks[id].version != expected {
        return Err(NotClaimable);
      }
      var t := db.tasks[id];
      var failed := t.(owner := None, version := t.version + 1);
      if t.attempt >= MAX_ATTEMPTS {
        failed := failed.(state := FailedPermanent, until := None);
      } else {
        failed := failed.(state := RetryWait, until := Some(now + Backoff(t.attempt)));
        if LiveElsewhere(db, id) {
          return Err(Internal);
        }
      }
      db := WithTask(db, id, failed);
      r := Ok(());
    }

    /** The copy and the end of the task are one transaction. */
    method CompleteReplica(id: TaskId, device: DeviceId, expected: nat, n: Announcement, now: Time) returns (r: Result<(), TransferError>)
      modifies this
      ensures r.Err? ==> db == old(db)
      ensures r.Ok? ==> Effect(old(db), Finished(id, device, expected, n, now), db)
      ensures if id !in old(db).tasks then r == Err(if WellFormed(n) then NotFound else Malformed)
        else SameAnswer(r, Moved(old(db), Finished(id, device, expected, n, now)))
      ensures r.Ok? <==>
        && Rows.ValidFileId(n.localFile) && Rows.ValidHash(n.content.sha256) && Rows.CleanEndpoint(n.endpoint).Some?
        && id in old(db).tasks
        && var t, w := old(db).tasks[id], old(db).world;
        && t.target == device && t.owner == Some(device) && t.until.Some? && t.until.value > now && t.version == expected
        && t.state == Verifying && t.obj in w.objects && w.objects[t.obj] == n.content
        && forall k <- w.replicas ::
          k.device == device && k.obj != t.obj && w.replicas[k].clientFile == Some(n.localFile) ==>
          w.replicas[k].state == Rows.ReplicaDeleted
      ensures r.Ok? ==>
        var t, w := old(db).tasks[id], old(db).world;
        && db.tasks == old(db).tasks[id := t.(state := Completed, owner := None, until := None, version := t.version + 1)]
        && db.sources == old(db).sources
        && db.world == w.(replicas := w.replicas[ReplicaKey(t.obj, device) :=
             Replica(Rows.ReplicaReady, n.content.size, Rows.CleanEndpoint(n.endpoint), Some(n.localFile), now)])
    {
      if !WellFormed(n) {
        return Err(Malformed);
      }
      if id !in db.tasks || db.tasks[id].obj !in db.world.objects || db.tasks[id].target != device {
        return Err(NotFound);
      }
      var t := db.tasks[id];
      var known := db.world.objects[t.obj];
      if t.owner == None || t.until == None {
        return Err(Internal);
      }
      if t.state != Verifying || t.owner != Some(device) || t.until.value <= now {
        return Err(NotClaimable);
      }
      if t.version != expected {
        return Err(VersionConflict);
      }
      if known.size != n.content.size || known.sha256 != n.content.sha256 {
        return Err(ContentMismatch);
      }
      if FileIdTaken(db.world, device, n.localFile, ReplicaKey(t.obj, device)) {
        return Err(Internal);
      }
      var tx := db.(world := WithCopy(db.world, t.obj, device, n, now));
      tx := WithTask(tx, id, t.(state := Completed, owner := None, until := None, version := t.version + 1));
      db := tx;
      r := Ok(());
    }

    method CancelTask(id: TaskId) returns (r: Result<(), TransferError>)
      modifies this
      ensures if id !in old(db).tasks then r == Err(NotFound) && db == old(db)
        else r == Ok(()) && Effect(old(db), Cancelled(id), db)
      ensures id in old(db).tasks ==>
        && var t := old(db).tasks[id];
        db == if t.state in {Completed, Canceled, FailedPermanent} then old(db)
              else old(db).(tasks := old(db).tasks[id := t.(state := Canceled, owner := None, until := None, version := t.version + 1)])
    {
      if id !in db.tasks {
        return Err(NotFound);
      }
      var t := db.tasks[id];
      if !Terminal(t.state) {
        db := WithTask(db, id, t.(state := Canceled, owner := None, until := None, version := t.version + 1));
      }
      assert old(db).tasks[id := old(db).tasks[id]] == old(db).tasks;
      r := Ok(());
    }
  }

  /** Accepted together, or refused with the same error. */
  predicate SameAnswer(r: Result<(), TransferError>, spec: Result<Task, TransferError>) {
    match spec case Ok(_) => r == Ok(()) case Err(e) => r == Err(e)
  }

  method NextRanked(w: World, obj: ObjectId, left: set<DeviceId>) returns (d: DeviceId)
    requires left != {} && forall e <- left :: e in w.devices && ReplicaKey(obj, e) in w.replicas
    ensures d in left && forall e <- left :: !RanksBefore(w, obj, e, d)
  {
    ghost var _ := FirstRanked(w, obj, left);
    d :| d in left && forall e <- left :: !RanksBefore(w, obj, e, d);
  }

  /** row_number() OVER (ORDER BY last_seen_at DESC NULLS LAST, updated_at DESC). */
  method RankSources(w: World, obj: ObjectId, target: DeviceId) returns (ranks: map<DeviceId, int>)
    ensures IsRanking(w, obj, target, ranks)
    ensures forall d :: d in ranks <==>
      && d != target && d in w.devices && w.devices[d].active && ReplicaKey(obj, d) in w.replicas
      && var copy := w.replicas[ReplicaKey(obj, d)];
      copy.state == Rows.ReplicaReady && copy.endpoint.Some? && copy.clientFile.Some?
    ensures forall d, e :: d in ranks && e in ranks && d != e ==> ranks[d] != ranks[e]
    ensures forall d <- ranks :: 1 <= ranks[d] <= |ranks|
    ensures forall d, e :: d in ranks && e in ranks && ranks[d] < ranks[e] ==>
      var seen, other := w.devices[d].lastSeen, w.devices[e].lastSeen;
      && (other.Some? ==> seen.Some? && seen.value >= other.value)
      && (seen == other ==> w.replicas[ReplicaKey(obj, d)].updatedAt >= w.replicas[ReplicaKey(obj, e)].updatedAt)
  {
    var usable := Usable(w, obj, target);
    var left := usable;
    ranks := map[];
    while left != {}
      invariant left <= usable && ranks.Keys == usable - left
      invariant RankedSoFar(w, obj, ranks, left)
      decreases |left|
    {
      var d := NextRanked(w, obj, left);
      RankNext(w, obj, ranks, left, d);
      MoveOver(usable, ranks.Keys, left, d);
      ranks := ranks[d := |ranks| + 1];
      left := left - {d};
    }
    RankedAll(w, obj, target, ranks);
    RankedMembers(w, obj, target, ranks);
    RankedOrder(w, obj, target, ranks);
  }

  lemma MoveOver(all: set<DeviceId>, done: set<DeviceId>, left: set<DeviceId>, d: DeviceId)
    requires left <= all && done == all - left && d in left
    ensures done + {d} == all - (left - {d}) && d !in done
  {
  }

  lemma RankedAll(w: World, obj: ObjectId, target: DeviceId, ranks: map<DeviceId, int>)
    requires ranks.Keys == Usable(w, obj, target) && RankedSoFar(w, obj, ranks, {})
    ensures IsRanking(w, obj, target, ranks)
  {
  }

  /** The devices ranked so far: 1.., in order, and none of those left ranks before them. */
  ghost predicate RankedSoFar(w: World, obj: ObjectId, ranks: map<DeviceId, int>, left: set<DeviceId>) {
    && (forall d :: d in ranks || d in left ==> d in w.devices && ReplicaKey(obj, d) in w.replicas)
    && (forall d <- ranks :: 1 <= ranks[d] <= |ranks|)
    && (forall d, e :: d in ranks && e in ranks && d != e ==> ranks[d] != ranks[e])
    && (forall d, e :: d in ranks && e in ranks && RanksBefore(w, obj, d, e) ==> ranks[d] < ranks[e])
    && (forall d, e :: d in ranks && e in left ==> !RanksBefore(w, obj, e, d))
  }

  lemma RankNext(w: World, obj: ObjectId, ranks: map<DeviceId, int>, left: set<DeviceId>, d: DeviceId)
    requires RankedSoFar(w, obj, ranks, left) && ranks.Keys !! left && d in left
    requires forall e <- left :: !RanksBefore(w, obj, e, d)
    ensures RankedSoFar(w, obj, ranks[d := |ranks| + 1], left - {d})
    ensures |ranks[d := |ranks| + 1]| == |ranks| + 1
  {
    var after := ranks[d := |ranks| + 1];
    assert after.Keys == ranks.Keys + {d};
    assert |after| == |ranks| + 1 by {
      assert |after.Keys| == |ranks.Keys| + 1;
    }
    forall x, y | x in after && y in after && x != y
      ensures after[x] != after[y] && (RanksBefore(w, obj, x, y) ==> after[x] < after[y])
    {
    }
  }

  /** The task of a claim can no longer be described to the Agent. */
  predicate IsBlocked(db: Db, id: TaskId)
    requires id in db.tasks
  {
    !HasActiveEntry(db.world, db.tasks[id].obj) || db.tasks[id].obj !in db.world.objects
  }

  ghost predicate FirstBlocked(db: Db, ids: set<TaskId>)
    requires ids <= db.tasks.Keys
  {
    exists i <- ids :: IsFirst(db.tasks, ids, i) && IsBlocked(db, i)
  }

  lemma OnlyFirst(db: Db, ids: set<TaskId>, id: TaskId)
    requires ids <= db.tasks.Keys && IsFirst(db.tasks, ids, id)
    ensures FirstBlocked(db, ids) <==> IsBlocked(db, id)
  {
    forall i | i in ids && IsFirst(db.tasks, ids, i) ensures i == id {
      FirstUnique(db.tasks, ids, i, id);
    }
  }

  /** What the Agent is told of a claim. */
  function AssignmentOf(db: Db, id: TaskId, device: DeviceId, source: DeviceId, until: Time): Assignment
    requires id in db.tasks && !IsBlocked(db, id)
  {
    var t := Claimed(db.tasks[id], device, until);
    Assignment(id, t.obj, source, db.world.objects[t.obj], t.attempt, t.version, until)
  }

  lemma ClaimGranted(db: Db, device: DeviceId, lease: int, now: Time, ranks: map<DeviceId, int>, a: Assignment, after: Db)
    requires ValidLease(lease) && IsFirst(db.tasks, EligibleTasks(db, device, now), a.task) && !IsBlocked(db, a.task)
    requires IsRanking(db.world, db.tasks[a.task].obj, db.tasks[a.task].target, ranks)
    requires after == Db(db.tasks[a.task := Claimed(db.tasks[a.task], device, now + lease)], Refreshed(db.sources, a.task, ranks), db.world)
    requires a == AssignmentOf(db, a.task, device, a.source, now + lease)
    requires IsPicked(after, a.task, db.tasks[a.task].obj, a.source)
    ensures Effect(db, Granted(device, lease, now, ranks, a), after)
  {
  }

  /**
   A block outlasts the clock: with the tables unchanged, the claim keeps failing as long as
   no task that precedes the blocked one has become eligible.
   */
  lemma BlockedStays(db: Db, device: DeviceId, now: Time, later: Time, id: TaskId)
    requires now <= later && IsFirst(db.tasks, EligibleTasks(db, device, now), id) && IsBlocked(db, id)
    requires forall j <- EligibleTasks(db, device, later) ::
      j in EligibleTasks(db, device, now) || Precedes(db.tasks[id], id, db.tasks[j], j)
    ensures FirstBlocked(db, EligibleTasks(db, device, later))
  {
    var ids := EligibleTasks(db, device, later);
    assert id in EligibleTasks(db, device, now) && Eligible(db, device, later, id);
    assert id in ids && IsFirst(db.tasks, ids, id);
  }

  // ---- The conditions arise ----

  /** One task for `target`, which `other` can serve; the target too holds a copy and has a source row. */
  ghost predicate SelfSourced(db: Db, id: TaskId, target: DeviceId, other: DeviceId, obj: ObjectId, copy: Replica, rank: int) {
    && target != other
    && copy.state == Rows.ReplicaReady && copy.endpoint.Some? && copy.clientFile.Some?
    && db.tasks == map[id := NewTask(obj, target, 0, 0)]
    && db.sources == map[SourceKey(id, target) := Source(rank, false)]
    && db.world.replicas == map[ReplicaKey(obj, target) := copy, ReplicaKey(obj, other) := copy]
    && db.world.devices == map[target := Device(true, None), other := Device(true, None)]
    && obj in db.world.objects
  }

  lemma SelfSourcedQueries(db: Db, id: TaskId, target: DeviceId, other: DeviceId, obj: ObjectId, copy: Replica, rank: int, now: Time)
    requires SelfSourced(db, id, target, other, obj, copy, rank)
    ensures Usable(db.world, obj, target) == {other} && EligibleTasks(db, target, now) == {id}
    ensures IsFirst(db.tasks, EligibleTasks(db, target, now), id)
    ensures IsRanking(db.world, obj, target, map[other := 1]) && SelfSelectable(db, id)
  {
    assert HasCopy(db.world, obj, other);
    assert Usable(db.world, obj, target) == {other};
    assert Eligible(db, target, now, id);
    assert IsRanking(db.world, obj, target, map[other := 1]);
  }

  /** Rank 0 makes the target's own row win, rank 1 makes it tie. */
  lemma SelfSourcedRanks(db: Db, id: TaskId, target: DeviceId, other: DeviceId, obj: ObjectId, copy: Replica, rank: int)
    requires SelfSourced(db, id, target, other, obj, copy, rank) && 0 <= rank <= 1
    ensures if rank == 0 then TargetWins(db, id) else TargetTies(db, id)
  {
    SelfSourcedQueries(db, id, target, other, obj, copy, rank, 0);
    assert other in Usable(db.world, obj, target);
    assert !SeenLater(db.world, target, other) && !SeenLater(db.world, other, target);
  }

  /** After the refresh the target may be picked. */
  lemma SelfSourcedPick(db: Db, after: Db, id: TaskId, target: DeviceId, other: DeviceId, obj: ObjectId, copy: Replica, rank: int)
    requires SelfSourced(db, id, target, other, obj, copy, rank) && 0 <= rank <= 1
    requires after.world == db.world && after.sources == Refreshed(db.sources, id, map[other := 1])
    ensures IsPicked(after, id, obj, target)
  {
    assert after.sources[SourceKey(id, target)] == Source(rank, false);
    assert after.sources[SourceKey(id, other)] == Source(1, false);
    assert HasCopy(db.world, obj, target);
    forall e | e in after.world.devices && e != target ensures e == other && Better(after, id, target, e) {
    }
  }

  /** On such tables, with an active entry of the object, there is a claim that makes the target its own source. */
  lemma SelfSourceHappens(db: Db, id: TaskId, target: DeviceId, other: DeviceId, obj: ObjectId, copy: Replica, rank: int, now: Time)
    requires SelfSourced(db, id, target, other, obj, copy, rank) && 0 <= rank <= 1
    requires exists e <- db.world.entries :: db.world.entries[e].active && db.world.entries[e].obj == obj
    ensures id in db.tasks && if rank == 0 then TargetWins(db, id) else TargetTies(db, id)
    ensures exists a, after ::
      Effect(db, Granted(target, SECOND, now, map[other := 1], a), after) && a.task == id && a.source == target
  {
    SelfSourcedRanks(db, id, target, other, obj, copy, rank);
    SelfSourcedQueries(db, id, target, other, obj, copy, rank, now);
    var ranks, until := map[other := 1], now + SECOND;
    var t := Claimed(db.tasks[id], target, until);
    var after := Db(db.tasks[id := t], Refreshed(db.sources, id, ranks), db.world);
    SelfSourcedPick(db, after, id, target, other, obj, copy, rank);
    var a := Assignment(id, obj, target, db.world.objects[obj], t.attempt, t.version, until);
    ClaimGranted(db, target, SECOND, now, ranks, a, after);
  }

  /** Without one, the device's claims are blocked. */
  lemma BlockHappens(db: Db, id: TaskId, target: DeviceId, other: DeviceId, obj: ObjectId, copy: Replica, rank: int, now: Time)
    requires SelfSourced(db, id, target, other, obj, copy, rank)
    ensures FirstBlocked(db, EligibleTasks(db, target, now)) <==>
      forall e <- db.world.entries :: db.world.entries[e].active ==> db.world.entries[e].obj != obj
  {
    SelfSourcedQueries(db, id, target, other, obj, copy, rank, now);
    OnlyFirst(db, EligibleTasks(db, target, now), id);
  }

  /** Such tables exist for any two devices, with or without the entry. */
  lemma SelfSourcedExists(id: TaskId, target: DeviceId, other: DeviceId, obj: ObjectId, copy: Replica, rank: int,
                          content: Content, entries: map<EntryId, FileEntry>) returns (db: Db)
    requires target != other && copy.state == Rows.ReplicaReady && copy.endpoint.Some? && copy.clientFile.Some?
    ensures SelfSourced(db, id, target, other, obj, copy, rank) && db.world.entries == entries
  {
    var world := World(map[ReplicaKey(obj, target) := copy, ReplicaKey(obj, other) := copy],
                       map[target := Device(true, None), other := Device(true, None)], entries, map[obj := content]);
    db := Db(map[id := NewTask(obj, target, 0, 0)], map[SourceKey(id, target) := Source(rank, false)], world);
  }
}
