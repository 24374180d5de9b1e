/** The Agent's side of one transfer: the version it counts along, and what its last word means. */
module TransferAgent {
  import opened Base
  import opened TransferTask
  import opened Scheduler
  import opened SchedulerSafety

  /** What became of one request to the server. */
  datatype Delivery = Lost | ReplyLost | Answered

  const LEASE := 600 * SECOND

  /** The row of transfer_runs. */
  datatype RunState = Unclaimed | Reached(state: TaskState) | GaveUp | CanceledRun | CompletedRun

  const PROGRESS := [Discovering, Connecting, Transferring]

  // Requests are numbered: the claim, three progress reports, verifying, complete, and a last fail or cancel.
  const VERIFY := 4
  const COMPLETE := 5
  const LAST := 6

  /** Any call anyone else may make on the scheduler, and changes of the tables it only reads. */
  datatype Call =
    | CallCreateReplica(file: EntryId, target: DeviceId, priority: int, id: TaskId, now: Time)
    | CallCreate(obj: ObjectId, target: DeviceId, priority: int, id: TaskId, now: Time)
    | CallAddSource(id: TaskId, device: DeviceId, rank: int)
    | CallClaim(device: DeviceId, lease: int, now: Time)
    | CallAcquire(id: TaskId, device: DeviceId, lease: int, now: Time)
    | CallReport(id: TaskId, device: DeviceId, expected: nat, state: TaskState, now: Time)
    | CallFail(id: TaskId, device: DeviceId, expected: nat, now: Time)
    | CallComplete(id: TaskId, device: DeviceId, expected: nat, n: Announcement, now: Time)
    | CallCancel(id: TaskId)
    | CallElsewhere(world: World)

  /** Everything the attempt meets that is not the server's answer. */
  datatype Weather = Weather(
    net: seq<Delivery>, clock: seq<Time>,
    others: seq<seq<Call>>,         // what others do just before each request
    canceled: set<nat>,             // before each progress report; then 3: it stopped the download, or was seen right after
    downloaded: Option<Bytes>,      // what the download left in the scratch file, if it succeeded
    stored: Option<FileId>)         // the local file row, once the bytes are imported

  function Net(w: Weather, k: nat): Delivery {
    if k < |w.net| then w.net[k] else Lost
  }

  function Clock(w: Weather, k: nat): Time {
    if k < |w.clock| then w.clock[k] else 0
  }

  function OthersAt(w: Weather, k: nat): seq<Call> {
    if k < |w.others| then w.others[k] else []
  }

  /** Nobody else acts on the scheduler meanwhile. */
  predicate Alone(w: Weather) {
    forall k :: 0 <= k < |w.others| ==> w.others[k] == []
  }

  /** Every request is made while the lease lasts. */
  predicate InTime(w: Weather) {
    forall k: nat :: k <= LAST ==> Clock(w, k) < Clock(w, 0) + LEASE
  }

  /** The task `n` accepted reports after the claim. */
  function Counted(t: Task, state: TaskState, n: nat): Task {
    t.(state := state, version := t.version + n)
  }

  /** The progress state after `n` reports. */
  function After(n: nat): TaskState
    requires n <= 3
  {
    if n == 0 then Assigned else PROGRESS[n - 1]
  }

  predicate Matches(bytes: Bytes, content: Content) {
    |bytes| == content.size && Sha(bytes) == content.sha256
  }

  /** The download ended with the object's bytes and they were stored. */
  predicate Verified(w: Weather, content: Content) {
    w.downloaded.Some? && Matches(w.downloaded.value, content) && w.stored.Some?
  }

  /** The server can take the announcement: it is well formed, and no other copy has its file id. */
  predicate Acceptable(db: Db, id: TaskId, n: Announcement)
    requires id in db.tasks
  {
    WellFormed(n) && !FileIdTaken(db.world, db.tasks[id].target, n.localFile, ReplicaKey(db.tasks[id].obj, db.tasks[id].target))
  }

  // ---- How an attempt goes when nobody else acts and the lease lasts ----

  /**
   Where it stops: cancelled, at a report whose answer did not come, without the right bytes
   or with an announcement the server refuses, or at the end.
   */
  datatype Course = Stopped | Unheard(request: nat) | Unfit | Confirmed

  /** The course up to the progress reports from the i-th on; nothing when all are answered. */
  function Reporting(w: Weather, i: nat): Option<Course>
    requires i <= 3
    decreases 3 - i
  {
    if i == 3 then None
    else if i in w.canceled then Some(Stopped)
    else if Net(w, i + 1) != Answered then Some(Unheard(i + 1))
    else Reporting(w, i + 1)
  }

  /** The course from the completion report on. */
  function Completing(w: Weather, acceptable: bool): Course {
    if Net(w, COMPLETE) == Lost then Unheard(COMPLETE)
    else if !acceptable then Unfit
    else if Net(w, COMPLETE) == ReplyLost then Unheard(COMPLETE)
    else Confirmed
  }

  /** The course from the verifying report on. */
  function Delivering(w: Weather, content: Content, db: Db, id: TaskId, endpoint: Endpoint): Course
    requires id in db.tasks
  {
    if Net(w, VERIFY) != Answered then Unheard(VERIFY) else Concluding(w, content, db, id, endpoint)
  }

  /** The course once the verifying report was heard. */
  function Concluding(w: Weather, content: Content, db: Db, id: TaskId, endpoint: Endpoint): Course
    requires id in db.tasks
  {
    if !Verified(w, content) then Unfit
    else Completing(w, Acceptable(db, id, Announcement(content, w.stored.value, endpoint)))
  }

  function CourseOf(w: Weather, content: Content, db: Db, id: TaskId, endpoint: Endpoint): Course
    requires id in db.tasks
  {
    if Reporting(w, 0).Some? then Reporting(w, 0).value
    else if 3 in w.canceled then Stopped
    else if w.downloaded == None then Unfit
    else Delivering(w, content, db, id, endpoint)
  }

  /**
   The lease is released: the last message got through, and the report the attempt stopped
   at did not take effect unheard; or the completion took effect.
   */
  predicate Freed(w: Weather, c: Course) {
    match c
    case Confirmed => true
    case Unheard(k) => (k == COMPLETE && Net(w, k) == ReplyLost) || (Net(w, k) == Lost && Net(w, LAST) != Lost)
    case _ => Net(w, LAST) != Lost
  }

  /** The lease is released and both sides know the same end: the answer that tells the Agent came, too. */
  predicate Agreed(w: Weather, c: Course) {
    match c
    case Confirmed => true
    case Unheard(k) => Net(w, k) == Lost && Net(w, LAST) != Lost
    case Stopped => Net(w, LAST) == Answered
    case Unfit => Net(w, LAST) != Lost
  }

  /** The server's task has no lease and ended, or waits, as the Agent recorded. */
  ghost predicate Settled(db: Db, id: TaskId, run: RunState) {
    && id in db.tasks && db.tasks[id].owner == None
    && match run
       case CompletedRun => db.tasks[id].state == Completed
       case CanceledRun => db.tasks[id].state == Canceled
       case GaveUp => db.tasks[id].state == RetryWait || db.tasks[id].state == FailedPermanent
       case _ => false
  }

  /** The exact end of each course. */
  ghost predicate EndsAs(w: Weather, c: Course, db: Db, id: TaskId, run: RunState) {
    && id in db.tasks
    && (db.tasks[id].owner == None <==> Freed(w, c))
    && (Settled(db, id, run) <==> Agreed(w, c))
    && (run == CompletedRun <==> c == Confirmed)
    && (c == Unheard(COMPLETE) && Net(w, COMPLETE) == ReplyLost ==> db.tasks[id].state == Completed && run == GaveUp)
  }

  /** The lease the claim gave covers the whole attempt, and nobody else acts. */
  ghost predicate Undisturbed(t: Task, device: DeviceId, w: Weather) {
    && Alone(w) && InTime(w)
    && t.target == device && t.owner == Some(device) && t.until == Some(Clock(w, 0) + LEASE)
  }

  /** The task is completed five versions after the claim, and the target holds the copy. */
  ghost predicate Delivered(db: Db, a: Assignment, t: Task) {
    && a.task in db.tasks && db.tasks[a.task] == t.(state := Completed, owner := None, until := None, version := t.version + 5)
    && IsReady(db.world, t.obj, t.target)
    && db.world.replicas[ReplicaKey(t.obj, t.target)].size == a.content.size
  }

  // ---- What others may do in between ----

  ghost predicate AllAdvanced(before: Db, after: Db) {
    forall id <- before.tasks :: id in after.tasks && Advanced(before.tasks[id], after.tasks[id])
  }

  lemma Commits(before: Db, ch: Change, after: Db)
    requires Effect(before, ch, after)
    ensures AllAdvanced(before, after)
  {
    EffectKeeps(before, ch, after);
  }

  /** A task as it was at a version, or moved past it. */
  ghost predicate Still(db: Db, id: TaskId, c: Task) {
    id in db.tasks && (db.tasks[id] == c || db.tasks[id].version > c.version)
  }

  lemma StillAdvances(before: Db, after: Db, id: TaskId, c: Task)
    requires Still(before, id, c) && AllAdvanced(before, after)
    ensures Still(after, id, c)
  {
  }

  /** One call of someone else: a committed change or none. */
  method OtherCall(server: Repository, call: Call)
    modifies server
    ensures AllAdvanced(old(server.db), server.db)
  {
    ghost var before := server.db;
    match call {
      case CallCreateReplica(file, target, priority, id, now) =>
        if id !in server.db.tasks {
          var r, ranks := server.CreateReplicaTask(file, target, priority, id, now);
          if server.db != before { Commits(before, Created(file, target, priority, id, now, ranks), server.db); }
        }
      case CallCreate(obj, target, priority, id, now) =>
        if id !in server.db.tasks {
          var r := server.CreateTask(obj, target, priority, id, now);
          if r.Ok? { Commits(before, Inserted(obj, target, priority, id, now), server.db); }
        }
      case CallAddSource(id, device, rank) =>
        var r := server.AddSource(id, device, rank);
        if r.Ok? { Commits(before, SourceAdded(id, device, rank), server.db); }
      case CallClaim(device, lease, now) =>
        var r, ranks := server.ClaimNext(device, lease, now);
        if r.Ok? { Commits(before, Granted(device, lease, now, ranks, r.value), server.db); }
      case CallAcquire(id, device, lease, now) =>
        var r := server.AcquireLease(id, device, lease, now);
        if r.Ok? { Commits(before, Leased(id, device, lease, now), server.db); }
      case CallReport(id, device, expected, state, now) =>
        var r := server.UpdateState(id, device, expected, state, now);
        if r.Ok? { Commits(before, Reported(id, device, expected, state, now), server.db); }
      case CallFail(id, device, expected, now) =>
        var r := server.FailAttempt(id, device, expected, now);
        if r.Ok? { Commits(before, Failed(id, device, expected, now), server.db); }
      case CallComplete(id, device, expected, n, now) =>
        var r := server.CompleteReplica(id, device, expected, n, now);
        if r.Ok? { Commits(before, Finished(id, device, expected, n, now), server.db); }
      case CallCancel(id) =>
        var r := server.CancelTask(id);
        if r.Ok? { Commits(before, Change.Cancelled(id), server.db); }
      case CallElsewhere(world) =>
        server.ChangeWorld(world);
        Commits(before, Elsewhere(world), server.db);
    }
  }

  method Others(server: Repository, calls: seq<Call>)
    modifies server
    ensures AllAdvanced(old(server.db), server.db)
    ensures calls == [] ==> server.db == old(server.db)
  {
    for i := 0 to |calls|
      invariant AllAdvanced(old(server.db), server.db)
      invariant i == 0 ==> server.db == old(server.db)
    {
      OtherCall(server, calls[i]);
    }
  }

  // ---- The Agent ----

  class Agent {
    const device: DeviceId
    const endpoint: Endpoint
    const server: Repository
    var run: RunState

    constructor (device: DeviceId, endpoint: Endpoint, server: Repository)
      ensures this.device == device && this.endpoint == endpoint && this.server == server && run == Unclaimed
    {
      this.device, this.endpoint, this.server, run := device, endpoint, server, Unclaimed;
    }

    /**
     The k-th request, a state report; the Agent only knows it was accepted when the answer
     arrives.  Acceptance at the counted version means nobody touched the task since.
     */
    method ReportState(a: Assignment, k: nat, version: nat, state: TaskState, w: Weather, ghost c: Task) returns (accepted: bool)
      requires Still(server.db, a.task, c) && version == c.version
      modifies server
      ensures a.task in server.db.tasks
      ensures accepted ==> Net(w, k) == Answered && server.db.tasks[a.task] == Counted(c, state, 1)
      ensures Alone(w) && old(server.db).tasks[a.task] == c ==>
        var u := Update(c, device, version, state, Clock(w, k));
        && (accepted <==> Net(w, k) == Answered && u.Ok?)
        && server.db == if Net(w, k) != Lost && u.Ok? then WithTask(old(server.db), a.task, u.value) else old(server.db)
    {
      Others(server, OthersAt(w, k));
      StillAdvances(old(server.db), server.db, a.task, c);
      if Net(w, k) == Lost {
        return false;
      }
      var r := server.UpdateState(a.task, device, version, state, Clock(w, k));
      accepted := Net(w, k) == Answered && r.Ok?;
    }

    /** Giving the attempt up: the lease is released if the version is still the one counted. */
    method GiveUp(a: Assignment, version: nat, w: Weather)
      requires a.task in server.db.tasks
      modifies this`run, server
      ensures run == GaveUp && a.task in server.db.tasks
      ensures Alone(w) ==>
        var f := Moved(old(server.db), Failed(a.task, device, version, Clock(w, LAST)));
        && (Net(w, LAST) == Lost || f.Err? ==> server.db == old(server.db))
        && (Net(w, LAST) != Lost && f.Ok? ==> server.db.tasks == old(server.db).tasks[a.task := f.value])
    {
      Others(server, OthersAt(w, LAST));
      if Net(w, LAST) != Lost {
        var _ := server.FailAttempt(a.task, device, version, Clock(w, LAST));
      }
      run := GaveUp;
    }

    method CancelTransfer(a: Assignment, w: Weather)
      requires a.task in server.db.tasks
      modifies this`run, server
      ensures run == (if Net(w, LAST) == Answered then CanceledRun else old(run)) && a.task in server.db.tasks
      ensures Alone(w) ==>
        server.db == if Net(w, LAST) == Lost then old(server.db) else WithTask(old(server.db), a.task, Cancel(old(server.db).tasks[a.task]))
    {
      Others(server, OthersAt(w, LAST));
      if Net(w, LAST) == Lost {
        return;
      }
      var _ := server.CancelTask(a.task);
      if Net(w, LAST) == Answered {
        run := CanceledRun;
      }
    }

    /** The i-th progress report: a cancellation or an unheard answer ends the attempt here. */
    method ProgressOne(a: Assignment, i: nat, w: Weather, ghost t: Task) returns (going: bool)
      requires i < 3 && a.task in server.db.tasks && server.db.tasks[a.task] == Counted(t, After(i), i)
      requires a.version == t.version && run == Reached(After(i))
      modifies this`run, server
      ensures going ==> a.task in server.db.tasks && server.db.tasks[a.task] == Counted(t, After(i + 1), i + 1)
      ensures if going then run == Reached(After(i + 1)) else run != CompletedRun
      ensures Undisturbed(t, device, w) && LiveOnce(old(server.db), a.task) ==>
        if i in w.canceled then !going && EndsAs(w, Stopped, server.db, a.task, run)
        else if Net(w, i + 1) != Answered then !going && EndsAs(w, Unheard(i + 1), server.db, a.task, run)
        else going && server.db == WithTask(old(server.db), a.task, Counted(t, After(i + 1), i + 1))
    {
      if i in w.canceled {
        CancelTransfer(a, w);
        return false;
      }
      going := ReportState(a, i + 1, a.version + i, PROGRESS[i], w, Counted(t, After(i), i));
      if going {
        run := Reached(PROGRESS[i]);
      } else {
        GiveUp(a, a.version + i, w);
      }
    }

    /** The three progress reports. */
    method Progress(a: Assignment, w: Weather, ghost t: Task) returns (going: bool)
      requires a.task in server.db.tasks && server.db.tasks[a.task] == t && t.state == Assigned && a.version == t.version
      requires run == Reached(Assigned)
      modifies this`run, server
      ensures going ==> a.task in server.db.tasks && server.db.tasks[a.task] == Counted(t, Transferring, 3)
      ensures if going then run == Reached(Transferring) else run != CompletedRun
      ensures Undisturbed(t, device, w) && LiveOnce(old(server.db), a.task) ==>
        && (going <==> Reporting(w, 0) == None)
        && (!going ==> EndsAs(w, Reporting(w, 0).value, server.db, a.task, run))
        && (going ==> server.db == WithTask(old(server.db), a.task, Counted(t, Transferring, 3)))
    {
      var i := 0;
      going := true;
      while i < 3
        invariant 0 <= i <= 3
        invariant a.task in server.db.tasks && server.db.tasks[a.task] == Counted(t, After(i), i)
        invariant run == Reached(After(i))
        invariant Undisturbed(t, device, w) && LiveOnce(old(server.db), a.task) ==>
          && server.db == WithTask(old(server.db), a.task, Counted(t, After(i), i)) && LiveOnce(server.db, a.task)
          && Reporting(w, i) == Reporting(w, 0)
      {
        going := ProgressOne(a, i, w, t);
        if !going {
          return;
        }
        i := i + 1;
      }
    }

    /** Complete: the copy is announced with the version counted so far. */
    method ReportComplete(a: Assignment, version: nat, n: Announcement, w: Weather, ghost c: Task) returns (accepted: bool)
      requires Still(server.db, a.task, c) && version == c.version
      modifies server
      ensures a.task in server.db.tasks
      ensures accepted ==> CompletedAs(server.db, a.task, c, n.content)
      ensures Alone(w) && old(server.db).tasks[a.task] == c ==>
        var done := Moved(old(server.db), Finished(a.task, device, version, n, Clock(w, COMPLETE)));
        && (accepted <==> Net(w, COMPLETE) == Answered && done.Ok?)
        && (if Net(w, COMPLETE) != Lost && done.Ok? then CompletedAs(server.db, a.task, c, n.content) else server.db == old(server.db))
    {
      Others(server, OthersAt(w, COMPLETE));
      StillAdvances(old(server.db), server.db, a.task, c);
      if Net(w, COMPLETE) == Lost {
        return false;
      }
      var r := server.CompleteReplica(a.task, device, version, n, Clock(w, COMPLETE));
      accepted := Net(w, COMPLETE) == Answered && r.Ok?;
    }

    /** The completion report of verified bytes. */
    method Finish(a: Assignment, version: nat, n: Announcement, w: Weather, ghost t: Task)
      requires a.task in server.db.tasks && server.db.tasks[a.task] == Counted(t, Verifying, 4)
      requires version == t.version + 4 && run == Reached(Verifying) && n.content == a.content
      modifies this`run, server
      ensures run == CompletedRun ==> Delivered(server.db, a, t)
      ensures Undisturbed(t, device, w) && Known(old(server.db), a) ==>
        EndsAs(w, Completing(w, Acceptable(old(server.db), a.task, n)), server.db, a.task, run)
    {
      var accepted := ReportComplete(a, version, n, w, Counted(t, Verifying, 4));
      if accepted {
        run := CompletedRun;
      } else {
        GiveUp(a, version, w);
      }
    }

    /** From the finished download to the completion report. */
    method Deliver(a: Assignment, bytes: Bytes, w: Weather, ghost t: Task)
      requires a.task in server.db.tasks && server.db.tasks[a.task] == Counted(t, Transferring, 3)
      requires a.version == t.version && run == Reached(Transferring) && w.downloaded == Some(bytes)
      modifies this`run, server
      ensures run == CompletedRun ==> Verified(w, a.content) && Delivered(server.db, a, t)
      ensures Undisturbed(t, device, w) && Known(old(server.db), a) ==>
        EndsAs(w, Delivering(w, a.content, old(server.db), a.task, endpoint), server.db, a.task, run)
    {
      var version := a.version + 3;
      var accepted := ReportState(a, VERIFY, version, Verifying, w, Counted(t, Transferring, 3));
      if !accepted {
        GiveUp(a, version, w);
        return;
      }
      run := Reached(Verifying);
      Conclude(a, version + 1, bytes, w, t);
    }

    /** Hash, import and announce what was downloaded. */
    method Conclude(a: Assignment, version: nat, bytes: Bytes, w: Weather, ghost t: Task)
      requires a.task in server.db.tasks && server.db.tasks[a.task] == Counted(t, Verifying, 4)
      requires version == t.version + 4 && run == Reached(Verifying) && w.downloaded == Some(bytes)
      modifies this`run, server
      ensures run == CompletedRun ==> Verified(w, a.content) && Delivered(server.db, a, t)
      ensures Undisturbed(t, device, w) && Known(old(server.db), a) ==>
        EndsAs(w, Concluding(w, a.content, old(server.db), a.task, endpoint), server.db, a.task, run)
    {
      if !Matches(bytes, a.content) || w.stored == None {
        GiveUp(a, version, w);
        return;
      }
      Finish(a, version, Announcement(Content(|bytes|, Sha(bytes)), w.stored.value, endpoint), w, t);
    }

    /** Everything after the claim. */
    method Perform(a: Assignment, w: Weather, ghost t: Task)
      requires a.task in server.db.tasks && server.db.tasks[a.task] == t && t.state == Assigned && a.version == t.version
      requires run == Reached(Assigned)
      modifies this`run, server
      ensures run == CompletedRun ==> Verified(w, a.content) && Delivered(server.db, a, t)
      ensures Undisturbed(t, device, w) && Known(old(server.db), a) ==>
        EndsAs(w, CourseOf(w, a.content, old(server.db), a.task, endpoint), server.db, a.task, run)
    {
      var going := Progress(a, w, t);
      if !going {
        return;
      }
      if 3 in w.canceled {
        CancelTransfer(a, w);
      } else if w.downloaded == None {
        GiveUp(a, a.version + 3, w);
      } else {
        Deliver(a, w.downloaded.value, w, t);
      }
    }

    /**
     One pass: claim, report progress, download, verify, complete.

     Whatever anyone else does to the scheduler between the requests, the Agent says completed
     only of a task the server completed by this very attempt, five versions after its claim,
     with the copy registered and the bytes checked.

     When nobody else acts and the lease lasts, the attempt ends as its course says: that is
     exactly when the lease is released, when both sides agree, and when it is completed.
     */
    method ExecuteOneTransfer(w: Weather) returns (job: Option<Assignment>)
      requires LiveUnique(server.db)    // the unique index of the database
      modifies this`run, server
      ensures job == None ==> run == old(run)
      ensures job == None && Alone(w) && server.db != old(server.db) ==> Net(w, 0) == ReplyLost
      ensures Alone(w) ==>
        var ids := EligibleTasks(old(server.db), device, Clock(w, 0));
        (job.Some? <==> Net(w, 0) == Answered && ids != {} && !FirstBlocked(old(server.db), ids))
      ensures job.Some? && run == CompletedRun ==>
        && Verified(w, job.value.content)
        && exists t :: IsClaimed(t, device, w) && t.version == job.value.version && Delivered(server.db, job.value, t)
      ensures job.Some? && Alone(w) && (forall k: nat :: k <= LAST ==> Clock(w, k) < Clock(w, 0) + 600 * SECOND) ==>
        && job.value.task in old(server.db).tasks
        && EndsAs(w, CourseOf(w, job.value.content, old(server.db), job.value.task, endpoint), server.db, job.value.task, run)
    {
      Others(server, OthersAt(w, 0));
      if Net(w, 0) == Lost {
        return None;
      }
      ghost var before := server.db;
      var claim, ranks := server.ClaimNext(device, LEASE, Clock(w, 0));
      if claim.Err? || Net(w, 0) == ReplyLost {
        return None;
      }
      var a := claim.value;
      run := Reached(Assigned);
      ghost var t := ClaimedTask(before, device, w, ranks, a, server.db);
      SameCourse(w, a, before, server.db, endpoint);
      Perform(a, w, t);
      job := Some(a);
    }
  }

  /** No other live task stands for the same object and target. */
  predicate LiveOnce(db: Db, id: TaskId) {
    id in db.tasks && !LiveElsewhere(db, id)
  }

  /** The assignment describes the object as the tables do. */
  predicate Known(db: Db, a: Assignment) {
    LiveOnce(db, a.task) && db.tasks[a.task].obj in db.world.objects && a.content == db.world.objects[db.tasks[a.task].obj]
  }

  /** The task completed one version later, and the target holds the announced copy. */
  ghost predicate CompletedAs(db: Db, id: TaskId, c: Task, content: Content) {
    && id in db.tasks && db.tasks[id] == c.(state := Completed, owner := None, until := None, version := c.version + 1)
    && IsReady(db.world, c.obj, c.target)
    && db.world.replicas[ReplicaKey(c.obj, c.target)].size == content.size
  }

  /** A task just claimed for this attempt. */
  predicate IsClaimed(t: Task, device: DeviceId, w: Weather) {
    && t.state == Assigned && t.target == device && t.owner == Some(device) && t.until == Some(Clock(w, 0) + LEASE)
  }

  /** The claim itself does not change what the server would accept at the end. */
  lemma SameCourse(w: Weather, a: Assignment, before: Db, after: Db, endpoint: Endpoint)
    requires a.task in before.tasks && a.task in after.tasks && after.world == before.world
    requires after.tasks[a.task].obj == before.tasks[a.task].obj && after.tasks[a.task].target == before.tasks[a.task].target
    ensures CourseOf(w, a.content, after, a.task, endpoint) == CourseOf(w, a.content, before, a.task, endpoint)
  {
  }

  /** What the Agent may rely on after a granted claim. */
  lemma ClaimedTask(before: Db, device: DeviceId, w: Weather, ranks: map<DeviceId, int>, a: Assignment, after: Db) returns (t: Task)
    requires Effect(before, Granted(device, LEASE, Clock(w, 0), ranks, a), after)
    ensures a.task in before.tasks && t.obj == before.tasks[a.task].obj && t.target == before.tasks[a.task].target
    ensures after.world == before.world
    ensures a.task in after.tasks && after.tasks[a.task] == t && IsClaimed(t, device, w) && a.version == t.version
    ensures LiveUnique(before) ==> Known(after, a)
  {
    assert a.task in EligibleTasks(before, device, Clock(w, 0));
    t := after.tasks[a.task];
    if LiveUnique(before) {
      forall i | i in after.tasks && i != a.task ensures !IsLiveFor(after.tasks[i], t.obj, t.target) {
        assert !BothLive(before.tasks[i], before.tasks[a.task]);
      }
    }
  }

  /**
   Why a lost answer keeps the lease: the report took effect, the Agent counts one version too
   few, so exactly then its failure report is refused within the lease, and nobody can claim
   the task before the lease runs out.
   */
  lemma LostAnswerKeepsLease(t: Task, device: DeviceId, state: TaskState, heard: bool, now: Time, later: Time, until: Time)
    requires Update(t, device, t.version, state, now).Ok? && t.until == Some(until)
    ensures var u := Update(t, device, t.version, state, now).value;
      && (Fail(u, device, if heard then u.version else t.version, later).Ok? <==> heard && later < until)
      && (Claimable(u, device, later) <==> later >= until && !Terminal(state) && state != Paused)
  {
  }
}
