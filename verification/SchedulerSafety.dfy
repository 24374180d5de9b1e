/** What every committed change to the transfer tables keeps, over whole runs. */
module SchedulerSafety {
  import opened Base
  import opened TransferTask
  import opened Scheduler
  import Rows = ServerCatalog

  // ---- Invariants ----

  predicate BothLive(a: Task, b: Task) {
    !Terminal(a.state) && !Terminal(b.state) && a.obj == b.obj && a.target == b.target
  }

  /** At most one live task for each object and target. */
  ghost predicate LiveUnique(db: Db) {
    forall i, j :: i in db.tasks && j in db.tasks && i != j ==> !BothLive(db.tasks[i], db.tasks[j])
  }

  ghost predicate AllClean(db: Db) {
    forall id <- db.tasks :: Clean(db.tasks[id])
  }

  ghost predicate SourcesKnown(db: Db) {
    forall k <- db.sources :: k.task in db.tasks
  }

  /** The task lists its own target as a source. */
  predicate HasSelfRow(db: Db, id: TaskId) {
    id in db.tasks && SourceKey(id, db.tasks[id].target) in db.sources
  }

  /** An accepted report that ends its task and leaves the lease set. */
  predicate EndsByReport(ch: Change) {
    ch.Reported? && Terminal(ch.state)
  }

  /** AddSource names the task's own target. */
  predicate NamesTarget(db: Db, ch: Change, id: TaskId) {
    ch.SourceAdded? && ch.id == id && id in db.tasks && ch.device == db.tasks[id].target
  }

  // ---- One change ----

  predicate SameIdentity(a: Task, b: Task) {
    b.obj == a.obj && b.target == a.target && b.priority == a.priority && b.createdAt == a.createdAt
  }

  /** What may happen to a task: nothing, or one version of progress. */
  predicate Progress(a: Task, b: Task) {
    a == b || (b.version == a.version + 1 && SameIdentity(a, b))
  }

  ghost predicate TasksProgress(before: Db, after: Db) {
    forall id <- before.tasks :: id in after.tasks && Progress(before.tasks[id], after.tasks[id])
  }

  /** The one task an operation on a task, a claim or a cancellation is about. */
  predicate Touches(before: Db, ch: Change, after: Db, id: TaskId) {
    && id in before.tasks && id in after.tasks && after.tasks == before.tasks[id := after.tasks[id]]
    && Progress(before.tasks[id], after.tasks[id])
    && (Clean(before.tasks[id]) ==> Terminal(before.tasks[id].state) ==> after.tasks[id] == before.tasks[id])
    && (Clean(before.tasks[id]) ==> (Clean(after.tasks[id]) <==> !EndsByReport(ch)))
    && (Terminal(before.tasks[id].state) && !Terminal(after.tasks[id].state) ==> !LiveElsewhere(before, id))
  }

  lemma MoveTouches(before: Db, ch: Change, after: Db)
    requires IsMove(ch) && MoveEffect(before, ch, after)
    ensures Touches(before, ch, after, ch.id)
  {
  }

  lemma ClaimTouches(before: Db, ch: Change, after: Db)
    requires ch.Granted? && Effect(before, ch, after)
    ensures Touches(before, ch, after, ch.a.task)
  {
    assert ch.a.task in EligibleTasks(before, ch.device, ch.now);
  }

  /** At most one task is new: queued, and only where no live one stood. */
  ghost predicate Adds(before: Db, after: Db, id: TaskId) {
    && id !in before.tasks && id in after.tasks && after.tasks == before.tasks[id := after.tasks[id]]
    && after.tasks[id].state == Queued && !HasLive(before, after.tasks[id].obj, after.tasks[id].target)
  }

  /** Every change leaves the tasks alone, adds one, or touches one. */
  ghost predicate Shaped(before: Db, ch: Change, after: Db) {
    match ch
    case Created(_, _, _, id, _, _) => Adds(before, after, id)
    case Inserted(_, _, _, id, _) => Adds(before, after, id)
    case SourceAdded(_, _, _) => after.tasks == before.tasks
    case Elsewhere(_) => after.tasks == before.tasks
    case Granted(_, _, _, _, a) => Touches(before, ch, after, a.task)
    case _ => Touches(before, ch, after, ch.id)
  }

  lemma EffectShape(before: Db, ch: Change, after: Db)
    requires Effect(before, ch, after)
    ensures Shaped(before, ch, after)
  {
    if IsMove(ch) {
      MoveTouches(before, ch, after);
    } else if ch.Granted? {
      ClaimTouches(before, ch, after);
    }
  }

  lemma TouchedUnique(before: Db, ch: Change, after: Db, id: TaskId)
    requires LiveUnique(before) && Touches(before, ch, after, id)
    ensures LiveUnique(after)
  {
    forall i, j | i in after.tasks && j in after.tasks && i != j ensures !BothLive(after.tasks[i], after.tasks[j]) {
      assert !BothLive(before.tasks[i], before.tasks[j]);
      var other := if i == id then j else i;
      if (i == id || j == id) && Terminal(before.tasks[id].state) && !Terminal(after.tasks[id].state) {
        assert !IsLiveFor(before.tasks[other], before.tasks[id].obj, before.tasks[id].target);
      }
    }
  }

  lemma AddedUnique(before: Db, after: Db, id: TaskId)
    requires LiveUnique(before) && Adds(before, after, id)
    ensures LiveUnique(after)
  {
    forall i, j | i in after.tasks && j in after.tasks && i != j ensures !BothLive(after.tasks[i], after.tasks[j]) {
      if i == id {
        assert !IsLiveFor(before.tasks[j], after.tasks[id].obj, after.tasks[id].target);
      } else if j == id {
        assert !IsLiveFor(before.tasks[i], after.tasks[id].obj, after.tasks[id].target);
      } else {
        assert !BothLive(before.tasks[i], before.tasks[j]);
      }
    }
  }

  lemma ShapedClean(before: Db, ch: Change, after: Db)
    requires Shaped(before, ch, after) && AllClean(before)
    ensures AllClean(after) <==> !EndsByReport(ch)
  {
    if !EndsByReport(ch) {
      assert AllClean(after);
    } else {
      assert !Clean(after.tasks[ch.id]);
    }
  }

  lemma ShapedProgress(before: Db, ch: Change, after: Db)
    requires Shaped(before, ch, after)
    ensures TasksProgress(before, after)
    ensures LiveUnique(before) ==> LiveUnique(after)
  {
    if LiveUnique(before) {
      if ch.Created? || ch.Inserted? {
        AddedUnique(before, after, ch.id);
      } else if !ch.SourceAdded? && !ch.Elsewhere? {
        TouchedUnique(before, ch, after, if ch.Granted? then ch.a.task else ch.id);
      }
    }
  }

  lemma EffectKeeps(before: Db, ch: Change, after: Db)
    requires Effect(before, ch, after)
    ensures TasksProgress(before, after)
    ensures LiveUnique(before) ==> LiveUnique(after)
    ensures AllClean(before) ==> (AllClean(after) <==> !EndsByReport(ch))
  {
    EffectShape(before, ch, after);
    ShapedProgress(before, ch, after);
    if AllClean(before) {
      ShapedClean(before, ch, after);
    }
  }

  /** An ended task without a lease is out of reach of every change. */
  lemma EndedStays(before: Db, ch: Change, after: Db, id: TaskId)
    requires Effect(before, ch, after) && id in before.tasks && Clean(before.tasks[id]) && Terminal(before.tasks[id].state)
    ensures id in after.tasks && after.tasks[id] == before.tasks[id]
  {
    EffectShape(before, ch, after);
  }

  // ---- Runs ----

  ghost predicate StepAt(run: seq<Db>, changes: seq<Change>, i: int) {
    0 <= i < |changes| < |run| && Effect(run[i], changes[i], run[i + 1])
  }

  /** A run of committed changes from empty tables, under any behaviour of the rest of the server. */
  ghost predicate IsRun(run: seq<Db>, changes: seq<Change>) {
    && |run| == |changes| + 1
    && run[0].tasks == map[] && run[0].sources == map[]
    && forall i :: 0 <= i < |changes| ==> StepAt(run, changes, i)
  }

  lemma {:induction false} RunLiveUnique(run: seq<Db>, changes: seq<Change>, i: nat)
    requires IsRun(run, changes) && i < |run|
    ensures LiveUnique(run[i])
  {
    if i > 0 {
      RunLiveUnique(run, changes, i - 1);
      assert StepAt(run, changes, i - 1);
      EffectKeeps(run[i - 1], changes[i - 1], run[i]);
    }
  }

  /** In every reachable state at most one live task exists for each object and target. */
  lemma OneLiveTask(run: seq<Db>, changes: seq<Change>, i: nat, a: TaskId, b: TaskId)
    requires IsRun(run, changes) && i < |run|
    requires a in run[i].tasks && b in run[i].tasks && BothLive(run[i].tasks[a], run[i].tasks[b])
    ensures a == b
  {
    RunLiveUnique(run, changes, i);
  }

  lemma {:induction false} CleanUntil(run: seq<Db>, changes: seq<Change>, i: nat)
    requires IsRun(run, changes) && i < |run| && forall k :: 0 <= k < i ==> !EndsByReport(changes[k])
    ensures AllClean(run[i])
  {
    if i > 0 {
      CleanUntil(run, changes, i - 1);
      assert StepAt(run, changes, i - 1);
      EffectKeeps(run[i - 1], changes[i - 1], run[i]);
    }
  }

  /** Exactly the runs without an accepted report of a terminal state keep all ended tasks free of leases. */
  lemma CleanExactly(run: seq<Db>, changes: seq<Change>)
    requires IsRun(run, changes)
    ensures (forall i :: 0 <= i < |run| ==> AllClean(run[i])) <==> (forall i :: 0 <= i < |changes| ==> !EndsByReport(changes[i]))
  {
    if forall i :: 0 <= i < |changes| ==> !EndsByReport(changes[i]) {
      forall i | 0 <= i < |run| ensures AllClean(run[i]) {
        CleanUntil(run, changes, i);
      }
    }
    if forall i :: 0 <= i < |run| ==> AllClean(run[i]) {
      forall i | 0 <= i < |changes| ensures !EndsByReport(changes[i]) {
        assert StepAt(run, changes, i) && AllClean(run[i]) && AllClean(run[i + 1]);
        EffectKeeps(run[i], changes[i], run[i + 1]);
      }
    }
  }

  /**
   From any point of any run to any later one, no task is lost, its object, target, priority
   and age are fixed, and its version grows with every change.
   */
  lemma {:induction false} TasksOnlyAdvance(run: seq<Db>, changes: seq<Change>, i: nat, j: nat, id: TaskId)
    requires IsRun(run, changes) && i <= j < |run| && id in run[i].tasks
    ensures id in run[j].tasks && Advanced(run[i].tasks[id], run[j].tasks[id])
    decreases j
  {
    if i < j {
      TasksOnlyAdvance(run, changes, i, j - 1, id);
      assert StepAt(run, changes, j - 1);
      EffectKeeps(run[j - 1], changes[j - 1], run[j]);
    }
  }

  /** The same task, later: equal versions mean that nothing happened. */
  predicate Advanced(a: Task, b: Task) {
    SameIdentity(a, b) && a.version <= b.version && (a.version == b.version ==> a == b)
  }

  /**
   A task that ended without a lease is never touched again; and without an accepted report
   of a terminal state, before it, every task that ends, ends without one.
   */
  lemma {:induction false} EndedForever(run: seq<Db>, changes: seq<Change>, i: nat, j: nat, id: TaskId)
    requires IsRun(run, changes) && i <= j < |run| && id in run[i].tasks && Terminal(run[i].tasks[id].state)
    requires Clean(run[i].tasks[id]) || forall k :: 0 <= k < i ==> !EndsByReport(changes[k])
    ensures id in run[j].tasks && run[j].tasks[id] == run[i].tasks[id]
    decreases j
  {
    if !Clean(run[i].tasks[id]) {
      CleanUntil(run, changes, i);
    }
    if i < j {
      EndedForever(run, changes, i, j - 1, id);
      assert StepAt(run, changes, j - 1);
      EndedStays(run[j - 1], changes[j - 1], run[j], id);
    }
  }

  /** The target holds a ready copy of the object's own size, which is what was announced. */
  ghost predicate CopyDelivered(t: Task, w: World, announced: Content) {
    && t.obj in w.objects && ReplicaKey(t.obj, t.target) in w.replicas
    && var copy := w.replicas[ReplicaKey(t.obj, t.target)];
    && copy.state == Rows.ReplicaReady && copy.clientFile.Some?
    && copy.size == w.objects[t.obj].size && announced == w.objects[t.obj]
  }

  /**
   In every run a task becomes completed by CompleteReplica, from verifying, for the lease
   holder and together with the copy, or else by an accepted report of the state completed.
   */
  lemma CompletionDeliversCopy(run: seq<Db>, changes: seq<Change>, i: nat, id: TaskId)
    requires IsRun(run, changes) && i < |changes|
    requires id in run[i + 1].tasks && run[i + 1].tasks[id].state == Completed
    requires id in run[i].tasks ==> run[i].tasks[id].state != Completed
    ensures id in run[i].tasks
    ensures var ch, t := changes[i], run[i].tasks[id];
      && (ch.Finished? || (ch.Reported? && ch.state == Completed)) && ch.id == id
      && (ch.Finished? ==>
            && t.state == Verifying && t.owner == Some(t.target) && t.until.Some? && t.until.value > ch.now
            && CopyDelivered(t, run[i + 1].world, ch.n.content))
      && (ch.Reported? ==> run[i + 1].world == run[i].world)
  {
    assert StepAt(run, changes, i);
    EffectShape(run[i], changes[i], run[i + 1]);
  }

  // ---- Sources over runs ----

  lemma ClaimSources(before: Db, ch: Change, after: Db, id: TaskId)
    requires SourcesKnown(before) && ch.Granted? && Effect(before, ch, after) && TasksProgress(before, after)
    ensures SourcesKnown(after) && (HasSelfRow(after, id) <==> HasSelfRow(before, id))
  {
    assert ch.a.task in EligibleTasks(before, ch.device, ch.now);
    assert before.tasks[ch.a.task].target !in Usable(before.world, ch.a.obj, before.tasks[ch.a.task].target);
    RefreshSources(before, after, ch.a.task, ch.ranks, id);
  }

  lemma CreateSources(before: Db, ch: Change, after: Db, id: TaskId)
    requires SourcesKnown(before) && ch.Created? && Effect(before, ch, after) && TasksProgress(before, after)
    ensures SourcesKnown(after) && (HasSelfRow(after, id) <==> HasSelfRow(before, id))
  {
    assert ch.target !in Usable(before.world, before.world.entries[ch.file].obj, ch.target);
    RefreshSources(before, after, ch.id, ch.ranks, id);
  }

  lemma AddedSource(before: Db, ch: Change, after: Db, id: TaskId)
    requires SourcesKnown(before) && ch.SourceAdded? && Effect(before, ch, after)
    ensures SourcesKnown(after)
    ensures HasSelfRow(after, id) <==> HasSelfRow(before, id) || NamesTarget(before, ch, id)
  {
  }

  lemma SameSources(before: Db, after: Db, id: TaskId)
    requires SourcesKnown(before) && TasksProgress(before, after) && after.sources == before.sources
    ensures SourcesKnown(after) && (HasSelfRow(after, id) <==> HasSelfRow(before, id))
  {
  }

  /** A change gives a task a row for its own target if and only if it is an AddSource naming it. */
  lemma EffectSources(before: Db, ch: Change, after: Db, id: TaskId)
    requires SourcesKnown(before) && Effect(before, ch, after)
    ensures SourcesKnown(after)
    ensures HasSelfRow(after, id) <==> HasSelfRow(before, id) || NamesTarget(before, ch, id)
  {
    EffectKeeps(before, ch, after);
    if ch.Granted? {
      ClaimSources(before, ch, after, id);
    } else if ch.Created? {
      CreateSources(before, ch, after, id);
    } else if ch.SourceAdded? {
      AddedSource(before, ch, after, id);
    } else {
      SameSources(before, after, id);
    }
  }

  /** Refreshing ranks adds rows for devices that are not the target. */
  lemma RefreshSources(before: Db, after: Db, refreshed: TaskId, ranks: map<DeviceId, int>, id: TaskId)
    requires SourcesKnown(before) && TasksProgress(before, after) && refreshed in after.tasks
    requires after.tasks.Keys == before.tasks.Keys + {refreshed}
    requires after.sources == Refreshed(before.sources, refreshed, ranks) && after.tasks[refreshed].target !in ranks
    ensures SourcesKnown(after) && (HasSelfRow(after, id) <==> HasSelfRow(before, id))
  {
  }

  /** In every run a task lists its own target exactly when some AddSource named it. */
  lemma {:induction false} SelfRowExactly(run: seq<Db>, changes: seq<Change>, i: nat, id: TaskId)
    requires IsRun(run, changes) && i < |run|
    ensures SourcesKnown(run[i])
    ensures HasSelfRow(run[i], id) <==> exists k :: 0 <= k < i && NamesTarget(run[k], changes[k], id)
  {
    if i > 0 {
      SelfRowExactly(run, changes, i - 1, id);
      assert StepAt(run, changes, i - 1);
      EffectSources(run[i - 1], changes[i - 1], run[i], id);
    }
  }

  /**
   The scheduling theorem, which task.  In every run a claim takes a task that is due to the
   device and that some other device can serve ...
   */
  lemma ClaimsTakeDueTasks(run: seq<Db>, changes: seq<Change>, i: nat) returns (e: DeviceId)
    requires IsRun(run, changes) && i < |changes| && changes[i].Granted?
    ensures changes[i].a.task in run[i].tasks && e in run[i].world.devices && e != changes[i].device
    ensures var t, w := run[i].tasks[changes[i].a.task], run[i].world;
      && t.target == changes[i].device && t.state !in {Completed, Canceled, FailedPermanent, Paused}
      && (t.until == None || t.until.value <= changes[i].now)
      && w.devices[e].active && ReplicaKey(t.obj, e) in w.replicas
      && var copy := w.replicas[ReplicaKey(t.obj, e)];
      copy.state == Rows.ReplicaReady && copy.endpoint.Some? && copy.clientFile.Some?
    ensures exists f <- run[i].world.entries ::
      run[i].world.entries[f].active && run[i].world.entries[f].obj == run[i].tasks[changes[i].a.task].obj
  {
    assert StepAt(run, changes, i);
    e := EligibleNeeds(run[i], changes[i].device, changes[i].now, changes[i].a.task);
  }

  /**
   ... and no other such task precedes it: any other has a lower priority, or the same and was
   created later, or at the same time and has a greater id.
   */
  lemma ClaimsTakeTheFirst(run: seq<Db>, changes: seq<Change>, i: nat, other: TaskId, e: DeviceId)
    requires IsRun(run, changes) && i < |changes| && changes[i].Granted?
    requires other in run[i].tasks && other != changes[i].a.task && e in run[i].world.devices && e != changes[i].device
    requires var t, w := run[i].tasks[other], run[i].world;
      && t.target == changes[i].device && t.state !in {Completed, Canceled, FailedPermanent, Paused}
      && (t.until == None || t.until.value <= changes[i].now)
      && w.devices[e].active && ReplicaKey(t.obj, e) in w.replicas
      && var copy := w.replicas[ReplicaKey(t.obj, e)];
      copy.state == Rows.ReplicaReady && copy.endpoint.Some? && copy.clientFile.Some?
    ensures changes[i].a.task in run[i].tasks
    ensures var t, o := run[i].tasks[changes[i].a.task], run[i].tasks[other];
      || t.priority > o.priority
      || (t.priority == o.priority && t.createdAt < o.createdAt)
      || (t.priority == o.priority && t.createdAt == o.createdAt && changes[i].a.task < other)
  {
    assert StepAt(run, changes, i);
    EligibleFor(run[i], changes[i].device, changes[i].now, other, e);
  }

  /** What a claim writes and what the Agent is told: one more attempt and version, and a lease of the length asked for. */
  lemma ClaimTerms(db: Db, device: DeviceId, lease: int, now: Time, ranks: map<DeviceId, int>, a: Assignment, after: Db)
    requires ClaimEffect(db, device, lease, now, ranks, a, after)
    ensures a.task in db.tasks && after.world == db.world && SECOND <= lease <= 24 * 3600 * SECOND
    ensures var t := db.tasks[a.task];
      && after.tasks == db.tasks[a.task := t.(
           state := Assigned, owner := Some(device), until := Some(now + lease), attempt := t.attempt + 1, version := t.version + 1)]
      && t.obj in db.world.objects
      && a == Assignment(a.task, t.obj, a.source, db.world.objects[t.obj], t.attempt + 1, t.version + 1, now + lease)
  {
  }

  /**
   The scheduling theorem, which source.  However stale the source rows had become, a claim
   pairs the task with another active device that holds a servable copy, such that no such
   device was seen more recently; unless the target's own source row wins, when the target is
   its own source, or ties, when it may be.
   */
  lemma ClaimsAreServed(run: seq<Db>, changes: seq<Change>, i: nat)
    requires IsRun(run, changes) && i < |changes| && changes[i].Granted?
    ensures changes[i].a.task in run[i].tasks
    ensures TargetWins(run[i], changes[i].a.task) ==> changes[i].a.source == changes[i].device
    ensures changes[i].a.source == changes[i].device ==>
      TargetWins(run[i], changes[i].a.task) || TargetTies(run[i], changes[i].a.task)
    ensures changes[i].a.source != changes[i].device ==>
      var w, obj, source := run[i].world, run[i].tasks[changes[i].a.task].obj, changes[i].a.source;
      && source in w.devices && w.devices[source].active && ReplicaKey(obj, source) in w.replicas
      && var copy := w.replicas[ReplicaKey(obj, source)];
      && copy.state == Rows.ReplicaReady && copy.endpoint.Some? && copy.clientFile.Some?
      && forall e <- w.devices ::
        (e != changes[i].device && w.devices[e].active && ReplicaKey(obj, e) in w.replicas
          && w.replicas[ReplicaKey(obj, e)].state == Rows.ReplicaReady
          && w.replicas[ReplicaKey(obj, e)].endpoint.Some? && w.replicas[ReplicaKey(obj, e)].clientFile.Some?
          && w.devices[e].lastSeen.Some?)
        ==> w.devices[source].lastSeen.Some? && w.devices[source].lastSeen.value >= w.devices[e].lastSeen.value
  {
    assert StepAt(run, changes, i);
    var db, ch := run[i], changes[i];
    assert ch.a.task in EligibleTasks(db, ch.device, ch.now);
    ClaimSource(db, run[i + 1], ch.device, ch.lease, ch.now, ch.ranks, ch.a);
    if ch.a.source != ch.device {
      ServedMeans(db.world, db.tasks[ch.a.task].obj, ch.device, ch.a.source);
    }
  }

  /**
   When a claim makes the target its own source: only if the target stands as an enabled
   source of rank one or less with a servable copy, at rank one with no servable device seen
   later; and certainly if the rank is less than one, or is one and the target was seen later
   than every servable device.
   */
  lemma SelfSourcedClaims(run: seq<Db>, changes: seq<Change>, i: nat)
    requires IsRun(run, changes) && i < |changes| && changes[i].Granted?
    ensures changes[i].a.task in run[i].tasks
    ensures var db, w, target := run[i], run[i].world, changes[i].device;
      var key, obj := SourceKey(changes[i].a.task, target), db.tasks[changes[i].a.task].obj;
      var listed := key in db.sources && !db.sources[key].disabled && target in w.devices && w.devices[target].active
        && ReplicaKey(obj, target) in w.replicas
        && w.replicas[ReplicaKey(obj, target)].state == Rows.ReplicaReady
        && w.replicas[ReplicaKey(obj, target)].endpoint.Some? && w.replicas[ReplicaKey(obj, target)].clientFile.Some?;
      && (changes[i].a.source == target ==>
            && listed && db.sources[key].rank <= 1
            && (db.sources[key].rank == 1 ==> forall e <- Usable(w, obj, target) ::
                  w.devices[e].lastSeen.Some? ==>
                  w.devices[target].lastSeen.Some? && w.devices[target].lastSeen.value >= w.devices[e].lastSeen.value))
      && (listed && db.sources[key].rank <= 1
          && (db.sources[key].rank == 1 ==>
                w.devices[target].lastSeen.Some? && forall e <- Usable(w, obj, target) ::
                  w.devices[e].lastSeen.Some? ==> w.devices[target].lastSeen.value > w.devices[e].lastSeen.value)
          ==> changes[i].a.source == target)
  {
    ClaimsAreServed(run, changes, i);
    ClaimsTarget(run, changes, i);
    SelfSourceMeans(run[i], changes[i].a.task);
  }

  lemma ClaimsTarget(run: seq<Db>, changes: seq<Change>, i: nat)
    requires IsRun(run, changes) && i < |changes| && changes[i].Granted?
    ensures changes[i].a.task in run[i].tasks && run[i].tasks[changes[i].a.task].target == changes[i].device
  {
    var _ := ClaimsTakeDueTasks(run, changes, i);
  }

  lemma SelfSourceMeans(db: Db, id: TaskId)
    requires id in db.tasks
    ensures var w, target, obj := db.world, db.tasks[id].target, db.tasks[id].obj;
      var key := SourceKey(id, target);
      var listed := key in db.sources && !db.sources[key].disabled && target in w.devices && w.devices[target].active
        && ReplicaKey(obj, target) in w.replicas
        && w.replicas[ReplicaKey(obj, target)].state == Rows.ReplicaReady
        && w.replicas[ReplicaKey(obj, target)].endpoint.Some? && w.replicas[ReplicaKey(obj, target)].clientFile.Some?;
      && (TargetWins(db, id) || TargetTies(db, id) ==>
            && listed && db.sources[key].rank <= 1
            && (db.sources[key].rank == 1 ==> forall e <- Usable(w, obj, target) ::
                  w.devices[e].lastSeen.Some? ==>
                  w.devices[target].lastSeen.Some? && w.devices[target].lastSeen.value >= w.devices[e].lastSeen.value))
      && (listed && db.sources[key].rank <= 1
          && (db.sources[key].rank == 1 ==>
                w.devices[target].lastSeen.Some? && forall e <- Usable(w, obj, target) ::
                  w.devices[e].lastSeen.Some? ==> w.devices[target].lastSeen.value > w.devices[e].lastSeen.value)
          ==> TargetWins(db, id))
  {
    forall e | e in Usable(db.world, db.tasks[id].obj, db.tasks[id].target) ensures e in db.world.devices {
    }
  }

  /** A target row can only win or tie for a task whose own target some AddSource named before. */
  lemma OnlyIfAdded(run: seq<Db>, changes: seq<Change>, i: nat, id: TaskId)
    requires IsRun(run, changes) && i < |run| && id in run[i].tasks && (TargetWins(run[i], id) || TargetTies(run[i], id))
    ensures exists k :: 0 <= k < i && NamesTarget(run[k], changes[k], id)
  {
    SelfRowExactly(run, changes, i, id);
  }
}
