/** The life of one transfer task: leases, versions as fencing tokens, attempts and backoff. */
module TransferTask {
  import opened Base

  type ObjectId(==, 0, !new)

  const MIN_LEASE := SECOND
  const MAX_LEASE := 24 * 3600 * SECOND
  const MAX_ATTEMPTS := 10
  const MAX_BACKOFF := 300

  datatype TaskState =
    | Queued | Assigned | Discovering | Connecting | Transferring | Verifying | Completed
    | WaitingSource | RetryWait | Paused | Canceled | FailedPermanent

  datatype Task = Task(
    obj: ObjectId, target: DeviceId, priority: int, createdAt: Time,
    state: TaskState, owner: Option<DeviceId>, until: Option<Time>, attempt: nat, version: nat)

  datatype TransferError =
    | NotFound | NotClaimable | InvalidTransition | VersionConflict | ContentMismatch
    | BadLease | Malformed | NoSource | AlreadyReplica | Duplicate | Internal

  function NewTask(obj: ObjectId, target: DeviceId, priority: int, now: Time): Task {
    Task(obj, target, priority, now, Queued, None, None, 0, 1)
  }

  predicate Terminal(s: TaskState) {
    s == Completed || s == Canceled || s == FailedPermanent
  }

  predicate Working(s: TaskState) {
    s == Assigned || s == Discovering || s == Connecting || s == Transferring || s == Verifying
  }

  /** The adjacency list of the state machine. */
  predicate ValidTransition(from: TaskState, to: TaskState) {
    match from
    case Queued => to == Assigned || to == Canceled
    case Assigned => to == Discovering || to == Canceled
    case Discovering => to == Connecting || to == RetryWait || to == FailedPermanent || to == Canceled
    case Connecting => to == Transferring || to == RetryWait || to == FailedPermanent || to == Canceled
    case Transferring => to == Verifying || to == WaitingSource || to == Paused || to == FailedPermanent || to == Canceled
    case Verifying => to == Completed || to == RetryWait || to == FailedPermanent || to == Canceled
    case WaitingSource => to == Queued || to == Canceled
    case RetryWait => to == Queued || to == Canceled
    case Paused => to == Transferring || to == Canceled
    case _ => false
  }

  predicate ValidLease(lease: int) {
    MIN_LEASE <= lease <= MAX_LEASE
  }

  predicate LiveLease(t: Task, device: DeviceId, now: Time) {
    t.owner == Some(device) && t.until.Some? && t.until.value > now
  }

  /** The state and lease part of the query ClaimNext runs. */
  predicate Claimable(t: Task, device: DeviceId, now: Time) {
    && t.target == device
    && !Terminal(t.state) && t.state != Paused
    && (t.until == None || t.until.value <= now)
  }

  function Claimed(t: Task, device: DeviceId, until: Time): Task {
    t.(state := Assigned, owner := Some(device), until := Some(until), attempt := t.attempt + 1, version := t.version + 1)
  }

  /** AcquireLease. */
  function Acquire(t: Task, device: DeviceId, lease: int, now: Time): Result<Task, TransferError> {
    if !ValidLease(lease) then Err(BadLease)
    else if t.target != device || Terminal(t.state) then Err(NotClaimable)
    else if t.owner.Some? && t.until.Some? && t.until.value > now then Err(NotClaimable)
    else Ok(t.(state := if t.state == Queued then Assigned else t.state, owner := Some(device),
               until := Some(now + lease), attempt := t.attempt + 1, version := t.version + 1))
  }

  /** UpdateState. */
  function Update(t: Task, device: DeviceId, expected: nat, state: TaskState, now: Time): Result<Task, TransferError> {
    if t.target != device then Err(NotClaimable)
    else if !ValidTransition(t.state, state) then Err(InvalidTransition)
    else if !LiveLease(t, device, now) then Err(NotClaimable)
    else if t.version != expected then Err(VersionConflict)
    else Ok(t.(state := state, version := t.version + 1))
  }

  function Backoff(attempt: nat): nat {
    (if Power2(attempt) < MAX_BACKOFF then Power2(attempt) else MAX_BACKOFF) * SECOND
  }

  /** FailAttempt. */
  function Fail(t: Task, device: DeviceId, expected: nat, now: Time): Result<Task, TransferError> {
    if t.target != device || !LiveLease(t, device, now) || t.version != expected then Err(NotClaimable)
    else if t.attempt >= MAX_ATTEMPTS then
      Ok(t.(state := FailedPermanent, owner := None, until := None, version := t.version + 1))
    else Ok(t.(state := RetryWait, owner := None, until := Some(now + Backoff(t.attempt)), version := t.version + 1))
  }

  /** The task side of CompleteReplica; a row without a lease cannot even be read. */
  function Complete(t: Task, device: DeviceId, expected: nat, contentMatches: bool, now: Time): Result<Task, TransferError> {
    if t.target != device then Err(NotFound)
    else if t.owner == None || t.until == None then Err(Internal)
    else if t.state != Verifying || !LiveLease(t, device, now) then Err(NotClaimable)
    else if t.version != expected then Err(VersionConflict)
    else if !contentMatches then Err(ContentMismatch)
    else Ok(t.(state := Completed, owner := None, until := None, version := t.version + 1))
  }

  /** CancelTask; cancelling a finished task changes nothing and is no error. */
  function Cancel(t: Task): Task {
    if Terminal(t.state) then t else t.(state := Canceled, owner := None, until := None, version := t.version + 1)
  }

  /** The table read the other way: from which states each state can be reported. */
  lemma Predecessors(from: TaskState, to: TaskState)
    ensures ValidTransition(from, to) <==>
      match to
      case Canceled => from !in {Completed, Canceled, FailedPermanent}
      case FailedPermanent => from in {Discovering, Connecting, Transferring, Verifying}
      case RetryWait => from in {Discovering, Connecting, Verifying}
      case Queued => from in {WaitingSource, RetryWait}
      case Assigned => from == Queued
      case Discovering => from == Assigned
      case Connecting => from == Discovering
      case Transferring => from in {Connecting, Paused}
      case Verifying => from == Transferring
      case Completed => from == Verifying
      case WaitingSource => from == Transferring
      case Paused => from == Transferring
  {
  }

  /** The delay doubles with each attempt, up to five minutes from the ninth on. */
  lemma BackoffDoubles(attempt: nat)
    ensures Backoff(0) == SECOND
    ensures Backoff(attempt + 1) == if attempt < 8 then 2 * Backoff(attempt) else 300 * SECOND
  {
    assert Power2(8) == 256 && Power2(9) == 512;
    if attempt < 8 {
      PowersGrow(attempt + 1, 8);
    } else {
      PowersGrow(9, attempt + 1);
    }
  }

  lemma {:induction false} PowersGrow(n: nat, m: nat)
    requires n <= m
    ensures Power2(n) <= Power2(m)
    decreases m
  {
    if n < m {
      PowersGrow(n, m - 1);
    }
  }

  // ---- Runs of one task ----

  /**
   A task together with its claimants: `beliefs[i]` is the version the i-th claimant would
   send next, and `released` says whether the last claim was ended by a failure, a
   completion or a cancellation.  `fails` counts accepted failures.
   */
  datatype TaskRun = TaskRun(task: Task, beliefs: seq<nat>, released: bool, fails: nat)

  datatype TaskEvent =
    | ClaimEvent(now: Time, lease: int)
    | AcquireEvent(now: Time, lease: int)
    | ReportEvent(claimant: nat, state: TaskState, now: Time, heard: bool)
    | FailEvent(claimant: nat, now: Time)
    | CompleteEvent(claimant: nat, contentMatches: bool, now: Time)
    | CancelEvent

  /** The run after an accepted call, or nothing when the repository refuses it. */
  function Step(r: TaskRun, ev: TaskEvent): Option<TaskRun> {
    var t, d := r.task, r.task.target;
    match ev
    case ClaimEvent(now, lease) =>
      if !ValidLease(lease) || !Claimable(t, d, now) then None
      else var t' := Claimed(t, d, now + lease); Some(TaskRun(t', r.beliefs + [t'.version], false, r.fails))
    case AcquireEvent(now, lease) =>
      var a := Acquire(t, d, lease, now);
      if a.Err? then None else Some(TaskRun(a.value, r.beliefs + [a.value.version], false, r.fails))
    case ReportEvent(i, state, now, heard) =>
      if i >= |r.beliefs| then None
      else
        var u := Update(t, d, r.beliefs[i], state, now);
        if u.Err? then None
        else Some(r.(task := u.value, beliefs := if heard then r.beliefs[i := r.beliefs[i] + 1] else r.beliefs))
    case FailEvent(i, now) =>
      if i >= |r.beliefs| then None
      else
        var f := Fail(t, d, r.beliefs[i], now);
        if f.Err? then None else Some(r.(task := f.value, released := true, fails := r.fails + 1))
    case CompleteEvent(i, contentMatches, now) =>
      if i >= |r.beliefs| then None
      else
        var c := Complete(t, d, r.beliefs[i], contentMatches, now);
        if c.Err? then None else Some(r.(task := c.value, released := true))
    case CancelEvent =>
      if Terminal(t.state) then None else Some(r.(task := Cancel(t), released := true))
  }

  ghost predicate StepAt(run: seq<TaskRun>, events: seq<TaskEvent>, i: int) {
    0 <= i < |events| < |run| && Step(run[i], events[i]) == Some(run[i + 1])
  }

  /** A run of accepted calls on a new task. */
  ghost predicate IsTaskRun(run: seq<TaskRun>, events: seq<TaskEvent>) {
    && |run| == |events| + 1
    && (exists obj, target, priority, now :: run[0] == TaskRun(NewTask(obj, target, priority, now), [], false, 0))
    && forall i :: 0 <= i < |events| ==> StepAt(run, events, i)
  }

  /** No claimant but the latest, unreleased one can know the current version. */
  ghost predicate Fenced(r: TaskRun) {
    forall i :: 0 <= i < |r.beliefs| ==>
      && r.beliefs[i] <= r.task.version
      && (i + 1 < |r.beliefs| || r.released ==> r.beliefs[i] < r.task.version)
  }

  lemma StepFenced(r: TaskRun, ev: TaskEvent)
    requires Fenced(r) && Step(r, ev).Some?
    ensures Fenced(Step(r, ev).value) && Step(r, ev).value.task.version == r.task.version + 1
  {
  }

  lemma {:induction false} RunFenced(run: seq<TaskRun>, events: seq<TaskEvent>, i: nat)
    requires IsTaskRun(run, events) && i < |run|
    ensures Fenced(run[i]) && run[i].task.version == i + 1
  {
    if i > 0 {
      RunFenced(run, events, i - 1);
      assert StepAt(run, events, i - 1);
      StepFenced(run[i - 1], events[i - 1]);
    }
  }

  function ClaimantOf(ev: TaskEvent): Option<nat> {
    match ev
    case ReportEvent(i, _, _, _) => Some(i)
    case FailEvent(i, _) => Some(i)
    case CompleteEvent(i, _, _) => Some(i)
    case _ => None
  }

  /**
   Fencing.  Over every run, whatever replies were lost and whatever leases expired: each
   accepted call raises the version by exactly one, and a report that takes effect comes
   from the latest claim, with no failure, completion or cancellation since.
   */
  lemma Fencing(run: seq<TaskRun>, events: seq<TaskEvent>, i: nat)
    requires IsTaskRun(run, events) && i < |events|
    ensures run[i + 1].task.version == run[i].task.version + 1
    ensures ClaimantOf(events[i]).Some? ==>
      ClaimantOf(events[i]).value == |run[i].beliefs| - 1 && !run[i].released
  {
    RunFenced(run, events, i);
    RunFenced(run, events, i + 1);
    assert StepAt(run, events, i);
  }

  // ---- Leases over runs ----

  predicate IsClaim(ev: TaskEvent) {
    ev.ClaimEvent? || ev.AcquireEvent?
  }

  /** Nothing but state reports between two events. */
  predicate OnlyReports(events: seq<TaskEvent>, i: int, j: int)
    requires 0 <= i <= j <= |events|
  {
    forall k :: i <= k < j ==> events[k].ReportEvent?
  }

  lemma {:induction false} LeaseStands(run: seq<TaskRun>, events: seq<TaskEvent>, i: nat, j: nat)
    requires IsTaskRun(run, events) && i < j <= |events| && IsClaim(events[i]) && OnlyReports(events, i + 1, j)
    ensures run[j].task.owner == Some(run[j].task.target) && run[j].task.until == Some(events[i].now + events[i].lease)
    decreases j
  {
    assert StepAt(run, events, j - 1);
    if j > i + 1 {
      LeaseStands(run, events, i, j - 1);
    }
  }

  /**
   Leases exclude each other.  Between a claim and the next one, of either kind, lies a
   failure, a completion, a cancellation, or the end of the lease.
   */
  lemma LeasesExclude(run: seq<TaskRun>, events: seq<TaskEvent>, i: nat, j: nat)
    requires IsTaskRun(run, events) && i < j < |events| && IsClaim(events[i]) && IsClaim(events[j])
    requires OnlyReports(events, i + 1, j)
    ensures events[j].now >= events[i].now + events[i].lease
  {
    LeaseStands(run, events, i, j);
    assert StepAt(run, events, j);
  }

  /** When ClaimNext may take a task that has just failed. */
  lemma BackoffHolds(t: Task, device: DeviceId, expected: nat, now: Time, later: Time)
    requires Fail(t, device, expected, now).Ok? && t.attempt < MAX_ATTEMPTS
    ensures Claimable(Fail(t, device, expected, now).value, device, later) <==>
      later >= now + (if Power2(t.attempt) < MAX_BACKOFF then Power2(t.attempt) else MAX_BACKOFF) * SECOND
  {
  }

  /**
   Backoff.  What follows a failure that was not the last is a cancellation, an AcquireLease,
   or a ClaimNext at least min(2^attempt, 300) seconds later.
   */
  lemma RetriesWait(run: seq<TaskRun>, events: seq<TaskEvent>, i: nat)
    requires IsTaskRun(run, events) && i + 1 < |events| && events[i].FailEvent? && run[i].task.attempt < MAX_ATTEMPTS
    ensures match events[i + 1]
      case CancelEvent => true
      case AcquireEvent(_, _) => true
      case ClaimEvent(now, _) => now >= events[i].now + Backoff(run[i].task.attempt)
      case _ => false
  {
    assert StepAt(run, events, i) && StepAt(run, events, i + 1);
    var t, ev := run[i].task, events[i];
    if events[i + 1].ClaimEvent? {
      BackoffHolds(t, t.target, run[i].beliefs[ev.claimant], ev.now, events[i + 1].now);
    }
  }

  /** AcquireLease does not wait: a failure clears the owner, so the backoff never stops it. */
  lemma AcquireSkipsBackoff(t: Task, device: DeviceId, expected: nat, now: Time, lease: int)
    requires Fail(t, device, expected, now).Ok? && ValidLease(lease)
    ensures Acquire(Fail(t, device, expected, now).value, device, lease, now).Ok? <==> t.attempt < MAX_ATTEMPTS
  {
  }

  // ---- What every run keeps, whatever states are reported ----

  /** A working task is its target's, and each accepted failure used up a claim of its own. */
  ghost predicate Tracked(r: TaskRun) {
    && (r.task.owner.Some? ==> r.task.owner.value == r.task.target)
    && (Working(r.task.state) ==> r.task.owner.Some?)
    && r.fails <= r.task.attempt && r.fails <= MAX_ATTEMPTS
    && (r.task.owner.Some? ==> r.fails < r.task.attempt)
    && (!Terminal(r.task.state) || r.task.owner.Some? ==> r.fails < MAX_ATTEMPTS)
  }

  lemma {:induction false} RunTracked(run: seq<TaskRun>, events: seq<TaskEvent>, i: nat)
    requires IsTaskRun(run, events) && i < |run|
    ensures Tracked(run[i])
  {
    if i > 0 {
      RunTracked(run, events, i - 1);
      assert StepAt(run, events, i - 1);
    }
  }

  // ---- Lifecycle ----

  /** The state report that spoils the lifecycle: it ends the task and leaves its lease set. */
  predicate EndsByReport(ev: TaskEvent) {
    ev.ReportEvent? && Terminal(ev.state)
  }

  /** An ended task carries no lease. */
  predicate Clean(t: Task) {
    Terminal(t.state) ==> t.owner == None
  }

  /** One accepted call: when a clean task stays clean, and what completes a task. */
  lemma StepClean(r: TaskRun, ev: TaskEvent)
    requires Step(r, ev).Some?
    ensures Clean(r.task) ==> !Terminal(r.task.state)
    ensures Clean(r.task) ==> (Clean(Step(r, ev).value.task) <==> !EndsByReport(ev))
    ensures Step(r, ev).value.task.state == Completed <==> ev.CompleteEvent? || (ev.ReportEvent? && ev.state == Completed)
  {
  }

  lemma {:induction false} CleanUntil(run: seq<TaskRun>, events: seq<TaskEvent>, i: nat)
    requires IsTaskRun(run, events) && i < |run|
    requires forall k :: 0 <= k < i ==> !EndsByReport(events[k])
    ensures Clean(run[i].task)
  {
    if i > 0 {
      CleanUntil(run, events, i - 1);
      assert StepAt(run, events, i - 1);
      StepClean(run[i - 1], events[i - 1]);
    }
  }

  ghost predicate AllClean(run: seq<TaskRun>) {
    forall i :: 0 <= i < |run| ==> Clean(run[i].task)
  }

  predicate NoneEndsByReport(events: seq<TaskEvent>) {
    forall i :: 0 <= i < |events| ==> !EndsByReport(events[i])
  }

  /** Exactly the runs without an accepted report of a terminal state keep ended tasks free of leases. */
  lemma CleanExactly(run: seq<TaskRun>, events: seq<TaskEvent>)
    requires IsTaskRun(run, events)
    ensures AllClean(run) <==> NoneEndsByReport(events)
  {
    if NoneEndsByReport(events) {
      forall i | 0 <= i < |run| ensures Clean(run[i].task) {
        CleanUntil(run, events, i);
      }
    }
    if AllClean(run) {
      forall i | 0 <= i < |events| ensures !EndsByReport(events[i]) {
        assert StepAt(run, events, i) && Clean(run[i].task) && Clean(run[i + 1].task);
        StepClean(run[i], events[i]);
      }
    }
  }

  /** In a run, whatever completes the task is a completion report, from verifying, under a live lease. */
  ghost predicate CompletedByCompletion(run: seq<TaskRun>, events: seq<TaskEvent>, i: int)
    requires 0 <= i < |events| < |run|
  {
    run[i + 1].task.state == Completed ==>
      && events[i].CompleteEvent? && events[i].contentMatches
      && run[i].task.state == Verifying && LiveLease(run[i].task, run[i].task.target, events[i].now)
  }

  /** Exactly the runs without an accepted report of completed leave completing to CompleteReplica. */
  lemma CompletionExactly(run: seq<TaskRun>, events: seq<TaskEvent>)
    requires IsTaskRun(run, events)
    ensures (forall i :: 0 <= i < |events| ==> CompletedByCompletion(run, events, i))
      <==> (forall i :: 0 <= i < |events| ==> !(events[i].ReportEvent? && events[i].state == Completed))
  {
    forall i | 0 <= i < |events|
      ensures CompletedByCompletion(run, events, i) <==> !(events[i].ReportEvent? && events[i].state == Completed)
    {
      assert StepAt(run, events, i);
      StepClean(run[i], events[i]);
    }
  }

  /**
   The lifecycle.  In every run a working task is owned by its target.  As long as no
   terminal state was reported, nothing happens to a task after it ended, and only a
   completion report completes it, from verifying, under an unexpired lease and with
   matching content.
   */
  lemma Lifecycle(run: seq<TaskRun>, events: seq<TaskEvent>, i: nat)
    requires IsTaskRun(run, events) && i < |run|
    ensures run[i].task.state in {Assigned, Discovering, Connecting, Transferring, Verifying} ==>
      run[i].task.owner == Some(run[i].task.target)
    ensures NoneEndsByReport(events) && Terminal(run[i].task.state) ==> i == |events|
    ensures NoneEndsByReport(events) && i < |events| ==> CompletedByCompletion(run, events, i)
  {
    RunTracked(run, events, i);
    if NoneEndsByReport(events) && i < |events| {
      CleanUntil(run, events, i);
      assert StepAt(run, events, i);
      StepClean(run[i], events[i]);
    }
  }

  /**
   What a spoiled lifecycle looks like: a reported end is accepted for any valid transition,
   and FailAttempt can still touch the ended task, which revives it while attempts are left.
   */
  lemma ReportedEndRevives(t: Task, state: TaskState, now: Time)
    requires Terminal(state) && ValidTransition(t.state, state) && LiveLease(t, t.target, now)
    ensures var done := Update(t, t.target, t.version, state, now);
      && done.Ok? && done.value.state == state && !Clean(done.value)
      && var failed := Fail(done.value, t.target, done.value.version, now);
      && failed.Ok? && (failed.value.state == RetryWait <==> t.attempt < MAX_ATTEMPTS)
  {
  }

  function AcceptedFailures(events: seq<TaskEvent>): nat {
    if events == [] then 0
    else AcceptedFailures(events[..|events| - 1]) + (if events[|events| - 1].FailEvent? then 1 else 0)
  }

  lemma {:induction false} FailsCounted(run: seq<TaskRun>, events: seq<TaskEvent>, n: nat)
    requires IsTaskRun(run, events) && n <= |events|
    ensures run[n].fails == AcceptedFailures(events[..n])
  {
    if n > 0 {
      FailsCounted(run, events, n - 1);
      assert StepAt(run, events, n - 1);
      assert events[..n][..n - 1] == events[..n - 1];
    }
  }

  /** The retry bound: in every run at most ten failures are ever accepted, whatever expires in between. */
  lemma RetryBound(run: seq<TaskRun>, events: seq<TaskEvent>)
    requires IsTaskRun(run, events)
    ensures AcceptedFailures(events) <= MAX_ATTEMPTS
  {
    FailsCounted(run, events, |events|);
    assert events[..|events|] == events;
    RunTracked(run, events, |events|);
  }
}
