/** What holds in every run of one Agent and the control plane. */
module SystemTheorems {
  import opened Base
  import opened Wire
  import opened LocalStore
  import opened StoreSafety
  import opened Outbox
  import S = ServerCatalog
  import opened Delivery
  import opened AgentSystem
  import opened CatalogView
  import opened SystemInvariant

  lemma LocalStepInv(s: Sys, ev: Event)
    requires ev.Import? || ev.CreateFile? || ev.RenameFile? || ev.TrashFile? || ev.RestoreFile? || ev.BeginPurge?
    requires Inv(s) && Next(s, ev).Some?
    ensures Inv(Next(s, ev).value)
  {
    match ev
    case Import(bytes) => ImportInv(s, bytes);
    case CreateFile(id, obj, name, mime) => CreateInv(s, id, obj, name, mime);
    case RenameFile(id, name, opId) => RenameInv(s, id, name, opId);
    case TrashFile(id, purgeAfter, opId) => TrashInv(s, id, purgeAfter, opId);
    case RestoreFile(id, opId) => RestoreInv(s, id, opId);
    case BeginPurge(id, opId) => BeginPurgeInv(s, id, opId);
  }

  lemma ProcessStepInv(s: Sys, ev: Event)
    requires ev.Advance? || ev.Activate? || ev.Abandon? || ev.Crash? || ev.FinishBoot?
    requires Inv(s) && Next(s, ev).Some?
    ensures Inv(Next(s, ev).value)
  {
    match ev
    case Advance => AdvanceInv(s);
    case Activate => ActivateInv(s);
    case Abandon => AbandonInv(s);
    case Crash(walk, listed, stale) => CrashInv(s, walk, listed, stale);
    case FinishBoot => FinishBootInv(s);
  }

  lemma NetworkStepInv(s: Sys, ev: Event)
    requires ev.Hear? || ev.GiveUp?
    requires Inv(s) && Next(s, ev).Some?
    ensures Inv(Next(s, ev).value)
  {
    match ev
    case Hear(delay, now) => HearInv(s, delay, now);
    case GiveUp(delay, now) => GiveUpInv(s, delay, now);
  }

  /** Every event keeps the invariant. */
  lemma StepInv(s: Sys, ev: Event, t: Sys)
    requires Inv(s) && Follows(s, ev, t)
    ensures Inv(t)
  {
    if ev.Import? || ev.CreateFile? || ev.RenameFile? || ev.TrashFile? || ev.RestoreFile? || ev.BeginPurge? {
      LocalStepInv(s, ev);
    } else if ev.Arrive? {
      ArriveInv(s, ev.row, ev.uuid, ev.now, ev.heard);
    } else if ev.Send? {
      SendInv(s);
    } else if ev.Hear? || ev.GiveUp? {
      NetworkStepInv(s, ev);
    } else {
      ProcessStepInv(s, ev);
    }
  }

  lemma {:induction false} RunInv(run: seq<Sys>, events: seq<Event>, i: nat)
    requires IsRun(run, events) && i < |run|
    ensures Inv(run[i])
  {
    InitialInv();
    if i > 0 {
      RunInv(run, events, i - 1);
      RunStepInv(run, events, i - 1);
    }
  }

  lemma RunStepInv(run: seq<Sys>, events: seq<Event>, i: nat)
    requires IsRun(run, events) && i < |events| && Inv(run[i])
    ensures Inv(run[i + 1])
  {
    assert StepAt(run, events, i);
    StepInv(run[i], events[i], run[i + 1]);
  }

  /**
   Crash safety.  In every state of every run, crashes and half-done recoveries included,
   the bytes of each active or trashed file are stored and hash to the file's object id;
   whenever no operation or recovery is under way that object is READY; and an operation or
   recovery under way never meets an error.
   */
  lemma CrashSafety(run: seq<Sys>, events: seq<Event>, i: nat)
    requires IsRun(run, events) && i < |run|
    ensures var s := run[i].store;
      forall id <- s.lan :: s.lan[id].status != Purging ==>
        && s.lan[id].obj in s.files && Sha(s.files[s.lan[id].obj]) == s.lan[id].obj
        && s.lan[id].obj in s.objects
        && (run[i].todo == [] ==> s.objects[s.lan[id].obj].status == Ready)
    ensures run[i].todo != [] ==> Next(run[i], Advance).Some?
  {
    RunInv(run, events, i);
    StoreSound(run[i]);
  }

  lemma StoreSound(t: Sys)
    requires StoreOk(t)
    ensures var s := t.store;
      forall id <- s.lan :: s.lan[id].status != Purging ==>
        && s.lan[id].obj in s.files && Sha(s.files[s.lan[id].obj]) == s.lan[id].obj
        && s.lan[id].obj in s.objects
        && (t.todo == [] ==> s.objects[s.lan[id].obj].status == Ready)
    ensures t.todo != [] ==> Next(t, Advance).Some?
  {
  }

  /** Reports already queued are never altered or dropped. */
  lemma StepKeepsReports(s: Sys, ev: Event)
    requires Next(s, ev).Some?
    ensures var t := Next(s, ev).value;
      |s.ops| <= |t.ops| && forall i :: 0 <= i < |s.ops| ==> t.ops[i].report == s.ops[i].report
  {
  }

  lemma {:induction false} RunKeepsReports(run: seq<Sys>, events: seq<Event>, i: nat, j: nat)
    requires IsRun(run, events) && i <= j < |run|
    ensures |run[i].ops| <= |run[j].ops|
    ensures forall r :: 0 <= r < |run[i].ops| ==> run[j].ops[r].report == run[i].ops[r].report
  {
    if i < j {
      RunKeepsReports(run, events, i, j - 1);
      assert StepAt(run, events, j - 1);
      StepKeepsReports(run[j - 1], events[j - 1]);
    }
  }

  /**
   The purge barrier.  When the purge report of a file is sent, the file's row is gone if
   the report was queued since the process started, and is gone or purging in any case; and
   from the moment a purge report is queued the file is never active or trashed again.
   */
  lemma PurgeBarrier(run: seq<Sys>, events: seq<Event>, i: nat, row: nat, id: FileId)
    requires IsRun(run, events) && i < |run| && row < |run[i].ops| && IsPurgeOf(run[i].ops[row].report, id)
    ensures i < |events| && events[i] == Send && row == Head(run[i].ops) && row >= run[i].carried ==>
      id !in run[i].store.lan
    ensures forall j :: i <= j < |run| && id in run[j].store.lan ==> run[j].store.lan[id].status == Purging
  {
    RunInv(run, events, i);
    if i < |events| && events[i] == Send && row == Head(run[i].ops) {
      assert StepAt(run, events, i);
      assert SendStep(run[i]).Some? && Sendable(run[i], row);
    }
    forall j | i <= j < |run| && id in run[j].store.lan
      ensures run[j].store.lan[id].status == Purging
    {
      RunKeepsReports(run, events, i, j);
      RunInv(run, events, j);
    }
  }

  /** Every copy of every report that ever reaches the server is accepted. */
  lemma ServerAcceptsEverything(run: seq<Sys>, events: seq<Event>, i: nat)
    requires IsRun(run, events) && i < |events| && events[i].Arrive?
    ensures events[i].row < |run[i].ops| && !run[i].ops[events[i].row].report.Unsupported?
    ensures Handle(run[i].server, DEVICE, run[i].ops[events[i].row].report, events[i].uuid, events[i].now).1.Ok?
  {
    RunInv(run, events, i);
    assert StepAt(run, events, i);
    ArrivalAccepted(run[i], events[i]);
  }

  lemma ArrivalAccepted(s: Sys, ev: Event)
    requires Inv(s) && ev.Arrive? && Next(s, ev).Some?
    ensures ev.row < |s.ops| && !s.ops[ev.row].report.Unsupported?
    ensures Handle(s.server, DEVICE, s.ops[ev.row].report, ev.uuid, ev.now).1.Ok?
  {
    ArriveServer(s, ev.row, ev.uuid, ev.now);
  }

  /** No queued report ever ends up failed. */
  lemma NothingFails(run: seq<Sys>, events: seq<Event>, i: nat, row: nat)
    requires IsRun(run, events) && i < |run| && row < |run[i].ops|
    ensures run[i].ops[row].status != Failed
  {
    RunInv(run, events, i);
  }

  /** The server's record of one local file agrees with the local catalog. */
  predicate InStep(s: Sys, id: FileId) {
    var k := S.EntryKey(DEVICE, id);
    && k in s.server.entries
    && (if id in s.store.lan && s.store.lan[id].status != Purging
        then s.server.entries[k].name == s.store.lan[id].name
             && s.server.entries[k].normalized == s.store.lan[id].normalized
             && s.server.entries[k].status == (if s.store.lan[id].status == FileStatus.Active then S.Active else S.Trashed)
        else s.server.entries[k].status == S.Purged)
  }

  /**
   The simulation.  Once the outbox is drained, whatever was retried, lost, duplicated or
   restarted on the way, every active or trashed file has its name and status on the server,
   every purging or removed one is purged there, and the server lists nothing else.
   */
  lemma DrainedMeansAgreement(run: seq<Sys>, events: seq<Event>, i: nat)
    requires IsRun(run, events) && i < |run| && Head(run[i].ops) == |run[i].ops|
    ensures forall id <- run[i].used :: InStep(run[i], id)
    ensures forall id <- run[i].store.lan :: id in run[i].used
    ensures forall k <- run[i].server.entries :: k.device == DEVICE && k.localId in run[i].used
  {
    RunInv(run, events, i);
    DrainedAgrees(run[i]);
  }

  lemma DrainedAgrees(s: Sys)
    requires Inv(s) && Head(s.ops) == |s.ops|
    ensures forall id <- s.used :: InStep(s, id)
    ensures forall id <- s.store.lan :: id in s.used
    ensures forall k <- s.server.entries :: k.device == DEVICE && k.localId in s.used
  {
    assert Reports(s.ops)[..|s.ops|] == Reports(s.ops);
    var v := Expected(s.store, s.used);
    assert Shows(s.server, v);
    forall id | id in s.used ensures InStep(s, id) {
      assert id in v && EntryState(s.server.entries[S.EntryKey(DEVICE, id)]) == v[id];
    }
    forall k | k in s.server.entries ensures k.device == DEVICE && k.localId in s.used {
      assert k == S.EntryKey(DEVICE, k.localId);
      assert k.localId in v;
    }
  }

  /** Before that, the server is exactly where the reports it has applied put it. */
  lemma ServerFollowsTheQueue(run: seq<Sys>, events: seq<Event>, i: nat)
    requires IsRun(run, events) && i < |run|
    ensures Head(run[i].ops) <= AppliedCount(run[i]) <= Head(run[i].ops) + 1
    ensures AppliedCount(run[i]) <= |run[i].ops|
    ensures var prefix := Reports(run[i].ops)[..AppliedCount(run[i])];
      ApplyReports(prefix).Some? && Shows(run[i].server, ApplyReports(prefix).value)
  {
    RunInv(run, events, i);
  }

  // ---- A blocked report nobody will release ----

  /** The oldest unfinished report is blocked behind a purge that is no longer under way. */
  ghost predicate Stuck(s: Sys) {
    && s.phase == Up && s.awaiting == Quiet
    && var h := Head(s.ops);
    h < |s.ops| && s.ops[h].status == Processing && s.goal != Some(h)
  }

  /** Appending to the queue or releasing another row leaves the head where it is. */
  lemma StuckKept(s: Sys, t: Sys)
    requires Stuck(s) && |s.ops| <= |t.ops| && t.phase == Up && t.awaiting == Quiet && t.goal != Some(Head(s.ops))
    requires forall i :: 0 <= i <= Head(s.ops) ==> t.ops[i] == s.ops[i]
    ensures Stuck(t) && Head(t.ops) == Head(s.ops)
  {
    HeadIs(t.ops, Head(s.ops));
  }

  lemma StuckStep(s: Sys, ev: Event, t: Sys)
    requires Stuck(s) && Follows(s, ev, t) && !ev.Crash?
    ensures ev != Send && Stuck(t) && Head(t.ops) == Head(s.ops)
  {
    StuckKept(s, t);
  }

  /** Once stuck, nothing is sent before the process restarts, whatever else happens. */
  lemma {:induction false} StuckUntilRestart(run: seq<Sys>, events: seq<Event>, i: nat, j: nat)
    requires IsRun(run, events) && i <= j < |run| && Stuck(run[i])
    requires forall k :: i <= k < j ==> !events[k].Crash?
    ensures Stuck(run[j]) && Head(run[j].ops) == Head(run[i].ops)
    ensures j < |events| ==> events[j] != Send
    decreases j
  {
    if i < j {
      StuckUntilRestart(run, events, i, j - 1);
      assert StepAt(run, events, j - 1);
      StuckStep(run[j - 1], events[j - 1], run[j]);
    }
    if j < |events| {
      assert StepAt(run, events, j);
    }
  }

  /**
   A purge whose statements are done can be abandoned before its report is released; that
   sticks the queue exactly when the report is the head and nothing is being delivered.
   */
  lemma AbandonSticks(s: Sys) returns (t: Sys)
    requires PurgeOk(s) && s.todo == [] && s.goal.Some?
    ensures Follows(s, Abandon, t) && t == s.(goal := None)
    ensures Stuck(t) <==> Stuck(s) || (s.awaiting == Quiet && s.goal == Some(Head(s.ops)))
  {
    t := AbandonStep(s).value;
  }

  /** Every blocked or attempted report has somebody who will settle it. */
  ghost predicate Attended(s: Sys) {
    && (s.phase == Booting ==> s.awaiting == Quiet && s.goal == None)
    && (s.phase == Up ==> forall i :: 0 <= i < |s.ops| && s.ops[i].status == Processing ==>
          s.goal == Some(i) || (s.awaiting != Quiet && s.awaiting.row == i))
  }

  lemma AttendedStep(s: Sys, ev: Event, t: Sys)
    requires Attended(s) && Follows(s, ev, t) && ev != Abandon
    ensures Attended(t)
  {
  }

  lemma {:induction false} RunAttended(run: seq<Sys>, events: seq<Event>, b: nat, i: nat)
    requires IsRun(run, events) && b <= i < |run| && Attended(run[b])
    requires forall k :: b <= k < i ==> events[k] != Abandon
    ensures Attended(run[i])
    decreases i
  {
    if b < i {
      RunAttended(run, events, b, i - 1);
      assert StepAt(run, events, i - 1);
      AttendedStep(run[i - 1], events[i - 1], run[i]);
    }
  }

  /**
   The queue gets stuck only by an abandoned purge: if none was abandoned since the process
   last crashed, or ever, nothing is stuck.
   */
  lemma OnlyAbandonSticks(run: seq<Sys>, events: seq<Event>, b: nat, i: nat)
    requires IsRun(run, events) && b <= i < |run| && (b == 0 || events[b - 1].Crash?)
    requires forall k :: b <= k < i ==> events[k] != Abandon
    ensures !Stuck(run[i])
  {
    if b > 0 {
      assert StepAt(run, events, b - 1);
    }
    assert Attended(run[b]);
    RunAttended(run, events, b, i);
  }
}
