/** What the system can always still do: from anywhere, drain its outbox and agree with the server. */
module SystemProgress {
  import opened Base
  import opened Wire
  import opened LocalStore
  import opened StoreSafety
  import opened Outbox
  import S = ServerCatalog
  import opened Delivery
  import opened AgentSystem
  import opened CatalogView
  import opened SystemInvariant
  import opened SystemTheorems

  /** The state after a series of events, or nothing when one of them cannot happen. */
  ghost function After(s: Sys, events: seq<Event>): Option<Sys>
    decreases |events|
  {
    if events == [] then Some(s)
    else match Next(s, events[0]) case None => None case Some(t) => After(t, events[1..])
  }

  lemma {:induction false} AfterConcat(s: Sys, p: seq<Event>, q: seq<Event>)
    requires After(s, p).Some?
    ensures After(s, p + q) == After(After(s, p).value, q)
    decreases |p|
  {
    if p == [] {
      assert p + q == q;
    } else {
      assert (p + q)[0] == p[0] && (p + q)[1..] == p[1..] + q;
      AfterConcat(Next(s, p[0]).value, p[1..], q);
    }
  }

  lemma AfterCons(s: Sys, ev: Event, t: Sys, rest: seq<Event>, end: Sys)
    requires Follows(s, ev, t) && After(t, rest) == Some(end)
    ensures After(s, [ev] + rest) == Some(end)
  {
    assert ([ev] + rest)[1..] == rest;
  }

  lemma AfterOne(s: Sys, ev: Event, t: Sys)
    requires Follows(s, ev, t)
    ensures After(s, [ev]) == Some(t)
  {
    assert [ev][1..] == [];
  }

  // ---- Reachable states ----

  ghost predicate Reached(s: Sys) {
    exists run, events :: IsRun(run, events) && run[|run| - 1] == s
  }

  lemma ReachedInv(s: Sys)
    requires Reached(s)
    ensures Inv(s)
  {
    var run, events :| IsRun(run, events) && run[|run| - 1] == s;
    RunInv(run, events, |run| - 1);
  }

  lemma ReachedStep(s: Sys, ev: Event, t: Sys)
    requires Reached(s) && Follows(s, ev, t)
    ensures Reached(t)
  {
    var run, events :| IsRun(run, events) && run[|run| - 1] == s;
    var run', events' := run + [t], events + [ev];
    forall i | 0 <= i < |events'| ensures StepAt(run', events', i) {
      if i < |events| {
        assert StepAt(run, events, i);
      }
    }
    assert IsRun(run', events') && run'[|run'| - 1] == t;
  }

  lemma ReachedAt(run: seq<Sys>, events: seq<Event>, i: nat)
    requires IsRun(run, events) && i < |run|
    ensures Reached(run[i])
  {
    var run', events' := run[..i + 1], events[..i];
    forall k | 0 <= k < |events'| ensures StepAt(run', events', k) {
      assert StepAt(run, events, k);
    }
    assert IsRun(run', events') && run'[|run'| - 1] == run[i];
  }

  /** No crash, no purge given up, and nothing new is asked for. */
  predicate Quietly(events: seq<Event>) {
    forall ev <- events :: ev in {Advance, Activate, FinishBoot, Send} || ev.Arrive? || ev.Hear? || ev.GiveUp?
  }

  // ---- Finishing what is under way ----

  lemma AdvanceOne(s: Sys) returns (t: Sys)
    requires Reached(s) && s.todo != []
    ensures Follows(s, Advance, t) && t == s.(store := t.store, todo := s.todo[1..])
  {
    ReachedInv(s);
    StoreSound(s);
    t := AdvanceStep(s).value;
  }

  /** The statements left can all be run: none meets an error. */
  lemma {:induction false} CanAdvance(s: Sys) returns (events: seq<Event>, t: Sys)
    requires Reached(s)
    ensures Quietly(events) && After(s, events) == Some(t) && Reached(t)
    ensures t == s.(store := t.store, todo := [])
    decreases |s.todo|
  {
    if s.todo == [] {
      return [], s;
    }
    var next := AdvanceOne(s);
    ReachedStep(s, Advance, next);
    var rest, end := CanAdvance(next);
    AfterCons(s, Advance, next, rest, end);
    events, t := [Advance] + rest, end;
  }

  /** Nothing is under way, and every unfinished report is pending. */
  ghost predicate Idle(s: Sys) {
    && s.phase == Up && s.todo == [] && s.goal == None && s.awaiting == Quiet
    && forall i :: 0 <= i < |s.ops| ==> s.ops[i].status != Processing
  }

  lemma BootStep(s: Sys) returns (t: Sys)
    requires s.phase == Booting && s.todo == [] && s.goal == None && s.awaiting == Quiet
    ensures Follows(s, FinishBoot, t) && Idle(t) && t.used == s.used && Reports(t.ops) == Reports(s.ops)
  {
    t := FinishBootStep(s).value;
    assert Reports(t.ops) == Reports(s.ops);
  }

  lemma BootingRests(s: Sys)
    requires Reached(s) && s.phase == Booting
    ensures s.goal == None && s.awaiting == Quiet
  {
    ReachedInv(s);
  }

  /** A restart that was cut short is finished. */
  lemma CanBoot(s: Sys) returns (events: seq<Event>, t: Sys)
    requires Reached(s) && s.phase == Booting
    ensures Quietly(events) && After(s, events) == Some(t) && Reached(t) && Idle(t)
    ensures t.used == s.used && Reports(t.ops) == Reports(s.ops)
  {
    var p, mid := CanAdvance(s);
    BootingRests(s);
    t := BootStep(mid);
    ReachedStep(mid, FinishBoot, t);
    AfterOne(mid, FinishBoot, t);
    AfterConcat(s, p, [FinishBoot]);
    events := p + [FinishBoot];
  }

  lemma ReleaseStep(s: Sys) returns (t: Sys)
    requires Reached(s) && s.todo == [] && s.goal.Some?
    ensures Follows(s, Activate, t)
    ensures t == s.(ops := t.ops, goal := None) && Reports(t.ops) == Reports(s.ops)
  {
    ReachedInv(s);
    t := ActivateStep(s).value;
    assert Reports(t.ops) == Reports(s.ops);
  }

  /** The purge whose statements are done releases its report. */
  lemma CanRelease(s: Sys) returns (events: seq<Event>, t: Sys)
    requires Reached(s) && s.todo == [] && Attended(s)
    ensures Quietly(events) && After(s, events) == Some(t) && Reached(t) && Attended(t)
    ensures t == s.(ops := t.ops, goal := None) && Reports(t.ops) == Reports(s.ops)
  {
    if s.goal == None {
      return [], s;
    }
    t := ReleaseStep(s);
    events := [Activate];
    AfterOne(s, Activate, t);
    ReachedStep(s, Activate, t);
    AttendedStep(s, Activate, t);
  }

  lemma AwaitedRow(s: Sys)
    requires Reached(s) && s.awaiting != Quiet
    ensures s.awaiting.row < |s.ops| && (s.awaiting.Answered? ==> s.awaiting.verdict == Accept)
  {
    ReachedInv(s);
  }

  lemma SettleStep(s: Sys) returns (ev: Event, t: Sys)
    requires s.phase == Up && s.todo == [] && s.goal == None && Attended(s) && s.awaiting != Quiet
    requires s.awaiting.row < |s.ops| && (s.awaiting.Answered? ==> s.awaiting.verdict == Accept)
    ensures (ev.Hear? || ev.GiveUp?) && Follows(s, ev, t) && Idle(t)
    ensures t.used == s.used && Reports(t.ops) == Reports(s.ops)
  {
    ev := if s.awaiting.Answered? then Hear(0, 0) else GiveUp(0, 0);
    t := (if s.awaiting.Answered? then HearStep(s, 0, 0) else GiveUpStep(s, 0, 0)).value;
    assert Reports(t.ops) == Reports(s.ops);
  }

  /** The delivery under way is settled: an answer is heard, a missing one given up. */
  lemma CanSettle(s: Sys) returns (events: seq<Event>, t: Sys)
    requires Reached(s) && s.phase == Up && s.todo == [] && s.goal == None && Attended(s)
    ensures Quietly(events) && After(s, events) == Some(t) && Reached(t) && Idle(t)
    ensures t.used == s.used && Reports(t.ops) == Reports(s.ops)
  {
    if s.awaiting == Quiet {
      return [], s;
    }
    AwaitedRow(s);
    var ev;
    ev, t := SettleStep(s);
    events := [ev];
    AfterOne(s, ev, t);
    ReachedStep(s, ev, t);
  }

  /** Wherever an attended system stands, it can finish what is under way, and asks for nothing new. */
  lemma CanIdle(s: Sys) returns (events: seq<Event>, t: Sys)
    requires Reached(s) && Attended(s)
    ensures Quietly(events) && After(s, events) == Some(t) && Reached(t) && Idle(t)
    ensures t.used == s.used && Reports(t.ops) == Reports(s.ops)
  {
    if s.phase == Booting {
      events, t := CanBoot(s);
    } else {
      var p, run := CanAdvance(s);
      var q, released := CanRelease(run);
      var r, settled := CanSettle(released);
      AfterConcat(s, p, q);
      AfterConcat(s, p + q, r);
      events, t := p + q + r, settled;
    }
  }

  // ---- Draining ----

  lemma SendHead(s: Sys) returns (t: Sys)
    requires Idle(s) && Head(s.ops) < |s.ops|
    ensures Follows(s, Send, t)
    ensures var h := Head(s.ops);
      t == s.(ops := s.ops[h := s.ops[h].(status := Processing)], sent := s.sent + {h}, awaiting := Waiting(h))
  {
    t := SendStep(s).value;
  }

  lemma Supported(s: Sys, h: nat)
    requires Reached(s) && h < |s.ops|
    ensures !s.ops[h].report.Unsupported?
  {
    ReachedInv(s);
    assert WellFormed(s.ops[h].report);
  }

  lemma ArriveHead(s: Sys, h: nat, uuid: S.FolderId) returns (t: Sys, answer: Answer)
    requires h in s.sent && h < |s.ops| && s.awaiting == Waiting(h) && !s.ops[h].report.Unsupported?
    ensures Follows(s, Arrive(h, uuid, 0, true), t)
    ensures t == s.(server := t.server, awaiting := Answered(h, VerdictOf(answer)))
    ensures answer == Handle(s.server, DEVICE, s.ops[h].report, uuid, 0).1
  {
    answer := Handle(s.server, DEVICE, s.ops[h].report, uuid, 0).1;
    t := ArriveStep(s, h, uuid, 0, true).value;
  }

  lemma Accepted(s: Sys, h: nat, uuid: S.FolderId, t: Sys)
    requires Reached(s) && Follows(s, Arrive(h, uuid, 0, true), t) && h < |s.ops| && !s.ops[h].report.Unsupported?
    ensures Handle(s.server, DEVICE, s.ops[h].report, uuid, 0).1.Ok?
  {
    ReachedInv(s);
    ArrivalAccepted(s, Arrive(h, uuid, 0, true));
  }

  lemma HearAccepted(s: Sys, h: nat) returns (t: Sys)
    requires h < |s.ops| && s.awaiting == Answered(h, Accept)
    ensures Follows(s, Hear(0, 0), t)
    ensures t == s.(ops := s.ops[h := s.ops[h].(status := Completed)], awaiting := Quiet)
  {
    t := HearStep(s, 0, 0).value;
  }

  /** The arrival of a copy that was sent, and the answer. */
  lemma HeadAnswered(s: Sys, h: nat, uuid: S.FolderId) returns (s2: Sys, t: Sys)
    requires Reached(s) && h in s.sent && h < |s.ops| && s.awaiting == Waiting(h)
    ensures Follows(s, Arrive(h, uuid, 0, true), s2) && Follows(s2, Hear(0, 0), t) && Reached(t)
    ensures t == s.(ops := s.ops[h := s.ops[h].(status := Completed)], server := t.server, awaiting := Quiet)
  {
    Supported(s, h);
    var answer;
    s2, answer := ArriveHead(s, h, uuid);
    Accepted(s, h, uuid, s2);
    ReachedStep(s, Arrive(h, uuid, 0, true), s2);
    t := HearAccepted(s2, h);
    ReachedStep(s2, Hear(0, 0), t);
  }

  lemma ThreeSteps(s: Sys, a: Event, s1: Sys, b: Event, s2: Sys, c: Event, t: Sys)
    requires Follows(s, a, s1) && Follows(s1, b, s2) && Follows(s2, c, t)
    ensures After(s, [a, b, c]) == Some(t)
  {
    AfterOne(s2, c, t);
    AfterCons(s1, b, s2, [c], t);
    AfterCons(s, a, s1, [b, c], t);
    assert [b] + [c] == [b, c] && [a] + [b, c] == [a, b, c];
  }

  lemma HeadCompleted(s: Sys, t: Sys)
    requires Idle(s) && Head(s.ops) < |s.ops| && t.phase == Up && t.todo == [] && t.goal == None && t.awaiting == Quiet
    requires t.ops == s.ops[Head(s.ops) := s.ops[Head(s.ops)].(status := Processing)]
      [Head(s.ops) := s.ops[Head(s.ops)].(status := Processing).(status := Completed)]
    ensures Idle(t) && Reports(t.ops) == Reports(s.ops) && Unfinished(t.ops) < Unfinished(s.ops)
  {
    var h := Head(s.ops);
    assert t.ops == s.ops[h := s.ops[h].(status := Completed)];
    UnfinishedUpdate(s.ops, h, t.ops[h]);
    assert Reports(t.ops) == Reports(s.ops);
  }

  /** An idle system sends its oldest unfinished report, the server accepts it, and the answer is heard. */
  lemma DeliverHead(s: Sys, uuid: S.FolderId) returns (events: seq<Event>, t: Sys)
    requires Reached(s) && Idle(s) && Head(s.ops) < |s.ops|
    ensures Quietly(events) && After(s, events) == Some(t) && Reached(t) && Idle(t)
    ensures t.used == s.used && Reports(t.ops) == Reports(s.ops) && Unfinished(t.ops) < Unfinished(s.ops)
  {
    var h := Head(s.ops);
    var s1 := SendHead(s);
    ReachedStep(s, Send, s1);
    var s2;
    s2, t := HeadAnswered(s1, h, uuid);
    ThreeSteps(s, Send, s1, Arrive(h, uuid, 0, true), s2, Hear(0, 0), t);
    events := [Send, Arrive(h, uuid, 0, true), Hear(0, 0)];
    HeadCompleted(s, t);
  }

  lemma {:induction false} CanDrain(s: Sys, uuid: S.FolderId) returns (events: seq<Event>, t: Sys)
    requires Reached(s) && Idle(s)
    ensures Quietly(events) && After(s, events) == Some(t) && Reached(t) && Head(t.ops) == |t.ops|
    ensures t.used == s.used && Reports(t.ops) == Reports(s.ops)
    decreases Unfinished(s.ops)
  {
    if Head(s.ops) == |s.ops| {
      return [], s;
    }
    var p, mid := DeliverHead(s, uuid);
    var q, end := CanDrain(mid, uuid);
    AfterConcat(s, p, q);
    events, t := p + q, end;
  }

  lemma CanDrainAttended(s: Sys, uuid: S.FolderId) returns (events: seq<Event>, t: Sys)
    requires Reached(s) && Attended(s)
    ensures Quietly(events) && After(s, events) == Some(t) && Reached(t) && Head(t.ops) == |t.ops|
    ensures t.used == s.used && Reports(t.ops) == Reports(s.ops)
  {
    var p, idle := CanIdle(s);
    var q, end := CanDrain(idle, uuid);
    AfterConcat(s, p, q);
    events, t := p + q, end;
  }

  // ---- Restarting ----

  lemma {:induction false} OrderOf<T(!new)>(elements: set<T>) returns (order: seq<T>)
    ensures Enumerates(order, elements)
    decreases |elements|
  {
    if elements == {} {
      return [];
    }
    var x :| x in elements;
    var rest := OrderOf(elements - {x});
    order := [x] + rest;
    assert forall y :: y in order <==> y == x || y in rest;
  }

  lemma OrdersFit(store: Store, walk: seq<Hash>, listed: seq<Hash>)
    requires Enumerates(walk, store.files.Keys) && Enumerates(listed, store.objects.Keys)
    ensures RecoveryOrders(store, walk, listed, [])
  {
  }

  /** A crash is always possible: recovery finds some order for each of its scans. */
  lemma CanCrash(s: Sys) returns (ev: Event, t: Sys)
    ensures ev.Crash? && Follows(s, ev, t) && Attended(t) && t.used == s.used && t.ops == s.ops
  {
    var walk := OrderOf(s.store.files.Keys);
    var listed := OrderOf(s.store.objects.Keys);
    OrdersFit(s.store, walk, listed);
    ev := Crash(walk, listed, []);
    t := CrashStep(s, walk, listed, []).value;
  }

  // ---- The theorems ----

  /**
   Agreement can always be reached.  From every state of every run, whatever was lost, crashed
   or abandoned, there is a continuation that asks for nothing new and after which every report
   queued so far is completed and Agent and server agree; it needs a restart only where a
   report is blocked that nobody will release.
   */
  lemma AgreementReachable(run: seq<Sys>, events: seq<Event>, i: nat, uuid: S.FolderId) returns (more: seq<Event>, t: Sys)
    requires IsRun(run, events) && i < |run|
    ensures After(run[i], more) == Some(t) && t.used == run[i].used && Reports(t.ops) == Reports(run[i].ops)
    ensures if Attended(run[i]) then Quietly(more) else more != [] && more[0].Crash? && Quietly(more[1..])
    ensures forall j :: 0 <= j < |t.ops| ==> t.ops[j].status == Completed
    ensures forall id <- t.used :: InStep(t, id)
    ensures forall k <- t.server.entries :: k.device == DEVICE && k.localId in t.used
  {
    ReachedAt(run, events, i);
    if Attended(run[i]) {
      more, t := CanDrainAttended(run[i], uuid);
    } else {
      var ev, down := CanCrash(run[i]);
      ReachedStep(run[i], ev, down);
      var rest, end := CanDrainAttended(down, uuid);
      AfterCons(run[i], ev, down, rest, end);
      more, t := [ev] + rest, end;
      assert more[1..] == rest;
    }
    ReachedDrained(t);
  }

  lemma ReachedDrained(s: Sys)
    requires Reached(s) && Head(s.ops) == |s.ops|
    ensures forall j :: 0 <= j < |s.ops| ==> s.ops[j].status == Completed
    ensures forall id <- s.used :: InStep(s, id)
    ensures forall k <- s.server.entries :: k.device == DEVICE && k.localId in s.used
  {
    ReachedInv(s);
    DrainedAgrees(s);
  }

  /** A blocked report that nobody will release. */
  predicate Orphan(s: Sys, r: nat) {
    && s.phase == Up && r < |s.ops| && s.ops[r].status == Processing
    && s.goal != Some(r) && (s.awaiting == Quiet || s.awaiting.row != r)
  }

  lemma OrphanStep(s: Sys, ev: Event, t: Sys, r: nat)
    requires Orphan(s, r) && Follows(s, ev, t) && !ev.Crash?
    ensures Orphan(t, r)
  {
  }

  /** The restart is needed there: without one such a report stays unfinished, and the outbox is never drained. */
  lemma {:induction false} OrphanStays(run: seq<Sys>, events: seq<Event>, i: nat, j: nat, r: nat)
    requires IsRun(run, events) && i <= j < |run| && Orphan(run[i], r)
    requires forall k :: i <= k < j ==> !events[k].Crash?
    ensures Orphan(run[j], r) && Head(run[j].ops) < |run[j].ops|
    decreases j
  {
    if i < j {
      OrphanStays(run, events, i, j - 1, r);
      assert StepAt(run, events, j - 1);
      OrphanStep(run[j - 1], events[j - 1], run[j], r);
    }
    assert !Finished(run[j].ops[r]);
  }

  /** Only a state with such a report needs it. */
  lemma UnattendedHasOrphan(run: seq<Sys>, events: seq<Event>, i: nat)
    requires IsRun(run, events) && i < |run|
    ensures !Attended(run[i]) <==> exists r :: Orphan(run[i], r)
  {
    RunInv(run, events, i);
    AttendedOrOrphan(run[i]);
  }

  lemma AttendedOrOrphan(s: Sys)
    requires QueueOk(s) && PurgeOk(s)
    ensures !Attended(s) <==> exists r :: Orphan(s, r)
  {
    if !Attended(s) {
      var r :| 0 <= r < |s.ops| && s.ops[r].status == Processing && s.goal != Some(r)
        && !(s.awaiting != Quiet && s.awaiting.row == r);
      assert Orphan(s, r);
    }
  }
}
