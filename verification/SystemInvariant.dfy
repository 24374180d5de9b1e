/** The invariant of the whole system, part by part. */
module SystemInvariant {
  import opened Base
  import opened Wire
  import opened LocalStore
  import opened StoreSafety
  import opened Outbox
  import S = ServerCatalog
  import CI = CatalogInvariants
  import opened Delivery
  import opened AgentSystem
  import opened CatalogView

  function Reports(ops: seq<Op>): seq<Report> {
    seq(|ops|, i requires 0 <= i < |ops| => ops[i].report)
  }

  /** How many reports of the queue the server has applied. */
  ghost function AppliedCount(s: Sys): nat {
    var h := Head(s.ops);
    if h < |s.ops| && Applied(s.server, DEVICE, s.ops[h].report) then h + 1 else h
  }

  /** Cut here, the operation under way loses nothing; let run, it ends healthy. */
  ghost predicate StoreOk(s: Sys) {
    Safe(s.store, s.todo) && Healthy(ExecAll(s.store, s.todo))
  }

  /** FIFO: rows before the head are completed, none after it is finished, and only rows up to it were sent. */
  ghost predicate QueueOk(s: Sys) {
    var h := Head(s.ops);
    && (forall i :: 0 <= i < h ==> s.ops[i].status == Completed)
    && (forall i :: h <= i < |s.ops| ==> !Finished(s.ops[i]))
    && (forall r <- s.sent :: r <= h && r < |s.ops|)
    && (s.phase == Booting ==> s.awaiting == Quiet)
    && (s.awaiting != Quiet ==> s.awaiting.row == h && h in s.sent && s.ops[h].status == Processing)
    && (s.awaiting.Answered? ==> s.awaiting.verdict == Accept && Applied(s.server, DEVICE, s.ops[h].report))
  }

  /** Reports are well formed, and no two share an identity. */
  ghost predicate ReportsOk(s: Sys) {
    && (forall i :: 0 <= i < |s.ops| ==> WellFormed(s.ops[i].report))
    && (forall i, j :: 0 <= i < j < |s.ops| ==> Distinct(s.ops[i].report, s.ops[j].report))
  }

  predicate Distinct(a: Report, b: Report) {
    match (a, b)
    case (Registration(p), Registration(q)) => p.localFileId != q.localFileId
    case (Lifecycle(p), Lifecycle(q)) => p.operationId != q.operationId
    case _ => true
  }

  /** Applying every report ever queued, in order, gives what the local catalog says. */
  ghost predicate ViewOk(s: Sys) {
    RowsSound(s.store, s.used) && ApplyReports(Reports(s.ops)) == Some(Expected(s.store, s.used))
  }

  /** The server is what the applied prefix of the queue makes it. */
  ghost predicate ServerOk(s: Sys) {
    var p := AppliedCount(s);
    && CI.Sound(s.server) && SingleDevice(s.server)
    && ApplyReports(Reports(s.ops)[..p]).Some?
    && Shows(s.server, ApplyReports(Reports(s.ops)[..p]).value)
    && (forall i :: 0 <= i < |s.ops| ==> (i < p <==> Applied(s.server, DEVICE, s.ops[i].report)))
    && (forall i <- s.server.idem :: KeyOfPrefix(s.ops, p, i))
  }

  ghost predicate KeyOfPrefix(ops: seq<Op>, p: nat, key: S.IdemKey)
    requires p <= |ops|
  {
    exists j :: 0 <= j < p && ops[j].report.Lifecycle?
      && key == S.IdemKey(DEVICE, ops[j].report.change.operationId)
  }

  predicate IsPurgeOf(report: Report, id: FileId) {
    report.Lifecycle? && report.change.action == Action.Purge && report.change.localFileId == id
  }

  /** A row the delivery loop may send, or has sent. */
  predicate Sendable(s: Sys, i: nat)
    requires i < |s.ops|
  {
    s.ops[i].status == Pending || i in s.sent
  }

  /** The barrier between a purge and its report. */
  ghost predicate PurgeOk(s: Sys) {
    && s.carried <= |s.ops|
    && (s.phase == Booting ==> s.carried == |s.ops| && s.goal == None)
    && (forall i :: 0 <= i < |s.ops| && s.ops[i].report.Lifecycle? && s.ops[i].report.change.action == Action.Purge ==>
          var id := s.ops[i].report.change.localFileId;
          && id in s.used
          && (id in s.store.lan ==> s.store.lan[id].status == Purging)
          && (i >= s.carried && Sendable(s, i) ==> id !in s.store.lan))
    && (s.goal.Some? ==>
          && s.carried <= s.goal.value < |s.ops| && s.goal.value !in s.sent
          && s.ops[s.goal.value].status == Processing
          && s.ops[s.goal.value].report.Lifecycle?
          && s.ops[s.goal.value].report.change.action == Action.Purge
          && s.ops[s.goal.value].report.change.localFileId !in ExecAll(s.store, s.todo).lan)
  }

  ghost predicate Inv(s: Sys) {
    StoreOk(s) && QueueOk(s) && ReportsOk(s) && ViewOk(s) && ServerOk(s) && PurgeOk(s)
  }

  lemma InitialInv()
    ensures Inv(Initial())
  {
    var s := Initial();
    assert Reports(s.ops) == [];
    CI.EmptySound();
    InitialServer();
  }

  lemma InitialServer()
    ensures ServerOk(Initial())
  {
    var s := Initial();
    assert Reports(s.ops) == [];
    CI.EmptySound();
  }

  // ---- Parts that an event leaves alone ----

  /** Only statuses of rows changed. */
  ghost predicate SameReports(s: Sys, t: Sys) {
    |t.ops| == |s.ops| && forall i :: 0 <= i < |s.ops| ==> t.ops[i].report == s.ops[i].report
  }

  lemma SameReportsKeep(s: Sys, t: Sys)
    requires ReportsOk(s) && SameReports(s, t)
    ensures Reports(t.ops) == Reports(s.ops) && ReportsOk(t)
  {
    assert Reports(t.ops) == Reports(s.ops);
    forall i, j | 0 <= i < j < |t.ops| ensures Distinct(t.ops[i].report, t.ops[j].report) {
      assert Distinct(s.ops[i].report, s.ops[j].report);
    }
  }

  lemma ServerUntouched(s: Sys, t: Sys)
    requires ServerOk(s) && t.server == s.server && SameReports(s, t) && AppliedCount(t) == AppliedCount(s)
    requires Reports(t.ops) == Reports(s.ops)
    ensures ServerOk(t)
  {
    forall i | i in t.server.idem ensures KeyOfPrefix(t.ops, AppliedCount(t), i) {
      var p := AppliedCount(s);
      assert KeyOfPrefix(s.ops, p, i);
      var j :| 0 <= j < p && s.ops[j].report.Lifecycle? && i == S.IdemKey(DEVICE, s.ops[j].report.change.operationId);
      assert t.ops[j].report == s.ops[j].report;
    }
  }

  // ---- Operations of the store ----

  lemma ImportInv(s: Sys, bytes: Bytes)
    requires Inv(s) && AtRest(s)
    ensures Inv(s.(todo := ImportPlan(s.store, bytes)))
  {
    var t := s.(todo := ImportPlan(s.store, bytes));
    ImportSafe(s.store, bytes);
    SameReportsKeep(s, t);
    ServerUntouched(s, t);
  }

  lemma ExpectedKept(store: Store, store': Store, used: set<FileId>)
    requires KeepsLive(store, store') && RowsSound(store, used)
    ensures RowsSound(store', used) && Expected(store', used) == Expected(store, used)
  {
    assert Expected(store', used) == Expected(store, used);
  }

  lemma AdvanceInv(s: Sys)
    requires Inv(s) && s.todo != []
    ensures Exec(s.store, s.todo[0]).Some?
    ensures Inv(s.(store := Exec(s.store, s.todo[0]).value, todo := s.todo[1..]))
  {
    var t := s.(store := Exec(s.store, s.todo[0]).value, todo := s.todo[1..]);
    ExpectedKept(s.store, t.store, s.used);
    SameReportsKeep(s, t);
    ServerUntouched(s, t);
  }

  lemma CrashInv(s: Sys, walk: seq<Hash>, listed: seq<Hash>, stale: seq<Hash>)
    requires Inv(s) && RecoveryOrders(s.store, walk, listed, stale)
    ensures Inv(s.(phase := Booting, todo := RecoveryPlan(s.store, walk, listed, stale), goal := None,
                   carried := |s.ops|, awaiting := Quiet))
  {
    var t := s.(phase := Booting, todo := RecoveryPlan(s.store, walk, listed, stale), goal := None,
                carried := |s.ops|, awaiting := Quiet);
    RecoverySafe(s.store, walk, listed, stale);
    SameReportsKeep(s, t);
    ServerUntouched(s, t);
  }

  // ---- Rows that only change status ----

  /** Unfinished rows stay unfinished, so the head stays. */
  lemma HeadKept(s: seq<Op>, t: seq<Op>)
    requires |t| == |s| && forall i :: 0 <= i < |s| ==> Finished(t[i]) == Finished(s[i])
    ensures Head(t) == Head(s)
  {
    HeadIs(t, Head(s));
  }

  /** What a change of statuses only cannot disturb. */
  lemma StatusesOnly(s: Sys, t: Sys)
    requires Inv(s) && SameReports(s, t)
    requires forall i :: 0 <= i < |s.ops| ==> Finished(t.ops[i]) == Finished(s.ops[i])
    requires t.store == s.store && t.todo == s.todo && t.used == s.used && t.server == s.server
    ensures StoreOk(t) && ReportsOk(t) && ViewOk(t) && ServerOk(t) && Head(t.ops) == Head(s.ops)
  {
    HeadKept(s.ops, t.ops);
    SameReportsKeep(s, t);
    ServerUntouched(s, t);
  }

  lemma ActivateInv(s: Sys)
    requires Inv(s) && ActivateStep(s).Some?
    ensures Inv(ActivateStep(s).value)
  {
    var t := ActivateStep(s).value;
    var g := s.goal.value;
    StatusesOnly(s, t);
    ActivateQueue(s, t, g);
    ActivatePurge(s, t, g);
  }

  lemma ActivateQueue(s: Sys, t: Sys, g: nat)
    requires QueueOk(s) && g < |s.ops| && g !in s.sent && s.ops[g].status == Processing && Head(t.ops) == Head(s.ops)
    requires t == WithStatus(s, g, s.ops[g].(status := Pending)).(goal := None)
    ensures QueueOk(t)
  {
  }

  lemma ActivatePurge(s: Sys, t: Sys, g: nat)
    requires PurgeOk(s) && s.goal == Some(g) && s.todo == []
    requires t == WithStatus(s, g, s.ops[g].(status := Pending)).(goal := None)
    ensures PurgeOk(t)
  {
    forall i | 0 <= i < |t.ops| && i != g ensures t.ops[i] == s.ops[i] && (Sendable(t, i) ==> Sendable(s, i)) {
    }
  }

  lemma AbandonInv(s: Sys)
    requires Inv(s) && AbandonStep(s).Some?
    ensures Inv(AbandonStep(s).value)
  {
    StatusesOnly(s, AbandonStep(s).value);
  }

  lemma FinishBootInv(s: Sys)
    requires Inv(s) && FinishBootStep(s).Some?
    ensures Inv(FinishBootStep(s).value)
  {
    var t := FinishBootStep(s).value;
    ReleasedRows(s.ops);
    StatusesOnly(s, t);
    FinishBootQueue(s, t);
    FinishBootPurge(s, t);
  }

  lemma ReleasedRows(ops: seq<Op>)
    ensures |Released(ops)| == |ops|
    ensures forall i :: 0 <= i < |ops| ==>
      && Released(ops)[i].report == ops[i].report && Finished(Released(ops)[i]) == Finished(ops[i])
      && (ops[i].status == Completed ==> Released(ops)[i].status == Completed)
  {
  }

  lemma FinishBootQueue(s: Sys, t: Sys)
    requires QueueOk(s) && FinishBootStep(s) == Some(t) && Head(t.ops) == Head(s.ops)
    ensures QueueOk(t)
  {
    ReleasedRows(s.ops);
  }

  lemma FinishBootPurge(s: Sys, t: Sys)
    requires PurgeOk(s) && FinishBootStep(s) == Some(t)
    ensures PurgeOk(t)
  {
    ReleasedRows(s.ops);
  }

  lemma SendInv(s: Sys)
    requires Inv(s) && SendStep(s).Some?
    ensures Inv(SendStep(s).value)
  {
    var t := SendStep(s).value;
    StatusesOnly(s, t);
    SendQueue(s, t);
    SendPurge(s, t);
  }

  lemma SendQueue(s: Sys, t: Sys)
    requires QueueOk(s) && SendStep(s) == Some(t) && Head(t.ops) == Head(s.ops)
    ensures QueueOk(t)
  {
  }

  lemma SendPurge(s: Sys, t: Sys)
    requires PurgeOk(s) && SendStep(s) == Some(t)
    ensures PurgeOk(t)
  {
    forall i | 0 <= i < |t.ops| && t.ops[i].report.Lifecycle? && t.ops[i].report.change.action == Action.Purge
      ensures s.ops[i].report == t.ops[i].report && (Sendable(t, i) ==> Sendable(s, i))
    {
    }
  }

  /** The awaited head goes back to pending. */
  lemma RetryQueue(s: Sys, t: Sys, op: Op)
    requires QueueOk(s) && s.awaiting != Quiet && s.awaiting.row < |s.ops| && op.status == Pending
    requires t == WithStatus(s, s.awaiting.row, op).(awaiting := Quiet) && Head(t.ops) == Head(s.ops)
    ensures QueueOk(t)
  {
  }

  lemma RetryPurge(s: Sys, t: Sys, op: Op)
    requires PurgeOk(s) && s.awaiting != Quiet && s.awaiting.row < |s.ops| && s.awaiting.row in s.sent
    requires op.report == s.ops[s.awaiting.row].report
    requires t == WithStatus(s, s.awaiting.row, op).(awaiting := Quiet)
    ensures PurgeOk(t)
  {
    forall i | 0 <= i < |t.ops| && t.ops[i].report.Lifecycle? && t.ops[i].report.change.action == Action.Purge
      ensures s.ops[i].report == t.ops[i].report && (Sendable(t, i) ==> Sendable(s, i))
    {
    }
  }

  lemma GiveUpInv(s: Sys, delay: int, now: Time)
    requires Inv(s) && GiveUpStep(s, delay, now).Some?
    ensures Inv(GiveUpStep(s, delay, now).value)
  {
    var t := GiveUpStep(s, delay, now).value;
    StatusesOnly(s, t);
    RetryQueue(s, t, t.ops[s.awaiting.row]);
    RetryPurge(s, t, t.ops[s.awaiting.row]);
  }

  // ---- The network and the server ----

  lemma PrefixStep(reports: seq<Report>, p: nat)
    requires p < |reports| && ApplyReports(reports).Some?
    ensures ApplyReports(reports[..p]).Some? && ApplyReports(reports[..p + 1]).Some?
    ensures ApplyReport(ApplyReports(reports[..p]).value, reports[p]) == ApplyReports(reports[..p + 1])
  {
    PrefixApplies(reports, p);
    PrefixApplies(reports, p + 1);
    assert reports[..p + 1][..p] == reports[..p];
  }

  /** A well-formed report the view allows is accepted, and the server shows the new view. */
  lemma ReportAccepted(c: S.Catalog, v: View, report: Report, uuid: S.FolderId, now: Time)
    requires CI.Sound(c) && SingleDevice(c) && Shows(c, v) && WellFormed(report)
    requires report.Lifecycle? ==> S.IdemKey(DEVICE, report.change.operationId) !in c.idem
    requires ApplyReport(v, report).Some?
    ensures var (d, answer) := Handle(c, DEVICE, report, uuid, now);
      answer.Ok? && SingleDevice(d) && CI.Sound(d) && Shows(d, ApplyReport(v, report).value)
  {
    HandleSound(c, DEVICE, report, uuid, now);
    if report.Registration? {
      RegisterAccepted(c, v, report.request, uuid);
    } else {
      LifecycleAccepted(c, v, report.change, now);
    }
  }

  /** The head's first arrival: the server accepts it and shows the next view. */
  lemma HeadAccepted(s: Sys, uuid: S.FolderId, now: Time)
    requires ViewOk(s) && ServerOk(s) && ReportsOk(s) && Head(s.ops) < |s.ops| && AppliedCount(s) == Head(s.ops)
    ensures var h := Head(s.ops);
      var (d, answer) := Handle(s.server, DEVICE, s.ops[h].report, uuid, now);
      && answer.Ok? && SingleDevice(d) && CI.Sound(d)
      && ApplyReports(Reports(s.ops)[..h + 1]).Some?
      && Shows(d, ApplyReports(Reports(s.ops)[..h + 1]).value)
  {
    var h := Head(s.ops);
    PrefixStep(Reports(s.ops), h);
    HeadKeyFree(s);
    ReportAccepted(s.server, ApplyReports(Reports(s.ops)[..h]).value, s.ops[h].report, uuid, now);
  }

  lemma HeadKeyFree(s: Sys)
    requires ServerOk(s) && ReportsOk(s) && Head(s.ops) < |s.ops| && AppliedCount(s) == Head(s.ops)
    ensures var report := s.ops[Head(s.ops)].report;
      report.Lifecycle? ==> S.IdemKey(DEVICE, report.change.operationId) !in s.server.idem
  {
    var h := Head(s.ops);
    var report := s.ops[h].report;
    if report.Lifecycle? {
      forall j | 0 <= j < h && s.ops[j].report.Lifecycle?
        ensures s.ops[j].report.change.operationId != report.change.operationId
      {
        assert Distinct(s.ops[j].report, report);
      }
      assert !KeyOfPrefix(s.ops, h, S.IdemKey(DEVICE, report.change.operationId));
    }
  }

  /** A registration touches one entry and no idempotency key. */
  lemma RegisterMarks(c: S.Catalog, req: RegisterRequest, uuid: S.FolderId)
    ensures var d := S.RegisterFile(c, DEVICE, req, uuid).0;
      && d.idem == c.idem
      && forall k <- d.entries :: k == S.EntryKey(DEVICE, req.localFileId) || (k in c.entries && d.entries[k] == c.entries[k])
  {
  }

  /** A lifecycle report adds no entry, keeps contents, and marks only its own key. */
  lemma LifecycleMarks(c: S.Catalog, rep: LifecycleReport, now: Time)
    ensures var d := S.ApplyLifecycle(c, DEVICE, rep, now).0;
      && (forall k <- d.entries :: k in c.entries && d.entries[k].obj == c.entries[k].obj)
      && (forall i <- d.idem :: i == S.IdemKey(DEVICE, rep.operationId) || (i in c.idem && d.idem[i] == c.idem[i]))
  {
    var k := S.EntryKey(DEVICE, rep.localFileId);
    if k in c.entries && S.NextEntry(c.entries, k, rep).Ok? && S.NextEntry(c.entries, k, rep).value != c.entries[k] {
      CI.NextEntryMoves(c.entries, k, rep);
      var d := S.ApplyLifecycle(c, DEVICE, rep, now).0;
      assert d == c || d.entries == c.entries[k := S.NextEntry(c.entries, k, rep).value];
    }
  }

  /** Handling one report marks no other report as applied. */
  lemma HandleMarks(c: S.Catalog, report: Report, other: Report, uuid: S.FolderId, now: Time)
    requires !report.Unsupported? && Distinct(report, other)
    ensures var d := Handle(c, DEVICE, report, uuid, now).0;
      Applied(d, DEVICE, other) ==> Applied(c, DEVICE, other)
  {
    if report.Registration? {
      RegisterMarks(c, report.request, uuid);
    } else {
      LifecycleMarks(c, report.change, now);
    }
  }

  lemma HandleKeys(c: S.Catalog, report: Report, uuid: S.FolderId, now: Time)
    requires !report.Unsupported?
    ensures var d := Handle(c, DEVICE, report, uuid, now).0;
      forall i <- d.idem :: i in c.idem || (report.Lifecycle? && i == S.IdemKey(DEVICE, report.change.operationId))
  {
  }

  /** Anything but the head's first arrival leaves the server as it was. */
  lemma DuplicateArrival(s: Sys, row: nat, uuid: S.FolderId, now: Time)
    requires ServerOk(s) && row < AppliedCount(s)
    ensures !s.ops[row].report.Unsupported?
    ensures Handle(s.server, DEVICE, s.ops[row].report, uuid, now)
         == (s.server, Ok(StoredAnswer(s.server, DEVICE, s.ops[row].report)))
  {
    assert Applied(s.server, DEVICE, s.ops[row].report);
    RedeliveryIsNoop(s.server, DEVICE, s.ops[row].report, uuid, now);
  }

  lemma ArriveMarks(s: Sys, t: Sys, h: nat, uuid: S.FolderId, now: Time)
    requires h < |s.ops| && !s.ops[h].report.Unsupported? && t.ops == s.ops
    requires forall i, j :: 0 <= i < j < |s.ops| ==> Distinct(s.ops[i].report, s.ops[j].report)
    requires forall i :: 0 <= i < |s.ops| ==> (i < h <==> Applied(s.server, DEVICE, s.ops[i].report))
    requires t.server == Handle(s.server, DEVICE, s.ops[h].report, uuid, now).0
    requires Applied(t.server, DEVICE, s.ops[h].report)
    ensures forall i :: 0 <= i < |t.ops| ==> (i < h + 1 <==> Applied(t.server, DEVICE, t.ops[i].report))
  {
    forall i | 0 <= i < |t.ops| ensures i < h + 1 <==> Applied(t.server, DEVICE, t.ops[i].report) {
      if i > h {
        LaterUnmarked(s.server, t.server, s.ops[h].report, s.ops[i].report, uuid, now);
      } else if i < h {
        HandleKeeps(s.server, s.ops[h].report, s.ops[i].report, uuid, now);
      }
    }
  }

  lemma LaterUnmarked(c: S.Catalog, d: S.Catalog, report: Report, other: Report, uuid: S.FolderId, now: Time)
    requires !report.Unsupported? && Distinct(report, other) && !Applied(c, DEVICE, other)
    requires d == Handle(c, DEVICE, report, uuid, now).0
    ensures !Applied(d, DEVICE, other)
  {
    HandleMarks(c, report, other, uuid, now);
  }

  lemma ArriveFirst(s: Sys, t: Sys, uuid: S.FolderId, now: Time)
    requires ViewOk(s) && ServerOk(s) && ReportsOk(s) && AppliedCount(s) == Head(s.ops) < |s.ops|
    requires t.ops == s.ops && !s.ops[Head(s.ops)].report.Unsupported?
    requires t.server == Handle(s.server, DEVICE, s.ops[Head(s.ops)].report, uuid, now).0
    ensures ServerOk(t) && AppliedCount(t) == Head(s.ops) + 1
    ensures Handle(s.server, DEVICE, s.ops[Head(s.ops)].report, uuid, now).1.Ok?
  {
    var h := Head(s.ops);
    ArriveShown(s, t, h, uuid, now);
    ArriveApplied(s, t, h, uuid, now);
    ServerOkAt(t, h + 1);
  }

  /** After the arrival of the head the server is sound and shows the longer prefix. */
  lemma ArriveShown(s: Sys, t: Sys, h: nat, uuid: S.FolderId, now: Time)
    requires ViewOk(s) && ServerOk(s) && ReportsOk(s) && AppliedCount(s) == h == Head(s.ops) < |s.ops|
    requires t.ops == s.ops && !s.ops[h].report.Unsupported?
    requires t.server == Handle(s.server, DEVICE, s.ops[h].report, uuid, now).0
    ensures Handle(s.server, DEVICE, s.ops[h].report, uuid, now).1.Ok? && SingleDevice(t.server) && CI.Sound(t.server)
    ensures ApplyReports(Reports(t.ops)[..h + 1]).Some? && Shows(t.server, ApplyReports(Reports(t.ops)[..h + 1]).value)
  {
    HeadAccepted(s, uuid, now);
  }

  /** The parts of ServerOk for a known number of applied reports. */
  lemma ServerOkAt(t: Sys, p: nat)
    requires p <= |t.ops| && (p == Head(t.ops) + 1 || p == AppliedCount(t)) && CI.Sound(t.server) && SingleDevice(t.server)
    requires ApplyReports(Reports(t.ops)[..p]).Some? && Shows(t.server, ApplyReports(Reports(t.ops)[..p]).value)
    requires forall i :: 0 <= i < |t.ops| ==> (i < p <==> Applied(t.server, DEVICE, t.ops[i].report))
    requires forall i <- t.server.idem :: KeyOfPrefix(t.ops, p, i)
    ensures AppliedCount(t) == p && ServerOk(t)
  {
    assert AppliedCount(t) == p;
  }

  /** After its arrival the head is the last applied report, and the idempotency keys say so. */
  lemma ArriveApplied(s: Sys, t: Sys, h: nat, uuid: S.FolderId, now: Time)
    requires ReportsOk(s) && ServerOk(s) && AppliedCount(s) == h == Head(s.ops) < |s.ops|
    requires t.ops == s.ops && !s.ops[h].report.Unsupported?
    requires t.server == Handle(s.server, DEVICE, s.ops[h].report, uuid, now).0
    requires Handle(s.server, DEVICE, s.ops[h].report, uuid, now).1.Ok?
    ensures forall i :: 0 <= i < |t.ops| ==> (i < h + 1 <==> Applied(t.server, DEVICE, t.ops[i].report))
    ensures forall i <- t.server.idem :: KeyOfPrefix(t.ops, h + 1, i)
  {
    HandleSettles(s.server, DEVICE, s.ops[h].report, uuid, now);
    ArriveMarks(s, t, h, uuid, now);
    HandleKeys(s.server, s.ops[h].report, uuid, now);
    ArriveKeys(s, t, h);
  }

  lemma HandleKeeps(c: S.Catalog, report: Report, other: Report, uuid: S.FolderId, now: Time)
    requires !report.Unsupported? && Applied(c, DEVICE, other)
    ensures Applied(Handle(c, DEVICE, report, uuid, now).0, DEVICE, other)
  {
    if report.Registration? {
      RegisterRetains(c, DEVICE, report.request, uuid);
    } else {
      LifecycleRetains(c, DEVICE, report.change, now);
    }
    RetainsApplied(c, Handle(c, DEVICE, report, uuid, now).0, DEVICE, other);
  }

  lemma ArriveKeys(s: Sys, t: Sys, h: nat)
    requires h < |s.ops| && t.ops == s.ops
    requires forall i <- s.server.idem :: KeyOfPrefix(s.ops, h, i)
    requires forall i <- t.server.idem ::
      i in s.server.idem || (s.ops[h].report.Lifecycle? && i == S.IdemKey(DEVICE, s.ops[h].report.change.operationId))
    ensures forall i <- t.server.idem :: KeyOfPrefix(t.ops, h + 1, i)
  {
    forall i | i in t.server.idem ensures KeyOfPrefix(t.ops, h + 1, i) {
      if i in s.server.idem {
        assert KeyOfPrefix(s.ops, h, i);
      }
    }
  }

  /** An arrival, first or repeated, is accepted, and what was applied stays applied. */
  lemma ArriveServer(s: Sys, row: nat, uuid: S.FolderId, now: Time)
    requires ViewOk(s) && ServerOk(s) && ReportsOk(s) && QueueOk(s) && row in s.sent
    ensures row < |s.ops| && !s.ops[row].report.Unsupported?
    ensures Handle(s.server, DEVICE, s.ops[row].report, uuid, now).1.Ok?
    ensures var d := Handle(s.server, DEVICE, s.ops[row].report, uuid, now).0;
      && ServerOk(s.(server := d)) && Applied(d, DEVICE, s.ops[row].report)
      && AppliedCount(s.(server := d)) >= AppliedCount(s)
  {
    assert WellFormed(s.ops[row].report);
    if row < AppliedCount(s) {
      DuplicateArrival(s, row, uuid, now);
      assert s.(server := s.server) == s;
    } else {
      FirstArrival(s, row, uuid, now);
    }
  }

  lemma FirstArrival(s: Sys, row: nat, uuid: S.FolderId, now: Time)
    requires ViewOk(s) && ServerOk(s) && ReportsOk(s) && AppliedCount(s) <= row <= Head(s.ops) < |s.ops|
    requires !s.ops[row].report.Unsupported?
    ensures Handle(s.server, DEVICE, s.ops[row].report, uuid, now).1.Ok?
    ensures var d := Handle(s.server, DEVICE, s.ops[row].report, uuid, now).0;
      && ServerOk(s.(server := d)) && Applied(d, DEVICE, s.ops[row].report)
      && AppliedCount(s.(server := d)) == row + 1
  {
    assert row == Head(s.ops) == AppliedCount(s);
    var d := Handle(s.server, DEVICE, s.ops[row].report, uuid, now).0;
    ArriveFirst(s, s.(server := d), uuid, now);
    HandleSettles(s.server, DEVICE, s.ops[row].report, uuid, now);
  }

  lemma ArriveInv(s: Sys, row: nat, uuid: S.FolderId, now: Time, heard: bool)
    requires Inv(s) && ArriveStep(s, row, uuid, now, heard).Some?
    ensures Inv(ArriveStep(s, row, uuid, now, heard).value)
    ensures Handle(s.server, DEVICE, s.ops[row].report, uuid, now).1.Ok?
  {
    var t := ArriveStep(s, row, uuid, now, heard).value;
    ArriveServer(s, row, uuid, now);
    var u := s.(server := t.server);
    ServerOkSame(u, t);
    ArriveQueue(s, t, row, heard);
    ArriveRest(s, t);
  }

  lemma ServerOkSame(s: Sys, t: Sys)
    requires ServerOk(s) && t == s.(awaiting := t.awaiting)
    ensures ServerOk(t)
  {
    assert AppliedCount(t) == AppliedCount(s);
  }

  lemma ArriveRest(s: Sys, t: Sys)
    requires StoreOk(s) && ReportsOk(s) && ViewOk(s) && PurgeOk(s)
    requires t == s.(server := t.server, awaiting := t.awaiting)
    ensures StoreOk(t) && ReportsOk(t) && ViewOk(t) && PurgeOk(t)
  {
  }

  lemma ArriveQueue(s: Sys, t: Sys, row: nat, heard: bool)
    requires QueueOk(s) && row < |s.ops| && t == s.(server := t.server, awaiting := t.awaiting)
    requires t.awaiting == if heard && s.awaiting == Waiting(row) then Answered(row, Accept) else s.awaiting
    requires Applied(t.server, DEVICE, s.ops[row].report)
    requires ServerOk(s) && ServerOk(t) && AppliedCount(t) >= AppliedCount(s)
    ensures QueueOk(t)
  {
  }

  lemma HearInv(s: Sys, delay: int, now: Time)
    requires Inv(s) && HearStep(s, delay, now).Some?
    ensures Inv(HearStep(s, delay, now).value)
  {
    var t := HearStep(s, delay, now).value;
    var h := Head(s.ops);
    HearHead(s, t, h);
    SameReportsKeep(s, t);
    ServerUntouched(s, t);
    HearQueue(s, t, h);
    HearPurge(s, t, h);
  }

  lemma HearHead(s: Sys, t: Sys, h: nat)
    requires QueueOk(s) && h == Head(s.ops) < |s.ops| && Applied(s.server, DEVICE, s.ops[h].report)
    requires t == WithStatus(s, h, s.ops[h].(status := Completed)).(awaiting := Quiet)
    ensures Head(t.ops) == h + 1 && AppliedCount(s) == h + 1
    ensures h + 1 == |t.ops| || !Applied(t.server, DEVICE, t.ops[h + 1].report) ==> AppliedCount(t) == h + 1
  {
    assert forall j :: 0 <= j <= h ==> Finished(t.ops[j]);
    HeadIs(t.ops, h + 1);
  }

  lemma HearQueue(s: Sys, t: Sys, h: nat)
    requires QueueOk(s) && h == Head(s.ops) < |s.ops| && Head(t.ops) == h + 1
    requires t == WithStatus(s, h, s.ops[h].(status := Completed)).(awaiting := Quiet)
    ensures QueueOk(t)
  {
  }

  lemma HearPurge(s: Sys, t: Sys, h: nat)
    requires PurgeOk(s) && h < |s.ops| && h in s.sent
    requires t == WithStatus(s, h, s.ops[h].(status := Completed)).(awaiting := Quiet)
    ensures PurgeOk(t)
  {
    forall i | 0 <= i < |t.ops| && t.ops[i].report.Lifecycle? && t.ops[i].report.change.action == Action.Purge
      ensures s.ops[i].report == t.ops[i].report && (Sendable(t, i) ==> Sendable(s, i))
    {
    }
  }

  // ---- Local transactions ----

  lemma {:induction false} ViewGrows(reports: seq<Report>, p: nat)
    requires p <= |reports| && ApplyReports(reports).Some?
    ensures ApplyReports(reports[..p]).Some?
    ensures ApplyReports(reports[..p]).value.Keys <= ApplyReports(reports).value.Keys
    decreases |reports|
  {
    PrefixApplies(reports, p);
    if p == |reports| {
      assert reports[..p] == reports;
    } else {
      var init := reports[..|reports| - 1];
      ViewGrows(init, p);
      assert init[..p] == reports[..p];
    }
  }

  /** A report with a new identity cannot have been applied. */
  lemma NewReportNotApplied(s: Sys, report: Report)
    requires ViewOk(s) && ServerOk(s) && report != Unsupported
    requires forall op <- s.ops :: Distinct(op.report, report)
    requires report.Registration? ==> report.request.localFileId !in s.used
    ensures !Applied(s.server, DEVICE, report)
  {
    var p := AppliedCount(s);
    if report.Registration? {
      ViewGrows(Reports(s.ops), p);
      assert Expected(s.store, s.used).Keys == s.used;
      assert report.request.localFileId !in ApplyReports(Reports(s.ops)[..p]).value;
    } else {
      forall j | 0 <= j < p && s.ops[j].report.Lifecycle?
        ensures s.ops[j].report.change.operationId != report.change.operationId
      {
        assert s.ops[j] in s.ops;
      }
      assert !KeyOfPrefix(s.ops, p, S.IdemKey(DEVICE, report.change.operationId));
    }
  }

  /** Only the queue grew, by one unfinished row. */
  ghost predicate Grown(s: Sys, t: Sys, report: Report) {
    && |t.ops| == |s.ops| + 1 && t.ops[..|s.ops|] == s.ops
    && t.ops[|s.ops|].report == report && !Finished(t.ops[|s.ops|])
    && t.server == s.server && t.sent == s.sent && t.awaiting == s.awaiting && t.phase == s.phase
  }

  lemma GrownHead(s: Sys, t: Sys, report: Report)
    requires Grown(s, t, report)
    ensures Head(t.ops) == Head(s.ops)
  {
    var h := Head(s.ops);
    forall j | 0 <= j < h ensures Finished(t.ops[j]) { assert t.ops[j] == s.ops[j]; }
    if h < |s.ops| { assert t.ops[h] == s.ops[h]; }
    HeadIs(t.ops, h);
  }

  lemma GrownQueue(s: Sys, t: Sys, report: Report)
    requires QueueOk(s) && Grown(s, t, report) && Head(t.ops) == Head(s.ops)
    ensures QueueOk(t)
  {
    assert forall i :: 0 <= i < |s.ops| ==> t.ops[i] == s.ops[i];
  }

  lemma GrownReports(s: Sys, t: Sys, report: Report)
    requires ReportsOk(s) && Grown(s, t, report) && WellFormed(report)
    requires forall op <- s.ops :: Distinct(op.report, report)
    ensures ReportsOk(t) && Reports(t.ops) == Reports(s.ops) + [report]
  {
    assert forall i :: 0 <= i < |s.ops| ==> t.ops[i] == s.ops[i] && s.ops[i] in s.ops;
    assert Reports(t.ops) == Reports(s.ops) + [report];
  }

  lemma GrownServer(s: Sys, t: Sys, report: Report)
    requires ServerOk(s) && Grown(s, t, report) && Head(t.ops) == Head(s.ops)
    requires Reports(t.ops) == Reports(s.ops) + [report] && !Applied(s.server, DEVICE, report)
    ensures ServerOk(t)
  {
    var p := AppliedCount(s);
    GrownCount(s, t, report);
    assert Reports(t.ops)[..p] == Reports(s.ops)[..p];
    forall i | i in t.server.idem ensures KeyOfPrefix(t.ops, p, i) {
      GrownKey(s.ops, t.ops, p, i);
    }
    GrownMarks(s, t, report, p);
    ServerOkAt(t, p);
  }

  lemma GrownMarks(s: Sys, t: Sys, report: Report, p: nat)
    requires Grown(s, t, report) && p <= |s.ops| && !Applied(s.server, DEVICE, report)
    requires forall i :: 0 <= i < |s.ops| ==> (i < p <==> Applied(s.server, DEVICE, s.ops[i].report))
    ensures forall i :: 0 <= i < |t.ops| ==> (i < p <==> Applied(t.server, DEVICE, t.ops[i].report))
  {
    forall i | 0 <= i < |t.ops| ensures i < p <==> Applied(t.server, DEVICE, t.ops[i].report) {
      if i < |s.ops| { assert t.ops[i] == s.ops[i]; }
    }
  }

  lemma GrownCount(s: Sys, t: Sys, report: Report)
    requires Grown(s, t, report) && Head(t.ops) == Head(s.ops) && !Applied(s.server, DEVICE, report)
    ensures AppliedCount(t) == AppliedCount(s)
  {
    var h := Head(s.ops);
    if h < |s.ops| { assert t.ops[h] == s.ops[h]; }
  }

  lemma GrownKey(ops: seq<Op>, more: seq<Op>, p: nat, key: S.IdemKey)
    requires p <= |ops| <= |more| && more[..|ops|] == ops && KeyOfPrefix(ops, p, key)
    ensures KeyOfPrefix(more, p, key)
  {
    var j :| 0 <= j < p && ops[j].report.Lifecycle? && key == S.IdemKey(DEVICE, ops[j].report.change.operationId);
    assert more[j] == ops[j];
  }

  /** A local transaction and the report it queues keep the two catalogs in step. */
  lemma Enqueued(s: Sys, t: Sys, report: Report)
    requires QueueOk(s) && ReportsOk(s) && ViewOk(s) && ServerOk(s) && Grown(s, t, report)
    requires WellFormed(report) && forall op <- s.ops :: Distinct(op.report, report)
    requires report.Registration? ==> report.request.localFileId !in s.used
    requires RowsSound(t.store, t.used)
    requires ApplyReport(Expected(s.store, s.used), report) == Some(Expected(t.store, t.used))
    ensures QueueOk(t) && ReportsOk(t) && ViewOk(t) && ServerOk(t)
  {
    GrownHead(s, t, report);
    GrownQueue(s, t, report);
    GrownReports(s, t, report);
    NewReportNotApplied(s, report);
    GrownServer(s, t, report);
    var reports := Reports(t.ops);
    assert reports[..|reports| - 1] == Reports(s.ops);
  }

  /** Purge reports are not disturbed when purging rows keep their status. */
  lemma GrownPurge(s: Sys, t: Sys, report: Report)
    requires PurgeOk(s) && Grown(s, t, report) && t.goal == None && s.phase == Up
    requires !(report.Lifecycle? && report.change.action == Action.Purge)
    requires t.carried == s.carried && s.used <= t.used && forall r <- s.sent :: r < |s.ops|
    requires forall id <- t.store.lan :: id in s.used ==> id in s.store.lan
    requires forall id <- t.store.lan :: id in s.store.lan && s.store.lan[id].status == Purging ==>
      t.store.lan[id].status == Purging
    ensures PurgeOk(t)
  {
    assert forall i :: 0 <= i < |s.ops| ==> t.ops[i] == s.ops[i];
  }

  /** A transaction on rows alone, whose live rows all point at READY objects. */
  lemma RowsStore(s: Sys, t: Sys)
    requires StoreOk(s) && s.todo == [] && t.todo == []
    requires t.store == s.store.(lan := t.store.lan)
    requires forall id <- t.store.lan ::
      t.store.lan[id].obj in s.store.objects
      && (t.store.lan[id].status != Purging ==> s.store.objects[t.store.lan[id].obj].status == Ready)
    ensures StoreOk(t)
  {
  }

  lemma DistinctOps(ops: seq<Op>, opId: OpId, rep: LifecycleReport)
    requires NewOpId(ops, opId) && rep.operationId == opId
    ensures forall op <- ops :: Distinct(op.report, Lifecycle(rep))
  {
  }

  /** A transaction on rows that queues a report other than a purge keeps the invariant. */
  lemma LocalInv(s: Sys, t: Sys, report: Report)
    requires Inv(s) && AtRest(s) && WellFormed(report) && !(report.Lifecycle? && report.change.action == Action.Purge)
    requires t == s.(store := s.store.(lan := t.store.lan), used := t.used, ops := s.ops + [NewOp(report, Pending)])
    requires forall op <- s.ops :: Distinct(op.report, report)
    requires report.Registration? ==> report.request.localFileId !in s.used
    requires RowsSound(t.store, t.used) && s.used <= t.used
    requires ApplyReport(Expected(s.store, s.used), report) == Some(Expected(t.store, t.used))
    requires RowsKept(s, t)
    ensures Inv(t)
  {
    RowsStore(s, t);
    Enqueued(s, t, report);
    GrownPurge(s, t, report);
  }

  /** Rows of known files are not new, stay purging if they were, and live ones point at READY objects. */
  ghost predicate RowsKept(s: Sys, t: Sys) {
    && (forall id <- t.store.lan :: id in s.used ==> id in s.store.lan)
    && (forall id <- t.store.lan :: id in s.store.lan && s.store.lan[id].status == Purging ==> t.store.lan[id].status == Purging)
    && (forall id <- t.store.lan ::
          && t.store.lan[id].obj in s.store.objects
          && (t.store.lan[id].status != Purging ==> s.store.objects[t.store.lan[id].obj].status == Ready))
  }

  lemma CreateInv(s: Sys, id: FileId, obj: Hash, name: Name, mime: Mime)
    requires Inv(s) && CreateStep(s, id, obj, name, mime).Some?
    ensures Inv(CreateStep(s, id, obj, name, mime).value)
  {
    var t := CreateStep(s, id, obj, name, mime).value;
    var report := t.ops[|s.ops|].report;
    CreateMatches(s.store, s.used, id, obj, name, report);
    RegistrationIsNew(s, id);
    LocalInv(s, t, report);
  }

  /** Every registration already queued is of a file id handed out before. */
  lemma RegistrationIsNew(s: Sys, id: FileId)
    requires ViewOk(s) && id !in s.used
    ensures forall op <- s.ops :: op.report.Registration? ==> op.report.request.localFileId != id
  {
    forall i | 0 <= i < |s.ops| && s.ops[i].report.Registration?
      ensures s.ops[i].report.request.localFileId in s.used
    {
      PrefixStep(Reports(s.ops), i);
      ViewGrows(Reports(s.ops), i + 1);
      assert Reports(s.ops)[i] == s.ops[i].report;
      assert Expected(s.store, s.used).Keys == s.used;
    }
  }

  lemma RenameInv(s: Sys, id: FileId, name: Name, opId: OpId)
    requires Inv(s) && RenameStep(s, id, name, opId).Some?
    ensures Inv(RenameStep(s, id, name, opId).value)
  {
    var t := RenameStep(s, id, name, opId).value;
    var rep := t.ops[|s.ops|].report.change;
    RenameMatches(s.store, s.used, id, name, rep);
    DistinctOps(s.ops, opId, rep);
    LocalInv(s, t, Lifecycle(rep));
  }

  lemma TrashInv(s: Sys, id: FileId, purgeAfter: Time, opId: OpId)
    requires Inv(s) && TrashStep(s, id, purgeAfter, opId).Some?
    ensures Inv(TrashStep(s, id, purgeAfter, opId).value)
  {
    var t := TrashStep(s, id, purgeAfter, opId).value;
    var rep := t.ops[|s.ops|].report.change;
    TrashMatches(s.store, s.used, id, purgeAfter, rep);
    DistinctOps(s.ops, opId, rep);
    LocalInv(s, t, Lifecycle(rep));
  }

  lemma RestoreInv(s: Sys, id: FileId, opId: OpId)
    requires Inv(s) && RestoreStep(s, id, opId).Some?
    ensures Inv(RestoreStep(s, id, opId).value)
  {
    var t := RestoreStep(s, id, opId).value;
    var rep := t.ops[|s.ops|].report.change;
    RestoreMatches(s.store, s.used, id, rep);
    DistinctOps(s.ops, opId, rep);
    LocalInv(s, t, Lifecycle(rep));
  }

  lemma BeginPurgeInv(s: Sys, id: FileId, opId: OpId)
    requires Inv(s) && BeginPurgeStep(s, id, opId).Some?
    ensures Inv(BeginPurgeStep(s, id, opId).value)
  {
    var t := BeginPurgeStep(s, id, opId).value;
    BeginPurgeStore(s, t, id);
    BeginPurgeQueued(s, t, id, opId);
    BeginPurgePurge(s, t, id);
  }

  lemma BeginPurgeStore(s: Sys, t: Sys, id: FileId)
    requires StoreOk(s) && s.todo == [] && BeginPurgeTx(s.store, id, OWNER) == Ok(t.store) && t.todo == PurgePlan(t.store, id)
    ensures StoreOk(t) && id !in ExecAll(t.store, t.todo).lan
  {
    RowsStore(s, t.(todo := []));
    PurgeSafe(t.store, id);
  }

  lemma BeginPurgeQueued(s: Sys, t: Sys, id: FileId, opId: OpId)
    requires QueueOk(s) && ReportsOk(s) && ViewOk(s) && ServerOk(s) && BeginPurgeStep(s, id, opId) == Some(t)
    ensures QueueOk(t) && ReportsOk(t) && ViewOk(t) && ServerOk(t)
  {
    var rep := t.ops[|s.ops|].report.change;
    PurgeMatches(s.store, s.used, id, rep);
    DistinctOps(s.ops, opId, rep);
    Enqueued(s, t, Lifecycle(rep));
  }

  lemma BeginPurgePurge(s: Sys, t: Sys, id: FileId)
    requires PurgeOk(s) && s.phase == Up && t.phase == Up && forall r <- s.sent :: r < |s.ops|
    requires |t.ops| == |s.ops| + 1 && t.ops[..|s.ops|] == s.ops && t.sent == s.sent && t.used == s.used
    requires IsPurgeOf(t.ops[|s.ops|].report, id) && t.ops[|s.ops|].status == Processing
    requires t.carried == s.carried && t.goal == Some(|s.ops|)
    requires id in s.used && id in s.store.lan && id in t.store.lan && t.store.lan[id].status == Purging
    requires t.store.lan == s.store.lan[id := t.store.lan[id]]
    requires id !in ExecAll(t.store, t.todo).lan
    ensures PurgeOk(t)
  {
    assert forall i :: 0 <= i < |s.ops| ==> t.ops[i] == s.ops[i];
  }
}
