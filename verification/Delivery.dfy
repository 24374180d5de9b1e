/** Why at-least-once delivery of the outbox has exactly-once effect on the catalog. */
module Delivery {
  import opened Base
  import opened Wire
  import opened ServerCatalog
  import CI = CatalogInvariants

  type Answer = Result<FileView, CatalogError>

  /** The server's handling of one delivered report. */
  function Handle(c: Catalog, device: DeviceId, report: Report, uuid: FolderId, now: Time): (Catalog, Answer)
    requires !report.Unsupported?
  {
    match report
    case Registration(request) => RegisterFile(c, device, request, uuid)
    case Lifecycle(change) => ApplyLifecycle(c, device, change, now)
  }

  /** The catalog already holds the effect of this report. */
  predicate Applied(c: Catalog, device: DeviceId, report: Report) {
    match report
    case Registration(request) =>
      && ValidRegistration(request) && EntryKey(device, request.localFileId) in c.entries
      && c.entries[EntryKey(device, request.localFileId)].obj == ObjectKey(request.sha256, request.size)
    case Lifecycle(change) =>
      && ValidOpId(change.operationId) && change.localFileId != NO_FILE
      && IdemKey(device, change.operationId) in c.idem
      && c.idem[IdemKey(device, change.operationId)].request == RequestHash(change)
    case Unsupported => false
  }

  /** The answer kept for a report that has been applied. */
  function StoredAnswer(c: Catalog, device: DeviceId, report: Report): FileView
    requires Applied(c, device, report)
  {
    match report
    case Registration(request) =>
      var k := EntryKey(device, request.localFileId);
      FileView(k, c.entries[k])
    case Lifecycle(change) => c.idem[IdemKey(device, change.operationId)].response
  }

  /** A success is remembered; a rejection leaves no trace. */
  lemma HandleSettles(c: Catalog, device: DeviceId, report: Report, uuid: FolderId, now: Time)
    requires !report.Unsupported?
    ensures var (d, answer) := Handle(c, device, report, uuid, now);
      match answer
      case Ok(view) => Applied(d, device, report) && StoredAnswer(d, device, report) == view
      case Err(_) => d == c
  {
  }

  /** Redelivering an applied report changes nothing and repeats the stored answer. */
  lemma RedeliveryIsNoop(c: Catalog, device: DeviceId, report: Report, uuid: FolderId, now: Time)
    requires Applied(c, device, report)
    ensures Handle(c, device, report, uuid, now) == (c, Ok(StoredAnswer(c, device, report)))
  {
  }

  /** A rejection does not depend on when the report arrives. */
  lemma RejectionIsStable(c: Catalog, device: DeviceId, report: Report, uuid: FolderId, now: Time, uuid': FolderId, now': Time)
    requires CI.Sound(c) && !report.Unsupported?
    requires Handle(c, device, report, uuid, now).1.Err?
    ensures Handle(c, device, report, uuid', now') == Handle(c, device, report, uuid, now)
  {
    HandleSettles(c, device, report, uuid, now);
    if report.Lifecycle? {
      LifecycleAnswerTimeless(c, device, report.change, now, now');
    } else {
      RegisterAnswerTimeless(c, device, report.request, uuid, uuid');
    }
  }

  lemma LifecycleAnswerTimeless(c: Catalog, device: DeviceId, rep: LifecycleReport, now: Time, now': Time)
    requires ApplyLifecycle(c, device, rep, now).1.Err?
    ensures ApplyLifecycle(c, device, rep, now') == ApplyLifecycle(c, device, rep, now)
  {
  }

  lemma RegisterAnswerTimeless(c: Catalog, device: DeviceId, req: RegisterRequest, uuid: FolderId, uuid': FolderId)
    requires CI.TreeSound(c) && RegisterFile(c, device, req, uuid).1.Err?
    ensures RegisterFile(c, device, req, uuid') == RegisterFile(c, device, req, uuid)
  {
    if c.root == None {
      assert c.entries == map[];
    }
  }

  /** Entries keep their content and completed operations their answers. */
  ghost predicate Retains(c: Catalog, d: Catalog) {
    && (forall k <- c.entries :: k in d.entries && d.entries[k].obj == c.entries[k].obj)
    && (forall i <- c.idem :: i in d.idem && d.idem[i] == c.idem[i])
  }

  lemma LifecycleRetains(c: Catalog, device: DeviceId, rep: LifecycleReport, now: Time)
    ensures Retains(c, ApplyLifecycle(c, device, rep, now).0)
  {
    var k := EntryKey(device, rep.localFileId);
    if k in c.entries && NextEntry(c.entries, k, rep).Ok? && NextEntry(c.entries, k, rep).value != c.entries[k] {
      CI.NextEntryMoves(c.entries, k, rep);
    }
  }

  lemma RegisterRetains(c: Catalog, device: DeviceId, req: RegisterRequest, uuid: FolderId)
    ensures Retains(c, RegisterFile(c, device, req, uuid).0)
  {
    RootRetains(c, uuid);
  }

  lemma MoveRetains(c: Catalog, folder: FolderId, ids: seq<EntryKey>)
    requires CI.NamesUnique(c)
    ensures Retains(c, Move(c, folder, ids).0)
  {
    if Move(c, folder, ids).1.Ok? { CI.MoveAllKeeps(c.entries, folder, ids); }
  }

  lemma CreateFolderRetains(c: Catalog, parent: Option<FolderId>, name: Name, uuid: FolderId, rootUuid: FolderId)
    ensures Retains(c, CreateFolder(c, parent, name, uuid, rootUuid).0)
  {
    RootRetains(c, rootUuid);
  }

  lemma RootRetains(c: Catalog, uuid: FolderId)
    ensures EnsureRoot(c, uuid).entries == c.entries && EnsureRoot(c, uuid).idem == c.idem
  {
  }

  lemma RenameFolderRetains(c: Catalog, f: FolderId, name: Name)
    ensures Retains(c, RenameFolder(c, f, name).0)
  {
  }

  lemma DeleteFolderRetains(c: Catalog, f: FolderId)
    ensures Retains(c, DeleteFolder(c, f).0)
  {
  }

  lemma ServeRetains(c: Catalog, call: Call)
    requires CI.NamesUnique(c)
    ensures Retains(c, Serve(c, call))
  {
    match call
    case CallRegister(device, request, uuid) => RegisterRetains(c, device, request, uuid);
    case CallLifecycle(device, report, now) => LifecycleRetains(c, device, report, now);
    case CallCreateFolder(parent, name, uuid, rootUuid) => CreateFolderRetains(c, parent, name, uuid, rootUuid);
    case CallRenameFolder(folder, name) => RenameFolderRetains(c, folder, name);
    case CallDeleteFolder(folder) => DeleteFolderRetains(c, folder);
    case CallMove(folder, ids) => MoveRetains(c, folder, ids);
  }

  /** Nothing anyone does later, on any device, undoes what an applied report left. */
  lemma AppliedForever(c: Catalog, device: DeviceId, report: Report, call: Call)
    requires CI.NamesUnique(c) && Applied(c, device, report)
    ensures Applied(Serve(c, call), device, report)
    ensures report.Lifecycle? ==>
      StoredAnswer(Serve(c, call), device, report) == StoredAnswer(c, device, report)
  {
    ServeRetains(c, call);
    RetainsApplied(c, Serve(c, call), device, report);
  }

  lemma RetainsApplied(c: Catalog, d: Catalog, device: DeviceId, report: Report)
    requires Retains(c, d) && Applied(c, device, report)
    ensures Applied(d, device, report)
    ensures report.Lifecycle? ==> StoredAnswer(d, device, report) == StoredAnswer(c, device, report)
  {
  }

  /** A late duplicate, after any run of other calls, is still a no-op. */
  lemma {:induction false} LateDuplicateIsNoop(
      c: Catalog, device: DeviceId, report: Report, calls: seq<Call>, uuid: FolderId, now: Time)
    requires CI.Sound(c) && Applied(c, device, report)
    ensures var d := ServeAll(c, calls);
      && Applied(d, device, report)
      && Handle(d, device, report, uuid, now) == (d, Ok(StoredAnswer(d, device, report)))
      && (report.Lifecycle? ==> StoredAnswer(d, device, report) == StoredAnswer(c, device, report))
    decreases |calls|
  {
    if calls == [] {
      RedeliveryIsNoop(c, device, report, uuid, now);
    } else {
      AppliedForever(c, device, report, calls[0]);
      CI.ServeSound(c, calls[0]);
      LateDuplicateIsNoop(Serve(c, calls[0]), device, report, calls[1..], uuid, now);
    }
  }

  // ---- Whole queues ----

  /** When one arrival of a report reaches the server. */
  datatype Arrival = Arrival(uuid: FolderId, now: Time)

  /** One report and all its arrivals: the first, then any number of repeats. */
  datatype Parcel = Parcel(report: Report, first: Arrival, repeats: seq<Arrival>)

  function Repeat(c: Catalog, device: DeviceId, report: Report, arrivals: seq<Arrival>): Catalog
    requires !report.Unsupported?
    decreases |arrivals|
  {
    if arrivals == [] then c
    else Repeat(Handle(c, device, report, arrivals[0].uuid, arrivals[0].now).0, device, report, arrivals[1..])
  }

  function DeliverOnce(c: Catalog, device: DeviceId, parcels: seq<Parcel>): Catalog
    requires forall p <- parcels :: !p.report.Unsupported?
    decreases |parcels|
  {
    if parcels == [] then c
    else
      var p := parcels[0];
      DeliverOnce(Handle(c, device, p.report, p.first.uuid, p.first.now).0, device, parcels[1..])
  }

  function DeliverMany(c: Catalog, device: DeviceId, parcels: seq<Parcel>): Catalog
    requires forall p <- parcels :: !p.report.Unsupported?
    decreases |parcels|
  {
    if parcels == [] then c
    else
      var p := parcels[0];
      DeliverMany(Repeat(c, device, p.report, [p.first] + p.repeats), device, parcels[1..])
  }

  /** Repeats after the first arrival change nothing, whether it was accepted or rejected. */
  lemma {:induction false} RepeatsAreNoops(
      c: Catalog, d: Catalog, device: DeviceId, report: Report, first: Arrival, repeats: seq<Arrival>)
    requires CI.Sound(c) && !report.Unsupported?
    requires d == Handle(c, device, report, first.uuid, first.now).0
    ensures Repeat(d, device, report, repeats) == d
    decreases |repeats|
  {
    if repeats != [] {
      HandleSettles(c, device, report, first.uuid, first.now);
      if Handle(c, device, report, first.uuid, first.now).1.Ok? {
        RedeliveryIsNoop(d, device, report, repeats[0].uuid, repeats[0].now);
      } else {
        RejectionIsStable(c, device, report, first.uuid, first.now, repeats[0].uuid, repeats[0].now);
      }
      RepeatsAreNoops(c, d, device, report, first, repeats[1..]);
    }
  }

  lemma HandleSound(c: Catalog, device: DeviceId, report: Report, uuid: FolderId, now: Time)
    requires CI.Sound(c) && !report.Unsupported?
    ensures CI.Sound(Handle(c, device, report, uuid, now).0)
  {
    match report
    case Registration(request) => CI.RegisterSound(c, device, request, uuid);
    case Lifecycle(change) => CI.LifecycleSound(c, device, change, now);
  }

  /**
   Delivering every report one or more times, in queue order and at any times, leaves the
   catalog that delivering each exactly once leaves.
   */
  lemma {:induction false} ExactlyOnceEffect(c: Catalog, device: DeviceId, parcels: seq<Parcel>)
    requires CI.Sound(c) && forall p <- parcels :: !p.report.Unsupported?
    ensures DeliverMany(c, device, parcels) == DeliverOnce(c, device, parcels)
    decreases |parcels|
  {
    if parcels != [] {
      var p := parcels[0];
      var d := Handle(c, device, p.report, p.first.uuid, p.first.now).0;
      var all := [p.first] + p.repeats;
      assert all[1..] == p.repeats;
      assert Repeat(c, device, p.report, all) == Repeat(d, device, p.report, p.repeats);
      RepeatsAreNoops(c, d, device, p.report, p.first, p.repeats);
      HandleSound(c, device, p.report, p.first.uuid, p.first.now);
      ExactlyOnceEffect(d, device, parcels[1..]);
    }
  }
}
