/**
 The abstract catalog both sides are compared through: for every file id, a name and
 whether it is in the trash, or that the file is gone.
 */
module CatalogView {
  import opened Base
  import opened Wire
  import opened LocalStore
  import S = ServerCatalog
  import CI = CatalogInvariants
  import opened Delivery
  import opened AgentSystem

  datatype FileState = Live(name: Name, normalized: Name, trashed: bool) | Gone

  type View = map<FileId, FileState>

  /** An active file other than `except` already has this normalised name. */
  predicate Taken(v: View, normalized: Name, except: Option<FileId>) {
    exists id <- v :: v[id].Live? && !v[id].trashed && v[id].normalized == normalized && Some(id) != except
  }

  /** What a report asks of the catalog, and when it may. */
  function ApplyReport(v: View, report: Report): Option<View> {
    match report
    case Registration(req) =>
      if req.localFileId in v || NormalizeName(req.name) == None
         || Taken(v, NormalizeName(req.name).value, None) then None
      else Some(v[req.localFileId := Live(req.name, NormalizeName(req.name).value, false)])
    case Lifecycle(rep) =>
      if rep.localFileId !in v then None
      else
        var id, f := rep.localFileId, v[rep.localFileId];
        (match rep.action
         case Rename =>
           if f.Gone? || f.trashed || NormalizeName(rep.name) == None
              || Taken(v, NormalizeName(rep.name).value, Some(id)) then None
           else Some(v[id := Live(rep.name, NormalizeName(rep.name).value, false)])
         case Trash =>
           if f.Gone? || f.trashed then None else Some(v[id := f.(trashed := true)])
         case Restore =>
           if f.Gone? || !f.trashed || Taken(v, f.normalized, None) then None
           else Some(v[id := f.(trashed := false)])
         case Purge =>
           if f.Gone? then Some(v) else if !f.trashed then None else Some(v[id := Gone])
         case OtherAction => None)
    case Unsupported => None
  }

  function ApplyReports(reports: seq<Report>): Option<View> {
    if reports == [] then Some(map[])
    else match ApplyReports(reports[..|reports| - 1])
      case None => None
      case Some(v) => ApplyReport(v, reports[|reports| - 1])
  }

  lemma {:induction false} PrefixApplies(reports: seq<Report>, k: nat)
    requires k <= |reports| && ApplyReports(reports).Some?
    ensures ApplyReports(reports[..k]).Some?
    decreases |reports|
  {
    if k == |reports| {
      assert reports[..k] == reports;
    } else {
      var init := reports[..|reports| - 1];
      PrefixApplies(init, k);
      assert init[..k] == reports[..k];
    }
  }

  // ---- The local side ----

  function LocalState(lan: map<FileId, LanFile>, id: FileId): FileState {
    if id !in lan || lan[id].status == Purging then Gone
    else Live(lan[id].name, lan[id].normalized, lan[id].status == Trashed)
  }

  /** What the server should come to show of the local catalog. */
  function Expected(store: Store, used: set<FileId>): View {
    map id | id in used :: LocalState(store.lan, id)
  }

  /** Rows belong to the account, carry normalised names, and active names are unique. */
  ghost predicate RowsSound(store: Store, used: set<FileId>) {
    && S.NO_FILE !in used
    && (forall id <- store.lan :: id in used && store.lan[id].owner == OWNER
          && NormalizeName(store.lan[id].name) == Some(store.lan[id].normalized))
    && (forall i, j :: i in store.lan && j in store.lan && i != j
          && store.lan[i].status == Active && store.lan[j].status == Active
          ==> store.lan[i].normalized != store.lan[j].normalized)
  }

  lemma NameInUseIsTaken(store: Store, used: set<FileId>, normalized: Name, except: Option<FileId>)
    requires RowsSound(store, used)
    ensures NameInUse(store, OWNER, normalized, except) == Taken(Expected(store, used), normalized, except)
  {
    var v := Expected(store, used);
    if NameInUse(store, OWNER, normalized, except) {
      var id :| id in store.lan && store.lan[id].owner == OWNER && store.lan[id].normalized == normalized
        && store.lan[id].status == Active && Some(id) != except;
      assert id in v && v[id].Live?;
    }
    if Taken(v, normalized, except) {
      var id :| id in v && v[id].Live? && !v[id].trashed && v[id].normalized == normalized && Some(id) != except;
      assert id in store.lan;
    }
  }

  lemma CreateMatches(store: Store, used: set<FileId>, id: FileId, obj: Hash, name: Name, report: Report)
    requires RowsSound(store, used) && id !in used && id != S.NO_FILE && NormalizeName(name).Some?
    requires CreateTx(store, id, OWNER, obj, name, NormalizeName(name).value).Ok?
    requires report.Registration? && report.request.localFileId == id && report.request.name == name
    ensures var store' := CreateTx(store, id, OWNER, obj, name, NormalizeName(name).value).value;
      && RowsSound(store', used + {id})
      && ApplyReport(Expected(store, used), report) == Some(Expected(store', used + {id}))
  {
    var normalized := NormalizeName(name).value;
    var store' := CreateTx(store, id, OWNER, obj, name, normalized).value;
    NameInUseIsTaken(store, used, normalized, None);
    assert Expected(store, used)[id := Live(name, normalized, false)] == Expected(store', used + {id});
  }

  lemma RenameMatches(store: Store, used: set<FileId>, id: FileId, name: Name, rep: LifecycleReport)
    requires RowsSound(store, used) && NormalizeName(name).Some?
    requires RenameTx(store, id, OWNER, name, NormalizeName(name).value).Ok?
    requires rep.localFileId == id && rep.action == Action.Rename && rep.name == name
    ensures var store' := RenameTx(store, id, OWNER, name, NormalizeName(name).value).value;
      RowsSound(store', used) && ApplyReport(Expected(store, used), Lifecycle(rep)) == Some(Expected(store', used))
  {
    var normalized := NormalizeName(name).value;
    var store' := RenameTx(store, id, OWNER, name, normalized).value;
    NameInUseIsTaken(store, used, normalized, Some(id));
    assert Expected(store, used)[id := Live(name, normalized, false)] == Expected(store', used);
  }

  lemma TrashMatches(store: Store, used: set<FileId>, id: FileId, purgeAfter: Time, rep: LifecycleReport)
    requires RowsSound(store, used) && TrashTx(store, id, OWNER, purgeAfter).Ok?
    requires rep.localFileId == id && rep.action == Action.Trash
    ensures var store' := TrashTx(store, id, OWNER, purgeAfter).value;
      RowsSound(store', used) && ApplyReport(Expected(store, used), Lifecycle(rep)) == Some(Expected(store', used))
  {
    var store' := TrashTx(store, id, OWNER, purgeAfter).value;
    var v := Expected(store, used);
    assert v[id := v[id].(trashed := true)] == Expected(store', used);
  }

  lemma RestoreMatches(store: Store, used: set<FileId>, id: FileId, rep: LifecycleReport)
    requires RowsSound(store, used) && RestoreTx(store, id, OWNER).Ok?
    requires rep.localFileId == id && rep.action == Action.Restore
    ensures var store' := RestoreTx(store, id, OWNER).value;
      RowsSound(store', used) && ApplyReport(Expected(store, used), Lifecycle(rep)) == Some(Expected(store', used))
  {
    var store' := RestoreTx(store, id, OWNER).value;
    var v := Expected(store, used);
    NameInUseIsTaken(store, used, store.lan[id].normalized, None);
    assert v[id := v[id].(trashed := false)] == Expected(store', used);
  }

  lemma PurgeMatches(store: Store, used: set<FileId>, id: FileId, rep: LifecycleReport)
    requires RowsSound(store, used) && BeginPurgeTx(store, id, OWNER).Ok?
    requires rep.localFileId == id && rep.action == Action.Purge
    ensures var store' := BeginPurgeTx(store, id, OWNER).value;
      RowsSound(store', used) && ApplyReport(Expected(store, used), Lifecycle(rep)) == Some(Expected(store', used))
  {
    var store' := BeginPurgeTx(store, id, OWNER).value;
    var v := Expected(store, used);
    assert v[id := Gone] == Expected(store', used);
    if v[id].Gone? { assert v[id := Gone] == v; }
  }

  // ---- The server side ----

  function EntryState(e: S.Entry): FileState {
    if e.status == S.Purged then Gone else Live(e.name, e.normalized, e.status == S.Trashed)
  }

  /** The server shows exactly this view of the device's files. */
  ghost predicate Shows(c: S.Catalog, v: View) {
    && (forall id :: id in v <==> S.EntryKey(DEVICE, id) in c.entries)
    && (forall id <- v :: EntryState(c.entries[S.EntryKey(DEVICE, id)]) == v[id])
  }

  /** Only this device has ever reported anything, and nobody moved its files. */
  ghost predicate SingleDevice(c: S.Catalog) {
    && (forall k <- c.entries :: k.device == DEVICE && Some(c.entries[k].folder) == c.root)
    && (forall r <- c.replicas :: r.device == DEVICE &&
          (c.replicas[r].clientFileId.Some? ==>
             var k := S.EntryKey(DEVICE, c.replicas[r].clientFileId.value);
             k in c.entries && c.entries[k].obj == r.obj))
  }

  lemma NameTakenIsTaken(c: S.Catalog, v: View, normalized: Name, except: Option<FileId>)
    requires Shows(c, v) && SingleDevice(c) && c.root.Some?
    ensures S.NameTaken(c.entries, c.root.value, normalized, if except == None then None else Some(S.EntryKey(DEVICE, except.value)))
         == Taken(v, normalized, except)
  {
    var ek := if except == None then None else Some(S.EntryKey(DEVICE, except.value));
    if S.NameTaken(c.entries, c.root.value, normalized, ek) {
      var k :| k in c.entries && c.entries[k].folder == c.root.value && c.entries[k].normalized == normalized
        && c.entries[k].status == S.Active && Some(k) != ek;
      assert k == S.EntryKey(DEVICE, k.localId) && k.localId in v;
      assert EntryState(c.entries[k]) == v[k.localId];
    }
    if Taken(v, normalized, except) {
      var id :| id in v && v[id].Live? && !v[id].trashed && v[id].normalized == normalized && Some(id) != except;
      assert S.EntryKey(DEVICE, id) in c.entries;
    }
  }

  /** The fields of a report pass the server's input checks. */
  predicate WellFormed(report: Report) {
    match report
    case Registration(req) => S.ValidRegistration(req) && TrimSpace(req.name) == req.name
    case Lifecycle(rep) =>
      && S.ValidOpId(rep.operationId) && rep.localFileId != S.NO_FILE
      && (rep.action == Action.Rename ==> ServerValid(rep.name))
    case Unsupported => false
  }

  /** Both relations survive when one of the device's entries takes a new value. */
  lemma EntryUpdated(c: S.Catalog, d: S.Catalog, v: View, id: FileId, e: S.Entry)
    requires SingleDevice(c) && Shows(c, v)
    requires d.entries == c.entries[S.EntryKey(DEVICE, id) := e] && Some(e.folder) == d.root
    requires c.root.Some? ==> d.root == c.root
    requires S.EntryKey(DEVICE, id) in c.entries ==> c.entries[S.EntryKey(DEVICE, id)].obj == e.obj
    requires forall r <- d.replicas :: r.device == DEVICE
    requires forall r <- d.replicas ::
      (r in c.replicas && d.replicas[r].clientFileId == c.replicas[r].clientFileId)
      || (r.obj == e.obj && d.replicas[r].clientFileId == Some(id))
    ensures SingleDevice(d) && Shows(d, v[id := EntryState(e)])
  {
    var k := S.EntryKey(DEVICE, id);
    forall l | l in d.entries ensures l.device == DEVICE && Some(d.entries[l].folder) == d.root {
      if l != k { assert l in c.entries; }
    }
  }

  lemma RegisterFree(c: S.Catalog, v: View, req: RegisterRequest, uuid: S.FolderId)
    requires CI.TreeSound(c) && SingleDevice(c) && Shows(c, v)
    requires ApplyReport(v, Registration(req)).Some?
    ensures S.EntryKey(DEVICE, req.localFileId) !in c.entries
    ensures c.root == None ==> uuid !in c.folders
    ensures var root := S.EnsureRoot(c, uuid).root.value;
      !S.NameTaken(c.entries, root, NormalizeName(req.name).value, None)
    ensures !S.ClientIdTaken(c.replicas, DEVICE, req.localFileId, S.ReplicaKey(S.ObjectKey(req.sha256, req.size), DEVICE))
  {
    if c.root.Some? {
      NameTakenIsTaken(c, v, NormalizeName(req.name).value, None);
    }
  }

  lemma RegisterOutcome(c: S.Catalog, req: RegisterRequest, uuid: S.FolderId)
    requires WellFormed(Registration(req)) && S.EntryKey(DEVICE, req.localFileId) !in c.entries
    requires c.root == None ==> uuid !in c.folders
    requires !S.NameTaken(c.entries, S.EnsureRoot(c, uuid).root.value, NormalizeName(req.name).value, None)
    requires !S.ClientIdTaken(c.replicas, DEVICE, req.localFileId, S.ReplicaKey(S.ObjectKey(req.sha256, req.size), DEVICE))
    ensures var (d, answer) := S.RegisterFile(c, DEVICE, req, uuid);
      var obj := S.ObjectKey(req.sha256, req.size);
      var e := S.Entry(d.root.value, obj, req.name, NormalizeName(req.name).value, S.Active, 1);
      && answer.Ok? && d.root == S.EnsureRoot(c, uuid).root
      && d.entries == c.entries[S.EntryKey(DEVICE, req.localFileId) := e]
      && S.ReplicaKey(obj, DEVICE) in d.replicas
      && d.replicas[S.ReplicaKey(obj, DEVICE)].clientFileId == Some(req.localFileId)
      && d.replicas == c.replicas[S.ReplicaKey(obj, DEVICE) := d.replicas[S.ReplicaKey(obj, DEVICE)]]
  {
  }

  lemma RegisterAccepted(c: S.Catalog, v: View, req: RegisterRequest, uuid: S.FolderId)
    requires CI.TreeSound(c) && SingleDevice(c) && Shows(c, v) && WellFormed(Registration(req))
    requires ApplyReport(v, Registration(req)).Some?
    ensures var (d, answer) := S.RegisterFile(c, DEVICE, req, uuid);
      answer.Ok? && SingleDevice(d) && Shows(d, ApplyReport(v, Registration(req)).value)
  {
    RegisterFree(c, v, req, uuid);
    RegisterOutcome(c, req, uuid);
    var d := S.RegisterFile(c, DEVICE, req, uuid).0;
    EntryUpdated(c, d, v, req.localFileId, d.entries[S.EntryKey(DEVICE, req.localFileId)]);
  }

  /** The server's transition does to the entry what the abstract report does to the view. */
  lemma NextEntryMatches(c: S.Catalog, v: View, rep: LifecycleReport)
    requires SingleDevice(c) && Shows(c, v) && WellFormed(Lifecycle(rep))
    requires ApplyReport(v, Lifecycle(rep)).Some?
    ensures var k := S.EntryKey(DEVICE, rep.localFileId);
      && k in c.entries && S.NextEntry(c.entries, k, rep).Ok?
      && (var after := S.NextEntry(c.entries, k, rep).value;
          && after.folder == c.entries[k].folder && after.obj == c.entries[k].obj
          && ApplyReport(v, Lifecycle(rep)).value == v[rep.localFileId := EntryState(after)])
  {
    var k := S.EntryKey(DEVICE, rep.localFileId);
    assert k in c.entries && Some(c.entries[k].folder) == c.root;
    assert EntryState(c.entries[k]) == v[rep.localFileId];
    if rep.action == Action.Rename {
      NameTakenIsTaken(c, v, NormalizeName(rep.name).value, Some(rep.localFileId));
    } else if rep.action == Action.Restore {
      NameTakenIsTaken(c, v, c.entries[k].normalized, Some(rep.localFileId));
      TakenByOthers(v, rep.localFileId);
    } else if rep.action == Action.Purge && v[rep.localFileId].Gone? {
      assert v[rep.localFileId := Gone] == v;
    }
  }

  /** A file in the trash takes no name, so leaving it out changes nothing. */
  lemma TakenByOthers(v: View, id: FileId)
    requires id in v && v[id].Live? && v[id].trashed
    ensures Taken(v, v[id].normalized, None) == Taken(v, v[id].normalized, Some(id))
  {
    if Taken(v, v[id].normalized, None) {
      var other :| other in v && v[other].Live? && !v[other].trashed && v[other].normalized == v[id].normalized;
      assert Some(other) != Some(id);
    }
  }

  lemma LifecycleAccepted(c: S.Catalog, v: View, rep: LifecycleReport, now: Time)
    requires SingleDevice(c) && Shows(c, v) && WellFormed(Lifecycle(rep))
    requires S.IdemKey(DEVICE, rep.operationId) !in c.idem
    requires ApplyReport(v, Lifecycle(rep)).Some?
    ensures var (d, answer) := S.ApplyLifecycle(c, DEVICE, rep, now);
      answer.Ok? && SingleDevice(d) && Shows(d, ApplyReport(v, Lifecycle(rep)).value)
  {
    NextEntryMatches(c, v, rep);
    LifecycleEntries(c, rep, now);
    var k := S.EntryKey(DEVICE, rep.localFileId);
    EntryUpdated(c, S.ApplyLifecycle(c, DEVICE, rep, now).0, v, rep.localFileId, S.NextEntry(c.entries, k, rep).value);
  }

  /** What a new report does to the entries and the folders. */
  lemma LifecycleEntries(c: S.Catalog, rep: LifecycleReport, now: Time)
    requires WellFormed(Lifecycle(rep)) && S.IdemKey(DEVICE, rep.operationId) !in c.idem
    requires var k := S.EntryKey(DEVICE, rep.localFileId); k in c.entries && S.NextEntry(c.entries, k, rep).Ok?
    ensures var k := S.EntryKey(DEVICE, rep.localFileId);
      var (d, answer) := S.ApplyLifecycle(c, DEVICE, rep, now);
      answer.Ok? && d.root == c.root && d.entries == c.entries[k := S.NextEntry(c.entries, k, rep).value]
  {
    var k := S.EntryKey(DEVICE, rep.localFileId);
    assert c.entries[k := c.entries[k]] == c.entries;
  }
}
