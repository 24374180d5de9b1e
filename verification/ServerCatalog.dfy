/** The account-wide catalog of the control plane: one account's rows, one call at a time. */
module ServerCatalog {
  import opened Base
  import opened Wire

  type FolderId(==, 0, !new)

  // Input checks whose details do not matter here.

  /** 1 to 64 bytes. */
  const ValidFileId: FileId -> bool
  /** 1 to 128 bytes. */
  const ValidOpId: OpId -> bool
  /** 64 lower-case hexadecimal digits. */
  const ValidHash: Hash -> bool
  /** An http(s) URL without credentials, query or fragment, trailing slashes removed. */
  const CleanEndpoint: Endpoint -> Option<Endpoint>
  /** SHA-256 of the JSON form of a report. */
  const RequestHash: LifecycleReport -> Hash

  const FILES: Name
  const NO_FILE: FileId
  const NO_MIME: Mime
  const MAX_NAME := 255
  const MAX_MOVES := 500
  const CHUNK := 4194304
  const WEEK := 7 * 24 * 3600

  datatype Folder = Folder(parent: Option<FolderId>, name: Name, normalized: Name, active: bool, version: nat)

  datatype EntryStatus = Active | Trashed | Purged

  /** Entries are named by the unique (origin device, client file id) pair. */
  datatype EntryKey = EntryKey(device: DeviceId, localId: FileId)

  datatype ObjectKey = ObjectKey(sha256: Hash, size: int)

  datatype FileObject = FileObject(mime: Mime, chunkCount: nat)

  datatype Entry = Entry(
    folder: FolderId, obj: ObjectKey, name: Name, normalized: Name, status: EntryStatus, version: nat)

  datatype ReplicaKey = ReplicaKey(obj: ObjectKey, device: DeviceId)

  datatype ReplicaState = ReplicaPending | ReplicaReady | ReplicaDeleted

  datatype Replica = Replica(
    state: ReplicaState, size: int, endpoint: Option<Endpoint>, clientFileId: Option<FileId>, version: nat)

  datatype TrashStatus = InTrash | TrashPurged

  datatype TrashRecord = TrashRecord(folder: FolderId, name: Name, purgeAfter: Time, status: TrashStatus)

  datatype EventKind = FileRegistered | FileRenamed | FileTrashed | FileRestored | FilePurged

  datatype Event = Event(seq_: int, kind: EventKind, entity: EntryKey, version: nat)

  datatype FileView = FileView(key: EntryKey, entry: Entry)

  datatype IdemKey = IdemKey(device: DeviceId, operation: OpId)

  datatype Idem = Idem(request: Hash, response: FileView)

  datatype CommandKey = CommandKey(device: DeviceId, operation: OpId)

  datatype Command = Command(action: Action, name: Name, purgeAfter: Option<Time>, localFileId: FileId)

  datatype Catalog = Catalog(
    folders: map<FolderId, Folder>,
    root: Option<FolderId>,              // the active top-level folder called Files
    entries: map<EntryKey, Entry>,
    objects: map<ObjectKey, FileObject>,
    replicas: map<ReplicaKey, Replica>,
    trash: map<EntryKey, TrashRecord>,
    events: seq<Event>,
    idem: map<IdemKey, Idem>,            // completed keys only
    commands: map<CommandKey, Command>)

  function EmptyCatalog(): Catalog {
    Catalog(map[], None, map[], map[], map[], map[], [], map[], map[])
  }

  datatype CatalogError =
    | InvalidRequest | FileNotFound | NameConflict | InvalidState
    | FolderNotFound | FolderNotEmpty | Internal

  /** The unique index on active entries of one folder. */
  predicate NameTaken(entries: map<EntryKey, Entry>, folder: FolderId, normalized: Name, except: Option<EntryKey>) {
    exists k <- entries ::
      && entries[k].folder == folder && entries[k].normalized == normalized
      && entries[k].status == Active && Some(k) != except
  }

  /** The unique index on active sub-folders of one folder. */
  predicate FolderNameTaken(folders: map<FolderId, Folder>, parent: FolderId, normalized: Name, except: Option<FolderId>) {
    exists f <- folders ::
      && folders[f].parent == Some(parent) && folders[f].normalized == normalized
      && folders[f].active && Some(f) != except
  }

  /** The unique index on the client file ids of one device's undeleted replicas. */
  predicate ClientIdTaken(replicas: map<ReplicaKey, Replica>, device: DeviceId, localId: FileId, except: ReplicaKey) {
    exists r <- replicas ::
      && r.device == device && replicas[r].clientFileId == Some(localId)
      && replicas[r].state != ReplicaDeleted && r != except
  }

  function MaxSeq(events: seq<Event>): int {
    if events == [] then 0
    else var m := MaxSeq(events[..|events| - 1]); var e := events[|events| - 1]; if e.seq_ > m then e.seq_ else m
  }

  function AppendEvent(events: seq<Event>, kind: EventKind, key: EntryKey, version: nat): seq<Event> {
    events + [Event(MaxSeq(events) + 1, kind, key, version)]
  }

  function EnsureRoot(c: Catalog, uuid: FolderId): Catalog {
    if c.root.Some? then c
    else c.(folders := c.folders[uuid := Folder(None, FILES, FILES, true, 1)], root := Some(uuid))
  }

  function ChunkCount(size: int): int {
    var n := (size + (CHUNK - 1)) / CHUNK;
    if n < 1 then 1 else n
  }

  function UpsertObject(objects: map<ObjectKey, FileObject>, key: ObjectKey, mime: Mime): map<ObjectKey, FileObject>
    requires key.size >= 0
  {
    if key in objects then objects[key := objects[key].(mime := if mime == NO_MIME then objects[key].mime else mime)]
    else objects[key := FileObject(mime, ChunkCount(key.size))]
  }

  function UpsertReplica(replicas: map<ReplicaKey, Replica>, key: ReplicaKey, endpoint: Endpoint, localId: FileId)
    : map<ReplicaKey, Replica>
  {
    var version := if key in replicas then replicas[key].version + 1 else 1;
    replicas[key := Replica(ReplicaReady, key.obj.size, Some(endpoint), Some(localId), version)]
  }

  predicate ValidRegistration(req: RegisterRequest) {
    && ValidFileId(req.localFileId)
    && ByteLength(TrimSpace(req.name)) <= MAX_NAME && NormalizeName(TrimSpace(req.name)).Some?
    && req.size >= 0 && ValidHash(req.sha256)
    && CleanEndpoint(req.endpoint).Some?
  }

  /** RegisterVerifiedFile; `uuid` is the id a new root folder would get. */
  function RegisterFile(c: Catalog, device: DeviceId, req: RegisterRequest, uuid: FolderId)
    : (Catalog, Result<FileView, CatalogError>)
  {
    var k := EntryKey(device, req.localFileId);
    var obj := ObjectKey(req.sha256, req.size);
    if !ValidRegistration(req) then (c, Err(InvalidRequest))
    else if k in c.entries then
      if c.entries[k].obj != obj then (c, Err(InvalidRequest)) else (c, Ok(FileView(k, c.entries[k])))
    else if c.root == None && uuid in c.folders then (c, Err(Internal))
    else
      var c1 := EnsureRoot(c, uuid);
      var name := TrimSpace(req.name);
      var normalized := NormalizeName(name).value;
      var r := ReplicaKey(obj, device);
      if NameTaken(c1.entries, c1.root.value, normalized, None) then (c, Err(NameConflict))
      else if ClientIdTaken(c.replicas, device, req.localFileId, r) then (c, Err(Internal))
      else
        var entry := Entry(c1.root.value, obj, name, normalized, Active, 1);
        (c1.(objects := UpsertObject(c.objects, obj, req.mime),
             entries := c.entries[k := entry],
             replicas := UpsertReplica(c.replicas, r, CleanEndpoint(req.endpoint).value, req.localFileId),
             events := AppendEvent(c.events, FileRegistered, k, 1)),
         Ok(FileView(k, entry)))
  }

  /** The entry after a lifecycle report; the same entry when the report changes nothing. */
  function NextEntry(entries: map<EntryKey, Entry>, k: EntryKey, rep: LifecycleReport): Result<Entry, CatalogError>
    requires k in entries
  {
    var e := entries[k];
    match rep.action
    case Rename =>
      var name := TrimSpace(rep.name);
      if e.status != Active then Err(InvalidState)
      else if NormalizeName(name) == None || ByteLength(name) > MAX_NAME then Err(InvalidRequest)
      else if NameTaken(entries, e.folder, NormalizeName(name).value, Some(k)) then Err(NameConflict)
      else Ok(e.(name := name, normalized := NormalizeName(name).value, version := e.version + 1))
    case Trash =>
      if e.status == Trashed then Ok(e)
      else if e.status != Active then Err(InvalidState)
      else Ok(e.(status := Trashed, version := e.version + 1))
    case Restore =>
      if e.status == Active then Ok(e)
      else if e.status != Trashed then Err(InvalidState)
      else if NameTaken(entries, e.folder, e.normalized, Some(k)) then Err(NameConflict)
      else Ok(e.(status := Active, version := e.version + 1))
    case Purge =>
      if e.status == Purged then Ok(e)
      else if e.status != Trashed then Err(InvalidState)
      else Ok(e.(status := Purged, version := e.version + 1))
    case OtherAction => Err(InvalidRequest)
  }

  /** The trash records after a report that changed the entry. */
  function NextTrash(trash: map<EntryKey, TrashRecord>, k: EntryKey, e: Entry, rep: LifecycleReport, now: Time)
    : map<EntryKey, TrashRecord>
  {
    match rep.action
    case Trash =>
      var purgeAfter := if rep.purgeAfter.Some? then rep.purgeAfter.value else now + WEEK;
      if k in trash then trash[k := trash[k].(purgeAfter := purgeAfter, status := InTrash)]
      else trash[k := TrashRecord(e.folder, e.name, purgeAfter, InTrash)]
    case Restore => trash - {k}
    case Purge => if k in trash then trash[k := trash[k].(status := TrashPurged)] else trash
    case _ => trash
  }

  /** The replicas after a report that changed the entry: a purge takes the device's copy. */
  function NextReplicas(replicas: map<ReplicaKey, Replica>, r: ReplicaKey, action: Action): map<ReplicaKey, Replica> {
    if action == Purge && r in replicas
    then replicas[r := replicas[r].(state := ReplicaDeleted, version := replicas[r].version + 1)]
    else replicas
  }

  /** One command for every other device that holds a ready copy. */
  function Fanout(c: Catalog, device: DeviceId, obj: ObjectKey, rep: LifecycleReport): map<CommandKey, Command> {
    map r | r in c.replicas && r.obj == obj && r.device != device
            && c.replicas[r].state == ReplicaReady && c.replicas[r].clientFileId.Some?
      :: CommandKey(r.device, rep.operationId)
         := Command(rep.action, rep.name, rep.purgeAfter, c.replicas[r].clientFileId.value)
  }

  function KindOf(action: Action): EventKind
    requires action != OtherAction
  {
    match action
    case Rename => FileRenamed
    case Trash => FileTrashed
    case Restore => FileRestored
    case Purge => FilePurged
  }

  /** ApplyLifecycleReport. */
  function ApplyLifecycle(c: Catalog, device: DeviceId, rep: LifecycleReport, now: Time)
    : (Catalog, Result<FileView, CatalogError>)
  {
    var ik := IdemKey(device, rep.operationId);
    var k := EntryKey(device, rep.localFileId);
    if !ValidOpId(rep.operationId) || rep.localFileId == NO_FILE then (c, Err(InvalidRequest))
    else if ik in c.idem then
      if c.idem[ik].request != RequestHash(rep) then (c, Err(InvalidRequest)) else (c, Ok(c.idem[ik].response))
    else if k !in c.entries then (c, Err(FileNotFound))
    else match NextEntry(c.entries, k, rep)
      case Err(e) => (c, Err(e))
      case Ok(after) =>
        var d := if after == c.entries[k] then c else Changed(c, device, k, after, rep, now);
        (d.(idem := d.idem[ik := Idem(RequestHash(rep), FileView(k, after))]), Ok(FileView(k, after)))
  }

  /** Everything a report that changes its entry writes, except its idempotency key. */
  function Changed(c: Catalog, device: DeviceId, k: EntryKey, after: Entry, rep: LifecycleReport, now: Time): Catalog
    requires k in c.entries && rep.action != OtherAction
  {
    var e := c.entries[k];
    var d := c.(entries := c.entries[k := after],
                trash := NextTrash(c.trash, k, e, rep, now),
                replicas := NextReplicas(c.replicas, ReplicaKey(e.obj, device), rep.action));
    d.(commands := Fanout(d, device, e.obj, rep) + d.commands,
       events := AppendEvent(d.events, KindOf(rep.action), k, e.version + 1))
  }

  /** CreateManagedFolder; without a parent the folder goes under the root. */
  function CreateFolder(c: Catalog, parent: Option<FolderId>, name: Name, uuid: FolderId, rootUuid: FolderId)
    : (Catalog, Result<FolderId, CatalogError>)
  {
    var trimmed := TrimSpace(name);
    if NormalizeName(trimmed) == None || ByteLength(trimmed) > MAX_NAME then (c, Err(InvalidRequest))
    else if parent == None && c.root == None && rootUuid in c.folders then (c, Err(Internal))
    else
      // The root is created in a transaction of its own and stays even when the call fails.
      var c1 := if parent == None then EnsureRoot(c, rootUuid) else c;
      var p := if parent == None then c1.root.value else parent.value;
      if p !in c1.folders || !c1.folders[p].active then (c1, Err(FolderNotFound))
      else if uuid in c1.folders then (c1, Err(Internal))
      else if FolderNameTaken(c1.folders, p, NormalizeName(trimmed).value, None) then (c1, Err(NameConflict))
      else (c1.(folders := c1.folders[uuid := Folder(Some(p), trimmed, NormalizeName(trimmed).value, true, 1)]), Ok(uuid))
  }

  /** RenameManagedFolder; the root cannot be renamed. */
  function RenameFolder(c: Catalog, f: FolderId, name: Name): (Catalog, Result<FolderId, CatalogError>) {
    var trimmed := TrimSpace(name);
    if NormalizeName(trimmed) == None || ByteLength(trimmed) > MAX_NAME then (c, Err(InvalidRequest))
    else if f !in c.folders || !c.folders[f].active || c.folders[f].parent == None then (c, Err(FolderNotFound))
    else if FolderNameTaken(c.folders, c.folders[f].parent.value, NormalizeName(trimmed).value, Some(f)) then
      (c, Err(NameConflict))
    else
      (c.(folders := c.folders[f := c.folders[f].(name := trimmed, normalized := NormalizeName(trimmed).value,
                                                  version := c.folders[f].version + 1)]), Ok(f))
  }

  /** No active sub-folder and no entry that is not purged. */
  predicate FolderEmpty(c: Catalog, f: FolderId) {
    && (forall g <- c.folders :: c.folders[g].parent == Some(f) ==> !c.folders[g].active)
    && (forall k <- c.entries :: c.entries[k].folder == f ==> c.entries[k].status == Purged)
  }

  /** DeleteManagedFolder. */
  function DeleteFolder(c: Catalog, f: FolderId): (Catalog, Result<FolderId, CatalogError>) {
    if f !in c.folders || !c.folders[f].active then (c, Err(FolderNotFound))
    else if c.folders[f].parent == None || !FolderEmpty(c, f) then (c, Err(FolderNotEmpty))
    else (c.(folders := c.folders[f := c.folders[f].(active := false, version := c.folders[f].version + 1)]), Ok(f))
  }

  /** The per-file updates of MoveFiles, in order, up to the first that fails. */
  function MoveAll(entries: map<EntryKey, Entry>, folder: FolderId, ids: seq<EntryKey>)
    : Result<map<EntryKey, Entry>, CatalogError>
  {
    if ids == [] then Ok(entries)
    else
      var k := ids[0];
      if k !in entries || entries[k].status != Active then Err(FileNotFound)
      else if NameTaken(entries, folder, entries[k].normalized, Some(k)) then Err(NameConflict)
      else MoveAll(entries[k := entries[k].(folder := folder, version := entries[k].version + 1)], folder, ids[1..])
  }

  /** MoveFiles. */
  function Move(c: Catalog, folder: FolderId, ids: seq<EntryKey>): (Catalog, Result<FolderId, CatalogError>) {
    if |ids| == 0 || |ids| > MAX_MOVES then (c, Err(InvalidRequest))
    else if folder !in c.folders || !c.folders[folder].active then (c, Err(FolderNotFound))
    else match MoveAll(c.entries, folder, ids)
      case Err(e) => (c, Err(e))
      case Ok(entries) => (c.(entries := entries), Ok(folder))
  }

  /** Any call the catalog serves. */
  datatype Call =
    | CallRegister(device: DeviceId, request: RegisterRequest, uuid: FolderId)
    | CallLifecycle(device: DeviceId, report: LifecycleReport, now: Time)
    | CallCreateFolder(parent: Option<FolderId>, name: Name, uuid: FolderId, rootUuid: FolderId)
    | CallRenameFolder(folder: FolderId, name: Name)
    | CallDeleteFolder(folder: FolderId)
    | CallMove(folder: FolderId, ids: seq<EntryKey>)

  function Serve(c: Catalog, call: Call): Catalog {
    match call
    case CallRegister(device, request, uuid) => RegisterFile(c, device, request, uuid).0
    case CallLifecycle(device, report, now) => ApplyLifecycle(c, device, report, now).0
    case CallCreateFolder(parent, name, uuid, rootUuid) => CreateFolder(c, parent, name, uuid, rootUuid).0
    case CallRenameFolder(folder, name) => RenameFolder(c, folder, name).0
    case CallDeleteFolder(folder) => DeleteFolder(c, folder).0
    case CallMove(folder, ids) => Move(c, folder, ids).0
  }

  function ServeAll(c: Catalog, calls: seq<Call>): Catalog
    decreases |calls|
  {
    if calls == [] then c else ServeAll(Serve(c, calls[0]), calls[1..])
  }
}
