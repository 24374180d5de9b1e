/** What each call of the catalog accepts and what it writes, on the fields of its rows. */
module CatalogEffects {
  import opened Base
  import opened Wire
  import opened ServerCatalog
  import opened CatalogInvariants

  // ---- Registration ----

  /**
   A registration is accepted again when its file is known with the same content; a new one
   exactly when its fields are valid, its name is free in the root, and no other undeleted copy
   of the device carries its file id.
   */
  lemma RegistrationAccepted(c: Catalog, device: DeviceId, req: RegisterRequest, uuid: FolderId)
    requires Sound(c) && uuid !in c.folders
    ensures var r, k := RegisterFile(c, device, req, uuid).1, EntryKey(device, req.localFileId);
      var valid := ValidFileId(req.localFileId) && ByteLength(TrimSpace(req.name)) <= 255
        && NormalizeName(TrimSpace(req.name)).Some? && req.size >= 0 && ValidHash(req.sha256) && CleanEndpoint(req.endpoint).Some?;
      if k in c.entries then
        r == if valid && c.entries[k].obj == ObjectKey(req.sha256, req.size) then Ok(FileView(k, c.entries[k])) else Err(InvalidRequest)
      else if !valid then r == Err(InvalidRequest)
      else if exists l <- c.entries :: c.entries[l].status == Active && Some(c.entries[l].folder) == c.root
                                       && Some(c.entries[l].normalized) == NormalizeName(TrimSpace(req.name)) then
        r == Err(NameConflict)
      else if exists copy <- c.replicas :: copy.device == device && copy.obj != ObjectKey(req.sha256, req.size)
                && c.replicas[copy].clientFileId == Some(req.localFileId) && c.replicas[copy].state != ReplicaDeleted then
        r == Err(Internal)
      else r.Ok?
  {
    if c.root == None {
      assert c.entries == map[];
    }
  }

  /** What a registration writes: everything for a new file, nothing for a known or refused one. */
  lemma RegistrationWrites(c: Catalog, device: DeviceId, req: RegisterRequest, uuid: FolderId)
    requires Sound(c)
    ensures var (d, r) := RegisterFile(c, device, req, uuid);
      var k, obj := EntryKey(device, req.localFileId), ObjectKey(req.sha256, req.size);
      if r.Err? || k in c.entries then d == c
      else
        && d.root == Some(if c.root.Some? then c.root.value else uuid)
        && d.folders == (if c.root.Some? then c.folders else c.folders[uuid := Folder(None, FILES, FILES, true, 1)])
        && NormalizeName(TrimSpace(req.name)).Some? && CleanEndpoint(req.endpoint).Some?
        && var entry := Entry(d.root.value, obj, TrimSpace(req.name), NormalizeName(TrimSpace(req.name)).value, Active, 1);
        && r == Ok(FileView(k, entry)) && d.entries == c.entries[k := entry]
        && d.events == c.events + [Event(|c.events| + 1, FileRegistered, k, 1)]
        && d.trash == c.trash && d.idem == c.idem && d.commands == c.commands
  {
    MaxSeqIsLength(c.events);
  }

  /** The content and the copy that a new registration records. */
  lemma RegistrationCopies(c: Catalog, device: DeviceId, req: RegisterRequest, uuid: FolderId)
    requires RegisterFile(c, device, req, uuid).1.Ok? && EntryKey(device, req.localFileId) !in c.entries
    ensures var d := RegisterFile(c, device, req, uuid).0;
      var obj := ObjectKey(req.sha256, req.size);
      var copy := ReplicaKey(obj, device);
      && obj in d.objects && copy in d.replicas && CleanEndpoint(req.endpoint).Some?
      && d.objects - {obj} == c.objects - {obj} && d.replicas - {copy} == c.replicas - {copy}
      && d.objects[obj] == (if obj in c.objects
           then FileObject(if req.mime == NO_MIME then c.objects[obj].mime else req.mime, c.objects[obj].chunkCount)
           else FileObject(req.mime, ChunkCount(req.size)))
      && d.replicas[copy] == Replica(ReplicaReady, req.size, Some(CleanEndpoint(req.endpoint).value), Some(req.localFileId),
           if copy in c.replicas then c.replicas[copy].version + 1 else 1)
  {
  }

  // ---- Lifecycle reports ----

  /** The report is well formed, new and about a known file. */
  predicate NewReport(c: Catalog, device: DeviceId, rep: LifecycleReport) {
    && ValidOpId(rep.operationId) && rep.localFileId != NO_FILE
    && IdemKey(device, rep.operationId) !in c.idem && EntryKey(device, rep.localFileId) in c.entries
  }

  /** Any other report changes nothing: it is answered as before, or refused. */
  lemma OtherReports(c: Catalog, device: DeviceId, rep: LifecycleReport, now: Time)
    requires !NewReport(c, device, rep)
    ensures var (d, r) := ApplyLifecycle(c, device, rep, now);
      var ik := IdemKey(device, rep.operationId);
      && d == c
      && r == (if !ValidOpId(rep.operationId) || rep.localFileId == NO_FILE then Err(InvalidRequest)
               else if ik !in c.idem then Err(FileNotFound)
               else if c.idem[ik].request == RequestHash(rep) then Ok(c.idem[ik].response) else Err(InvalidRequest))
  {
  }

  /** Which new reports are accepted, by the status of the file. */
  lemma ReportAccepted(c: Catalog, device: DeviceId, rep: LifecycleReport, now: Time)
    requires NewReport(c, device, rep)
    ensures var r, e := ApplyLifecycle(c, device, rep, now).1, c.entries[EntryKey(device, rep.localFileId)];
      r.Ok? <==> match rep.action
        case Rename =>
          && e.status == Active && NormalizeName(TrimSpace(rep.name)).Some? && ByteLength(TrimSpace(rep.name)) <= 255
          && forall l <- c.entries ::
            l != EntryKey(device, rep.localFileId) && c.entries[l].status == Active && c.entries[l].folder == e.folder ==>
            Some(c.entries[l].normalized) != NormalizeName(TrimSpace(rep.name))
        case Trash => e.status == Active || e.status == Trashed
        case Restore =>
          e.status == Active || (e.status == Trashed && forall l <- c.entries ::
            l != EntryKey(device, rep.localFileId) && c.entries[l].status == Active && c.entries[l].folder == e.folder ==>
            c.entries[l].normalized != e.normalized)
        case Purge => e.status == Trashed || e.status == Purged
        case OtherAction => false
  {
  }

  /** What an accepted report does to its entry. */
  lemma ReportedEntry(c: Catalog, device: DeviceId, rep: LifecycleReport, now: Time)
    requires NewReport(c, device, rep) && ApplyLifecycle(c, device, rep, now).1.Ok?
    ensures var d, k := ApplyLifecycle(c, device, rep, now).0, EntryKey(device, rep.localFileId);
      var e := c.entries[k];
      && k in d.entries && d.entries == c.entries[k := d.entries[k]]
      && match rep.action
         case Rename => NormalizeName(TrimSpace(rep.name)).Some?
           && d.entries[k] == e.(name := TrimSpace(rep.name), normalized := NormalizeName(TrimSpace(rep.name)).value, version := e.version + 1)
         case Trash => d.entries[k] == if e.status == Trashed then e else e.(status := Trashed, version := e.version + 1)
         case Restore => d.entries[k] == if e.status == Active then e else e.(status := Active, version := e.version + 1)
         case Purge => d.entries[k] == if e.status == Purged then e else e.(status := Purged, version := e.version + 1)
         case OtherAction => false
  {
  }

  /** What it does to the trash record; only a changed entry touches it. */
  lemma ReportedTrash(c: Catalog, device: DeviceId, rep: LifecycleReport, now: Time)
    requires NewReport(c, device, rep) && ApplyLifecycle(c, device, rep, now).1.Ok?
    ensures var d, k := ApplyLifecycle(c, device, rep, now).0, EntryKey(device, rep.localFileId);
      var e := c.entries[k];
      if rep.action == Trash && e.status == Active then
        && k in d.trash && d.trash == c.trash[k := d.trash[k]] && d.trash[k].status == InTrash
        && d.trash[k].purgeAfter == (if rep.purgeAfter.Some? then rep.purgeAfter.value else now + 7 * 24 * 3600)
        && (if k in c.trash then d.trash[k].folder == c.trash[k].folder && d.trash[k].name == c.trash[k].name
            else d.trash[k].folder == e.folder && d.trash[k].name == e.name)
      else if rep.action == Restore && e.status == Trashed then d.trash == c.trash - {k}
      else if rep.action == Purge && e.status == Trashed && k in c.trash then
        d.trash == c.trash[k := c.trash[k].(status := TrashPurged)]
      else d.trash == c.trash
  {
  }

  /** And to the copies: a purge that takes effect deletes the reporter's, nothing else touches any. */
  lemma ReportedCopies(c: Catalog, device: DeviceId, rep: LifecycleReport, now: Time)
    requires NewReport(c, device, rep) && ApplyLifecycle(c, device, rep, now).1.Ok?
    ensures var d, e := ApplyLifecycle(c, device, rep, now).0, c.entries[EntryKey(device, rep.localFileId)];
      var copy := ReplicaKey(e.obj, device);
      d.replicas == if rep.action == Purge && e.status == Trashed && copy in c.replicas
        then c.replicas[copy := c.replicas[copy].(state := ReplicaDeleted, version := c.replicas[copy].version + 1)]
        else c.replicas
  {
  }

  /** Answer, idempotency key and event; nothing else of the catalog is touched. */
  lemma ReportedLog(c: Catalog, device: DeviceId, rep: LifecycleReport, now: Time)
    requires Numbered(c.events) && NewReport(c, device, rep) && ApplyLifecycle(c, device, rep, now).1.Ok?
    ensures var (d, r) := ApplyLifecycle(c, device, rep, now);
      var k := EntryKey(device, rep.localFileId);
      && k in d.entries && r == Ok(FileView(k, d.entries[k]))
      && d.idem == c.idem[IdemKey(device, rep.operationId) := Idem(RequestHash(rep), r.value)]
      && d.folders == c.folders && d.root == c.root && d.objects == c.objects
      && (d.entries[k] == c.entries[k] ==> d.events == c.events)
      && (d.entries[k] != c.entries[k] ==>
            d.events == c.events + [Event(|c.events| + 1,
              match rep.action
              case Rename => FileRenamed case Trash => FileTrashed case Restore => FileRestored case _ => FilePurged,
              k, c.entries[k].version + 1)])
  {
    MaxSeqIsLength(c.events);
  }

  /**
   Whom a report reaches.  If it changed its file, every other device with a ready copy of the
   content and a file id for it has a command for the operation, and the reporter gets none;
   commands that were there stay as they were, and no others appear.
   */
  lemma ReportedCommands(c: Catalog, device: DeviceId, rep: LifecycleReport, now: Time, ck: CommandKey)
    requires NewReport(c, device, rep) && ApplyLifecycle(c, device, rep, now).1.Ok?
    ensures var d, k := ApplyLifecycle(c, device, rep, now).0, EntryKey(device, rep.localFileId);
      var copy := ReplicaKey(c.entries[k].obj, ck.device);
      var called := d.entries[k] != c.entries[k] && ck.operation == rep.operationId && ck.device != device
        && copy in c.replicas && c.replicas[copy].state == ReplicaReady && c.replicas[copy].clientFileId.Some?;
      && (ck in d.commands <==> ck in c.commands || called)
      && (ck in c.commands ==> d.commands[ck] == c.commands[ck])
      && (called && ck !in c.commands ==>
            d.commands[ck] == Command(rep.action, rep.name, rep.purgeAfter, c.replicas[copy].clientFileId.value))
  {
  }

  // ---- Folders ----

  /** A folder under an existing parent, given or the root. */
  lemma FolderCreated(c: Catalog, parent: Option<FolderId>, p: FolderId, name: Name, uuid: FolderId, rootUuid: FolderId)
    requires parent == Some(p) || (parent == None && c.root == Some(p))
    ensures var (d, r) := CreateFolder(c, parent, name, uuid, rootUuid);
      var trimmed := TrimSpace(name);
      && (r.Ok? <==>
            && NormalizeName(trimmed).Some? && ByteLength(trimmed) <= 255
            && p in c.folders && c.folders[p].active && uuid !in c.folders
            && forall g <- c.folders :: c.folders[g].active && c.folders[g].parent == Some(p) ==>
              Some(c.folders[g].normalized) != NormalizeName(trimmed))
      && (r.Ok? ==>
            && r.value == uuid && NormalizeName(trimmed).Some?
            && d == c.(folders := c.folders[uuid := Folder(Some(p), trimmed, NormalizeName(trimmed).value, true, 1)]))
      && (r.Err? ==> d == c)
  {
  }

  /** Without a parent or a root the root comes first, and stays even if the folder is refused. */
  lemma RootCreated(c: Catalog, name: Name, uuid: FolderId, rootUuid: FolderId)
    requires Sound(c) && c.root == None
    ensures var (d, r) := CreateFolder(c, None, name, uuid, rootUuid);
      var trimmed := TrimSpace(name);
      var root := Folder(None, FILES, FILES, true, 1);
      if NormalizeName(trimmed) == None || ByteLength(trimmed) > 255 then d == c && r == Err(InvalidRequest)
      else if uuid == rootUuid then
        r == Err(Internal) && d == c.(folders := map[rootUuid := root], root := Some(rootUuid))
      else
        && r == Ok(uuid)
        && d == c.(root := Some(rootUuid), folders :=
             map[rootUuid := root, uuid := Folder(Some(rootUuid), trimmed, NormalizeName(trimmed).value, true, 1)])
  {
  }

  /** Only an active folder with a parent is renamed, to a name no active sibling has. */
  lemma FolderRenamed(c: Catalog, f: FolderId, name: Name)
    ensures var (d, r) := RenameFolder(c, f, name);
      var trimmed := TrimSpace(name);
      && (r.Ok? <==>
            && NormalizeName(trimmed).Some? && ByteLength(trimmed) <= 255
            && f in c.folders && c.folders[f].active && c.folders[f].parent.Some?
            && forall g <- c.folders :: g != f && c.folders[g].active && c.folders[g].parent == c.folders[f].parent ==>
              Some(c.folders[g].normalized) != NormalizeName(trimmed))
      && (r.Ok? ==>
            && f in c.folders && NormalizeName(trimmed).Some?
            && d == c.(folders := c.folders[f := c.folders[f].(
                 name := trimmed, normalized := NormalizeName(trimmed).value, version := c.folders[f].version + 1)]))
      && (r.Err? ==> d == c)
  {
  }

  /** Only an active folder with a parent, no active sub-folder and no entry that is not purged is deleted. */
  lemma FolderDeleted(c: Catalog, f: FolderId)
    ensures var (d, r) := DeleteFolder(c, f);
      && (r.Ok? <==>
            && f in c.folders && c.folders[f].active && c.folders[f].parent.Some?
            && (forall g <- c.folders :: c.folders[g].active ==> c.folders[g].parent != Some(f))
            && (forall k <- c.entries :: c.entries[k].status != Purged ==> c.entries[k].folder != f))
      && (r.Ok? ==>
            && f in c.folders
            && d == c.(folders := c.folders[f := c.folders[f].(active := false, version := c.folders[f].version + 1)]))
      && (r.Err? ==> d == c)
  {
  }

  // ---- Moves ----

  /**
   The i-th file of a batch can move: it is active, and no other active file of its name is in
   the folder already or was moved there earlier in the batch.
   */
  predicate MovesAt(entries: map<EntryKey, Entry>, folder: FolderId, ids: seq<EntryKey>, i: nat)
    requires i < |ids|
  {
    && ids[i] in entries && entries[ids[i]].status == Active
    && forall l <- entries ::
      l != ids[i] && entries[l].status == Active && entries[l].normalized == entries[ids[i]].normalized ==>
      entries[l].folder != folder && l !in ids[..i]
  }

  predicate AllMove(entries: map<EntryKey, Entry>, folder: FolderId, ids: seq<EntryKey>) {
    forall i :: 0 <= i < |ids| ==> MovesAt(entries, folder, ids, i)
  }

  function MovedOnce(entries: map<EntryKey, Entry>, folder: FolderId, k: EntryKey): map<EntryKey, Entry>
    requires k in entries
  {
    entries[k := entries[k].(folder := folder, version := entries[k].version + 1)]
  }

  /** Having moved the first file is, for the later ones, having it in the folder. */
  lemma MovesLater(entries: map<EntryKey, Entry>, folder: FolderId, ids: seq<EntryKey>, i: nat)
    requires i + 1 < |ids| && ids[0] in entries && entries[ids[0]].status == Active
    ensures MovesAt(entries, folder, ids, i + 1) <==> MovesAt(MovedOnce(entries, folder, ids[0]), folder, ids[1..], i)
  {
    var moved, earlier, later := MovedOnce(entries, folder, ids[0]), ids[..i + 1], ids[1..][..i];
    assert earlier == [ids[0]] + later;
    assert ids[1..][i] == ids[i + 1];
    forall l | l in entries && entries[l].status == Active
      ensures moved[l].status == Active && moved[l].normalized == entries[l].normalized
      ensures entries[l].folder != folder && l !in earlier <==> moved[l].folder != folder && l !in later
    {
      assert l in earlier <==> l == ids[0] || l in later;
    }
  }

  lemma AllMoveStep(entries: map<EntryKey, Entry>, folder: FolderId, ids: seq<EntryKey>)
    requires ids != []
    ensures AllMove(entries, folder, ids) <==>
      MovesAt(entries, folder, ids, 0) && AllMove(MovedOnce(entries, folder, ids[0]), folder, ids[1..])
  {
    if ids[0] in entries && entries[ids[0]].status == Active {
      forall i: nat | i + 1 < |ids|
        ensures MovesAt(entries, folder, ids, i + 1) <==> MovesAt(MovedOnce(entries, folder, ids[0]), folder, ids[1..], i)
      {
        MovesLater(entries, folder, ids, i);
      }
      if MovesAt(entries, folder, ids, 0) && AllMove(MovedOnce(entries, folder, ids[0]), folder, ids[1..]) {
        forall i | 0 <= i < |ids| ensures MovesAt(entries, folder, ids, i) {
          if i > 0 { assert MovesAt(MovedOnce(entries, folder, ids[0]), folder, ids[1..], i - 1); }
        }
      }
    }
  }

  lemma {:induction false} MoveAllExactly(entries: map<EntryKey, Entry>, folder: FolderId, ids: seq<EntryKey>)
    ensures MoveAll(entries, folder, ids).Ok? <==> AllMove(entries, folder, ids)
    ensures MoveAll(entries, folder, ids).Ok? ==>
      var after := MoveAll(entries, folder, ids).value;
      && after.Keys == entries.Keys
      && forall k <- entries :: after[k] == if k !in ids then entries[k]
        else entries[k].(folder := folder, version := entries[k].version + multiset(ids)[k])
    decreases |ids|
  {
    if ids != [] {
      AllMoveStep(entries, folder, ids);
      assert ids[..0] == [];
      if MovesAt(entries, folder, ids, 0) {
        assert ids == [ids[0]] + ids[1..];
        MoveAllExactly(MovedOnce(entries, folder, ids[0]), folder, ids[1..]);
      }
    }
  }

  /**
   A move takes every file of the batch into the folder, with one more version for each time it
   is named, and leaves all others as they were: exactly if there are 1 to 500 ids, the folder
   is active and every file can move.  Otherwise nothing changes.
   */
  lemma MoveExactly(c: Catalog, folder: FolderId, ids: seq<EntryKey>)
    ensures var (d, r) := Move(c, folder, ids);
      && (r == Ok(folder) <==>
            && 1 <= |ids| <= 500 && folder in c.folders && c.folders[folder].active
            && forall i :: 0 <= i < |ids| ==> MovesAt(c.entries, folder, ids, i))
      && (r.Ok? ==>
            && d == c.(entries := d.entries) && d.entries.Keys == c.entries.Keys
            && (forall k <- ids :: k in c.entries)
            && (forall k <- c.entries :: k !in ids ==> d.entries[k] == c.entries[k])
            && (forall k <- ids :: d.entries[k] ==
                  c.entries[k].(folder := folder, version := c.entries[k].version + multiset(ids)[k])))
      && (r.Err? ==> d == c)
  {
    MoveAllExactly(c.entries, folder, ids);
    if AllMove(c.entries, folder, ids) {
      forall k | k in ids ensures k in c.entries {
        var i :| 0 <= i < |ids| && ids[i] == k;
        assert MovesAt(c.entries, folder, ids, i);
      }
    }
  }
}
