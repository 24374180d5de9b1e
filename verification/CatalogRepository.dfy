/** The catalog's transactions, statement by statement, each proved against its function. */
module CatalogRepository {
  import opened Base
  import opened Wire
  import opened ServerCatalog
  import opened CatalogInvariants

  class Repository {
    var db: Catalog

    constructor ()
      ensures db == EmptyCatalog() && Sound(db)
    {
      db := EmptyCatalog();
    }

    /** A file that was registered before is answered again; a new one gets every row at once or none. */
    method RegisterVerifiedFile(device: DeviceId, req: RegisterRequest, uuid: FolderId) returns (r: Result<FileView, CatalogError>)
      modifies this
      ensures (db, r) == RegisterFile(old(db), device, req, uuid)
      ensures old(Sound(db)) ==> Sound(db)
    {
      RegisterSoundIf(db, device, req, uuid);
      if !ValidRegistration(req) {
        return Err(InvalidRequest);
      }
      var name := TrimSpace(req.name);
      var normalized := NormalizeName(name).value;
      var k, obj := EntryKey(device, req.localFileId), ObjectKey(req.sha256, req.size);
      if k in db.entries {
        if db.entries[k].obj != obj {
          return Err(InvalidRequest);
        }
        return Ok(FileView(k, db.entries[k]));
      }
      if db.root == None && uuid in db.folders {
        return Err(Internal);
      }
      var tx := EnsureRoot(db, uuid);
      tx := tx.(objects := UpsertObject(tx.objects, obj, req.mime));
      if NameTaken(tx.entries, tx.root.value, normalized, None) {
        return Err(NameConflict);
      }
      var entry := Entry(tx.root.value, obj, name, normalized, Active, 1);
      tx := tx.(entries := tx.entries[k := entry]);
      if ClientIdTaken(tx.replicas, device, req.localFileId, ReplicaKey(obj, device)) {
        return Err(Internal);
      }
      tx := tx.(replicas := UpsertReplica(tx.replicas, ReplicaKey(obj, device), CleanEndpoint(req.endpoint).value, req.localFileId));
      tx := tx.(events := AppendEvent(tx.events, FileRegistered, k, 1));
      r := Ok(FileView(k, entry));
      db := tx;
    }

    /** The statements of one lifecycle action on a local copy of the tables. */
    method ApplyAction(tx: Catalog, device: DeviceId, k: EntryKey, rep: LifecycleReport, now: Time)
      returns (r: Result<Catalog, CatalogError>)
      requires k in tx.entries
      ensures match NextEntry(tx.entries, k, rep)
        case Err(e) => r == Err(e)
        case Ok(after) =>
          r == Ok(if after == tx.entries[k] then tx
                  else tx.(entries := tx.entries[k := after], trash := NextTrash(tx.trash, k, tx.entries[k], rep, now),
                           replicas := NextReplicas(tx.replicas, ReplicaKey(tx.entries[k].obj, device), rep.action)))
    {
      var e := tx.entries[k];
      var entries, trash, replicas := tx.entries, tx.trash, tx.replicas;
      match rep.action {
        case Rename =>
          if e.status != Active {
            return Err(InvalidState);
          }
          var name := TrimSpace(rep.name);
          if NormalizeName(name) == None || ByteLength(name) > MAX_NAME {
            return Err(InvalidRequest);
          }
          if NameTaken(entries, e.folder, NormalizeName(name).value, Some(k)) {
            return Err(NameConflict);
          }
          entries := entries[k := e.(name := name, normalized := NormalizeName(name).value, version := e.version + 1)];
        case Trash =>
          if e.status != Active {
            return if e.status == Trashed then Ok(tx) else Err(InvalidState);
          }
          var purgeAfter := now + WEEK;
          if rep.purgeAfter.Some? {
            purgeAfter := rep.purgeAfter.value;
          }
          entries := entries[k := e.(status := Trashed, version := e.version + 1)];
          if k in trash {
            trash := trash[k := trash[k].(purgeAfter := purgeAfter, status := InTrash)];
          } else {
            trash := trash[k := TrashRecord(e.folder, e.name, purgeAfter, InTrash)];
          }
        case Restore =>
          if e.status != Trashed {
            return if e.status == Active then Ok(tx) else Err(InvalidState);
          }
          if NameTaken(entries, e.folder, e.normalized, Some(k)) {
            return Err(NameConflict);
          }
          entries := entries[k := e.(status := Active, version := e.version + 1)];
          trash := trash - {k};
        case Purge =>
          if e.status != Trashed {
            return if e.status == Purged then Ok(tx) else Err(InvalidState);
          }
          entries := entries[k := e.(status := Purged, version := e.version + 1)];
          if k in trash {
            trash := trash[k := trash[k].(status := TrashPurged)];
          }
          var copy := ReplicaKey(e.obj, device);
          if copy in replicas {
            replicas := replicas[copy := replicas[copy].(state := ReplicaDeleted, version := replicas[copy].version + 1)];
          }
        case OtherAction =>
          return Err(InvalidRequest);
      }
      r := Ok(tx.(entries := entries, trash := trash, replicas := replicas));
    }

    /** A repeated operation id gets its stored answer; an accepted report is applied and answered in one transaction. */
    method ApplyLifecycleReport(device: DeviceId, rep: LifecycleReport, now: Time) returns (r: Result<FileView, CatalogError>)
      modifies this
      ensures (db, r) == ApplyLifecycle(old(db), device, rep, now)
      ensures old(Sound(db)) ==> Sound(db)
    {
      LifecycleSoundIf(db, device, rep, now);
      if rep.localFileId == NO_FILE || !ValidOpId(rep.operationId) {
        return Err(InvalidRequest);
      }
      var ik, k := IdemKey(device, rep.operationId), EntryKey(device, rep.localFileId);
      if ik in db.idem {
        if db.idem[ik].request != RequestHash(rep) {
          return Err(InvalidRequest);
        }
        return Ok(db.idem[ik].response);
      }
      if k !in db.entries {
        return Err(FileNotFound);
      }
      var applied := ApplyAction(db, device, k, rep, now);
      if applied.Err? {
        return Err(applied.error);
      }
      var tx := applied.value;
      if tx.entries[k] != db.entries[k] {
        tx := tx.(commands := Fanout(tx, device, db.entries[k].obj, rep) + tx.commands);
        tx := tx.(events := AppendEvent(tx.events, KindOf(rep.action), k, db.entries[k].version + 1));
      }
      var view := FileView(k, tx.entries[k]);
      tx := tx.(idem := tx.idem[ik := Idem(RequestHash(rep), view)]);
      db := tx;
      r := Ok(view);
    }

    method CreateManagedFolder(parent: Option<FolderId>, name: Name, uuid: FolderId, rootUuid: FolderId)
      returns (r: Result<FolderId, CatalogError>)
      modifies this
      ensures (db, r) == CreateFolder(old(db), parent, name, uuid, rootUuid)
      ensures old(Sound(db)) ==> Sound(db)
    {
      CreateSoundIf(db, parent, name, uuid, rootUuid);
      var trimmed := TrimSpace(name);
      if NormalizeName(trimmed) == None || ByteLength(trimmed) > MAX_NAME {
        return Err(InvalidRequest);
      }
      var p := parent;
      if p == None {
        if db.root == None && rootUuid in db.folders {
          return Err(Internal);
        }
        db := EnsureRoot(db, rootUuid);
        p := db.root;
      }
      if p.value !in db.folders || !db.folders[p.value].active {
        return Err(FolderNotFound);
      }
      if uuid in db.folders {
        return Err(Internal);
      }
      if FolderNameTaken(db.folders, p.value, NormalizeName(trimmed).value, None) {
        return Err(NameConflict);
      }
      db := db.(folders := db.folders[uuid := Folder(p, trimmed, NormalizeName(trimmed).value, true, 1)]);
      r := Ok(uuid);
    }

    method RenameManagedFolder(f: FolderId, name: Name) returns (r: Result<FolderId, CatalogError>)
      modifies this
      ensures (db, r) == RenameFolder(old(db), f, name)
      ensures old(Sound(db)) ==> Sound(db)
    {
      if Sound(db) {
        RenameFolderSound(db, f, name);
      }
      var trimmed := TrimSpace(name);
      if NormalizeName(trimmed) == None || ByteLength(trimmed) > MAX_NAME {
        return Err(InvalidRequest);
      }
      if f !in db.folders || !db.folders[f].active || db.folders[f].parent == None {
        return Err(FolderNotFound);
      }
      var folder := db.folders[f];
      if FolderNameTaken(db.folders, folder.parent.value, NormalizeName(trimmed).value, Some(f)) {
        return Err(NameConflict);
      }
      var renamed := folder.(name := trimmed, normalized := NormalizeName(trimmed).value, version := folder.version + 1);
      db := db.(folders := db.folders[f := renamed]);
      r := Ok(f);
    }

    method DeleteManagedFolder(f: FolderId) returns (r: Result<FolderId, CatalogError>)
      modifies this
      ensures (db, r) == DeleteFolder(old(db), f)
      ensures old(Sound(db)) ==> Sound(db)
    {
      if Sound(db) {
        DeleteFolderSound(db, f);
      }
      if f in db.folders && db.folders[f].active {
        if db.folders[f].parent.Some? && FolderEmpty(db, f) {
          db := db.(folders := db.folders[f := db.folders[f].(active := false, version := db.folders[f].version + 1)]);
          return Ok(f);
        }
        return Err(FolderNotEmpty);
      }
      r := Err(FolderNotFound);
    }

    /** File after file within one transaction: the first that cannot move takes the others back. */
    method MoveFiles(folder: FolderId, ids: seq<EntryKey>) returns (r: Result<FolderId, CatalogError>)
      modifies this
      ensures (db, r) == Move(old(db), folder, ids)
      ensures old(Sound(db)) ==> Sound(db)
    {
      if Sound(db) {
        MoveSound(db, folder, ids);
      }
      if |ids| == 0 || |ids| > MAX_MOVES {
        return Err(InvalidRequest);
      }
      if folder !in db.folders || !db.folders[folder].active {
        return Err(FolderNotFound);
      }
      var tx := db.entries;
      var i := 0;
      while i < |ids|
        invariant 0 <= i <= |ids|
        invariant MoveAll(db.entries, folder, ids) == MoveAll(tx, folder, ids[i..])
      {
        var k := ids[i];
        if k !in tx || tx[k].status != Active {
          return Err(FileNotFound);
        }
        if NameTaken(tx, folder, tx[k].normalized, Some(k)) {
          return Err(NameConflict);
        }
        tx := tx[k := tx[k].(folder := folder, version := tx[k].version + 1)];
        assert ids[i..][1..] == ids[i + 1..];
        i := i + 1;
      }
      db := db.(entries := tx);
      r := Ok(folder);
    }
  }

  lemma RegisterSoundIf(c: Catalog, device: DeviceId, req: RegisterRequest, uuid: FolderId)
    ensures Sound(c) ==> Sound(RegisterFile(c, device, req, uuid).0)
  {
    if Sound(c) { RegisterSound(c, device, req, uuid); }
  }

  lemma LifecycleSoundIf(c: Catalog, device: DeviceId, rep: LifecycleReport, now: Time)
    ensures Sound(c) ==> Sound(ApplyLifecycle(c, device, rep, now).0)
  {
    if Sound(c) { LifecycleSound(c, device, rep, now); }
  }

  lemma CreateSoundIf(c: Catalog, parent: Option<FolderId>, name: Name, uuid: FolderId, rootUuid: FolderId)
    ensures Sound(c) ==> Sound(CreateFolder(c, parent, name, uuid, rootUuid).0)
  {
    if Sound(c) { CreateFolderSound(c, parent, name, uuid, rootUuid); }
  }
}
