/** What every call the catalog serves keeps, and so what holds after any run of calls. */
module CatalogInvariants {
  import opened Base
  import opened Wire
  import opened ServerCatalog

  // ---- The account log determines every entry's status ----

  function StatusAfter(kind: EventKind, before: EntryStatus): EntryStatus {
    match kind
    case FileRegistered => Active
    case FileRenamed => before
    case FileTrashed => Trashed
    case FileRestored => Active
    case FilePurged => Purged
  }

  /** Replaying the log from nothing. */
  function ReplayLog(events: seq<Event>): map<EntryKey, EntryStatus> {
    if events == [] then map[]
    else
      var before := ReplayLog(events[..|events| - 1]);
      var e := events[|events| - 1];
      before[e.entity := StatusAfter(e.kind, if e.entity in before then before[e.entity] else Active)]
  }

  /** Events are numbered 1, 2, 3, ... */
  ghost predicate Numbered(events: seq<Event>) {
    forall i :: 0 <= i < |events| ==> events[i].seq_ == i + 1
  }

  /** Each file's event versions strictly increase, up to the version its entry has now. */
  ghost predicate VersionsIncrease(c: Catalog) {
    && (forall i :: 0 <= i < |c.events| ==>
          c.events[i].entity in c.entries && c.events[i].version <= c.entries[c.events[i].entity].version)
    && (forall i, j :: 0 <= i < j < |c.events| && c.events[i].entity == c.events[j].entity ==>
          c.events[i].version < c.events[j].version)
  }

  ghost predicate LogDetermines(c: Catalog) {
    var replayed := ReplayLog(c.events);
    && replayed.Keys == c.entries.Keys
    && forall k <- c.entries :: replayed[k] == c.entries[k].status
  }

  ghost predicate TrashMatches(c: Catalog) {
    && (forall k <- c.trash :: k in c.entries)
    && (forall k <- c.entries ::
          c.entries[k].status == Trashed <==> k in c.trash && c.trash[k].status == InTrash)
  }

  // ---- The folder tree ----

  /** `f` reaches the root within `depth` steps, through active folders only. */
  ghost predicate Reaches(folders: map<FolderId, Folder>, root: FolderId, f: FolderId, depth: nat) {
    && f in folders && folders[f].active
    && (f == root || (depth > 0 && folders[f].parent.Some? && Reaches(folders, root, folders[f].parent.value, depth - 1)))
  }

  ghost predicate Anchored(c: Catalog, f: FolderId) {
    c.root.Some? && exists depth: nat :: Reaches(c.folders, c.root.value, f, depth)
  }

  ghost predicate TreeSound(c: Catalog) {
    && (c.root.Some? ==> c.root.value in c.folders && c.folders[c.root.value].active && c.folders[c.root.value].parent == None)
    && (c.root == None ==> c.folders == map[] && c.entries == map[])
    && (forall f <- c.folders :: c.folders[f].active ==> Anchored(c, f))
    && (forall k <- c.entries :: c.entries[k].status != Purged ==>
          c.entries[k].folder in c.folders && c.folders[c.entries[k].folder].active)
  }

  ghost predicate NamesUnique(c: Catalog) {
    forall k, l :: k in c.entries && l in c.entries && k != l && SamePlace(c.entries[k], c.entries[l]) ==>
      c.entries[k].normalized != c.entries[l].normalized
  }

  predicate SamePlace(e: Entry, f: Entry) {
    e.status == Active && f.status == Active && e.folder == f.folder
  }

  ghost predicate Sound(c: Catalog) {
    Numbered(c.events) && VersionsIncrease(c) && LogDetermines(c) && TrashMatches(c) && TreeSound(c) && NamesUnique(c)
  }

  // ---- Log ----

  lemma {:induction false} MaxSeqIsLength(events: seq<Event>)
    requires Numbered(events)
    ensures MaxSeq(events) == |events|
  {
    if events != [] {
      MaxSeqIsLength(events[..|events| - 1]);
    }
  }

  /** One more event, carrying the version its entry moved to. */
  ghost predicate Logged(c: Catalog, d: Catalog, kind: EventKind, k: EntryKey) {
    && k in d.entries && d.entries.Keys == c.entries.Keys + {k}
    && (forall l <- c.entries :: l != k ==> d.entries[l] == c.entries[l])
    && (k in c.entries ==> d.entries[k].version == c.entries[k].version + 1)
    && d.events == AppendEvent(c.events, kind, k, d.entries[k].version)
    && d.entries[k].status == StatusAfter(kind, if k in c.entries then c.entries[k].status else Active)
  }

  lemma VersionsStep(c: Catalog, d: Catalog, kind: EventKind, k: EntryKey)
    requires VersionsIncrease(c) && Logged(c, d, kind, k)
    ensures VersionsIncrease(d)
  {
    forall i | 0 <= i < |d.events| ensures d.events[i].entity in d.entries && d.events[i].version <= d.entries[d.events[i].entity].version {
      if i < |c.events| { assert d.events[i] == c.events[i]; }
    }
    forall i, j | 0 <= i < j < |d.events| && d.events[i].entity == d.events[j].entity
      ensures d.events[i].version < d.events[j].version
    {
      assert d.events[i] == c.events[i];
      if j < |c.events| { assert d.events[j] == c.events[j]; }
    }
  }

  lemma DeterminesStep(c: Catalog, d: Catalog, kind: EventKind, k: EntryKey)
    requires LogDetermines(c) && Logged(c, d, kind, k)
    ensures LogDetermines(d)
  {
    assert d.events[..|d.events| - 1] == c.events;
  }

  lemma LogStep(c: Catalog, d: Catalog, kind: EventKind, k: EntryKey)
    requires Numbered(c.events) && VersionsIncrease(c) && LogDetermines(c) && Logged(c, d, kind, k)
    ensures Numbered(d.events) && VersionsIncrease(d) && LogDetermines(d)
  {
    MaxSeqIsLength(c.events);
    VersionsStep(c, d, kind, k);
    DeterminesStep(c, d, kind, k);
  }

  /** No event, and entries keep their status while versions only grow. */
  lemma LogQuiet(c: Catalog, d: Catalog)
    requires Numbered(c.events) && VersionsIncrease(c) && LogDetermines(c)
    requires d.events == c.events && d.entries.Keys == c.entries.Keys
    requires forall l <- c.entries :: d.entries[l].status == c.entries[l].status && d.entries[l].version >= c.entries[l].version
    ensures Numbered(d.events) && VersionsIncrease(d) && LogDetermines(d)
  {
  }

  // ---- Tree ----

  /** Reachability survives when the folders it uses stay active under the same parents. */
  lemma {:induction false} ReachesKept(old_: map<FolderId, Folder>, new_: map<FolderId, Folder>, root: FolderId, f: FolderId, depth: nat)
    requires Reaches(old_, root, f, depth)
    requires forall g <- old_ :: old_[g].active ==> g in new_ && new_[g].active && new_[g].parent == old_[g].parent
    ensures Reaches(new_, root, f, depth)
    decreases depth
  {
    if f != root {
      ReachesKept(old_, new_, root, old_[f].parent.value, depth - 1);
    }
  }

  /** Deleting a folder without active children cuts nobody off. */
  lemma {:induction false} ReachesAfterDelete(old_: map<FolderId, Folder>, new_: map<FolderId, Folder>, root: FolderId, gone: FolderId, f: FolderId, depth: nat)
    requires Reaches(old_, root, f, depth) && f != gone && root != gone
    requires gone in old_ && gone in new_ && new_ == old_[gone := new_[gone]]
    requires forall g <- old_ :: old_[g].parent == Some(gone) ==> !old_[g].active
    ensures Reaches(new_, root, f, depth)
    decreases depth
  {
    if f != root {
      ReachesAfterDelete(old_, new_, root, gone, old_[f].parent.value, depth - 1);
    }
  }

  lemma TreeKept(c: Catalog, d: Catalog)
    requires TreeSound(c) && c.root.Some? && d.root == c.root
    requires forall g <- c.folders :: g in d.folders && d.folders[g].active == c.folders[g].active && d.folders[g].parent == c.folders[g].parent
    requires d.folders.Keys == c.folders.Keys
    requires forall k <- d.entries :: d.entries[k].status != Purged ==>
      d.entries[k].folder in d.folders && d.folders[d.entries[k].folder].active
    ensures TreeSound(d)
  {
    forall f | f in d.folders && d.folders[f].active ensures Anchored(d, f) {
      assert Anchored(c, f);
      var depth: nat :| Reaches(c.folders, c.root.value, f, depth);
      ReachesKept(c.folders, d.folders, c.root.value, f, depth);
    }
  }

  lemma EnsureRootSound(c: Catalog, uuid: FolderId)
    requires Sound(c) && (c.root == None ==> uuid !in c.folders)
    ensures Sound(EnsureRoot(c, uuid)) && EnsureRoot(c, uuid).root.Some?
  {
    var d := EnsureRoot(c, uuid);
    if c.root == None {
      assert Reaches(d.folders, uuid, uuid, 0);
    }
  }

  // ---- One lemma per call ----

  /** An entry appears or changes, and nothing else that the tree or the names depend on. */
  lemma EntryStep(c: Catalog, d: Catalog, k: EntryKey)
    requires TreeSound(c) && NamesUnique(c) && c.root.Some?
    requires k in d.entries && d.entries == c.entries[k := d.entries[k]]
    requires d.folders == c.folders && d.root == c.root
    requires d.entries[k].status != Purged ==> d.entries[k].folder in c.folders && c.folders[d.entries[k].folder].active
    requires d.entries[k].status == Active ==>
      !NameTaken(c.entries, d.entries[k].folder, d.entries[k].normalized, Some(k))
    ensures TreeSound(d) && NamesUnique(d)
  {
    TreeKept(c, d);
  }

  lemma RegisterStep(c: Catalog, d: Catalog, k: EntryKey)
    requires Sound(c) && c.root.Some? && k !in c.entries && k in d.entries
    requires d.folders == c.folders && d.root == c.root && d.trash == c.trash
    requires d.entries == c.entries[k := d.entries[k]]
    requires d.entries[k].status == Active && d.entries[k].version == 1 && d.entries[k].folder == c.root.value
    requires !NameTaken(c.entries, d.entries[k].folder, d.entries[k].normalized, None)
    requires d.events == AppendEvent(c.events, FileRegistered, k, 1)
    ensures Sound(d)
  {
    LogStep(c, d, FileRegistered, k);
    EntryStep(c, d, k);
    RegisterTrash(c, d, k);
  }

  lemma RegisterTrash(c: Catalog, d: Catalog, k: EntryKey)
    requires TrashMatches(c) && k !in c.entries && k in d.entries && d.entries[k].status == Active
    requires d.trash == c.trash && d.entries == c.entries[k := d.entries[k]]
    ensures TrashMatches(d)
  {
    assert k !in c.trash;
  }

  lemma RegisterSound(c: Catalog, device: DeviceId, req: RegisterRequest, uuid: FolderId)
    requires Sound(c)
    ensures Sound(RegisterFile(c, device, req, uuid).0)
  {
    var d := RegisterFile(c, device, req, uuid).0;
    if d != c {
      EnsureRootSound(c, uuid);
      RegisterStep(EnsureRoot(c, uuid), d, EntryKey(device, req.localFileId));
    }
  }

  /** A report that changes its entry moves it as the event will say, to a free name. */
  lemma NextEntryMoves(entries: map<EntryKey, Entry>, k: EntryKey, rep: LifecycleReport)
    requires k in entries && NextEntry(entries, k, rep).Ok? && NextEntry(entries, k, rep).value != entries[k]
    ensures var after := NextEntry(entries, k, rep).value;
      && after.version == entries[k].version + 1 && after.folder == entries[k].folder && after.obj == entries[k].obj
      && entries[k].status != Purged && rep.action != OtherAction
      && (after.status == Active ==> !NameTaken(entries, after.folder, after.normalized, Some(k)))
      && after.status == StatusAfter(KindOf(rep.action), entries[k].status)
  {
  }

  lemma NextTrashMatches(c: Catalog, k: EntryKey, rep: LifecycleReport, now: Time)
    requires TrashMatches(c) && k in c.entries
    requires NextEntry(c.entries, k, rep).Ok? && NextEntry(c.entries, k, rep).value != c.entries[k]
    ensures TrashMatches(c.(entries := c.entries[k := NextEntry(c.entries, k, rep).value],
                            trash := NextTrash(c.trash, k, c.entries[k], rep, now)))
  {
  }

  lemma LifecycleSound(c: Catalog, device: DeviceId, rep: LifecycleReport, now: Time)
    requires Sound(c)
    ensures Sound(ApplyLifecycle(c, device, rep, now).0)
  {
    var k := EntryKey(device, rep.localFileId);
    var d := ApplyLifecycle(c, device, rep, now).0;
    if d != c {
      var after := NextEntry(c.entries, k, rep).value;
      if after == c.entries[k] {
        SoundSame(c, d);
      } else {
        ChangedSound(c, device, k, rep, now);
        SoundSame(Changed(c, device, k, after, rep, now), d);
      }
    }
  }

  lemma ChangedLog(c: Catalog, device: DeviceId, k: EntryKey, rep: LifecycleReport, now: Time)
    requires Sound(c) && k in c.entries && rep.action != OtherAction
    requires NextEntry(c.entries, k, rep).Ok? && NextEntry(c.entries, k, rep).value != c.entries[k]
    ensures var d := Changed(c, device, k, NextEntry(c.entries, k, rep).value, rep, now);
      Numbered(d.events) && VersionsIncrease(d) && LogDetermines(d) && TrashMatches(d)
  {
    var d := Changed(c, device, k, NextEntry(c.entries, k, rep).value, rep, now);
    NextEntryMoves(c.entries, k, rep);
    NextTrashMatches(c, k, rep, now);
    LogStep(c, d, KindOf(rep.action), k);
  }

  lemma ChangedTree(c: Catalog, device: DeviceId, k: EntryKey, rep: LifecycleReport, now: Time)
    requires Sound(c) && k in c.entries && rep.action != OtherAction
    requires NextEntry(c.entries, k, rep).Ok? && NextEntry(c.entries, k, rep).value != c.entries[k]
    ensures var d := Changed(c, device, k, NextEntry(c.entries, k, rep).value, rep, now);
      TreeSound(d) && NamesUnique(d)
  {
    NextEntryMoves(c.entries, k, rep);
    EntryStep(c, Changed(c, device, k, NextEntry(c.entries, k, rep).value, rep, now), k);
  }

  lemma ChangedSound(c: Catalog, device: DeviceId, k: EntryKey, rep: LifecycleReport, now: Time)
    requires Sound(c) && k in c.entries && rep.action != OtherAction
    requires NextEntry(c.entries, k, rep).Ok? && NextEntry(c.entries, k, rep).value != c.entries[k]
    ensures Sound(Changed(c, device, k, NextEntry(c.entries, k, rep).value, rep, now))
  {
    ChangedLog(c, device, k, rep, now);
    ChangedTree(c, device, k, rep, now);
  }

  lemma SoundSame(c: Catalog, d: Catalog)
    requires Sound(c) && d == c.(idem := d.idem, commands := d.commands)
    ensures Sound(d)
  {
    if c.root.Some? { TreeKept(c, d); }
  }

  lemma CreateFolderSound(c: Catalog, parent: Option<FolderId>, name: Name, uuid: FolderId, rootUuid: FolderId)
    requires Sound(c)
    ensures Sound(CreateFolder(c, parent, name, uuid, rootUuid).0)
  {
    var d := CreateFolder(c, parent, name, uuid, rootUuid).0;
    if d != c {
      if parent == None { EnsureRootSound(c, rootUuid); }
      var c1 := if parent == None then EnsureRoot(c, rootUuid) else c;
      if d != c1 {
        AddFolderSound(c1, d, uuid);
      }
    }
  }

  lemma AddFolderSound(c: Catalog, d: Catalog, uuid: FolderId)
    requires Sound(c) && uuid !in c.folders && uuid in d.folders && c.root.Some?
    requires d == c.(folders := c.folders[uuid := d.folders[uuid]])
    requires d.folders[uuid].active && d.folders[uuid].parent.Some?
    requires d.folders[uuid].parent.value in c.folders && c.folders[d.folders[uuid].parent.value].active
    ensures Sound(d)
  {
    forall f | f in d.folders && d.folders[f].active ensures Anchored(d, f) {
      var g := if f == uuid then d.folders[uuid].parent.value else f;
      assert Anchored(c, g);
      var depth: nat :| Reaches(c.folders, c.root.value, g, depth);
      ReachesKept(c.folders, d.folders, c.root.value, g, depth);
      if f == uuid { assert Reaches(d.folders, d.root.value, f, depth + 1); }
    }
  }

  lemma RenameFolderSound(c: Catalog, f: FolderId, name: Name)
    requires Sound(c)
    ensures Sound(RenameFolder(c, f, name).0)
  {
    var d := RenameFolder(c, f, name).0;
    if d != c { TreeKept(c, d); }
  }

  lemma DeleteFolderSound(c: Catalog, f: FolderId)
    requires Sound(c)
    ensures Sound(DeleteFolder(c, f).0)
  {
    var d := DeleteFolder(c, f).0;
    if d != c {
      forall g | g in d.folders && d.folders[g].active ensures Anchored(d, g) {
        assert Anchored(c, g);
        var depth: nat :| Reaches(c.folders, c.root.value, g, depth);
        ReachesAfterDelete(c.folders, d.folders, c.root.value, f, g, depth);
      }
    }
  }

  /** A batch of moves keeps statuses and names, only raises versions, and lands in the folder. */
  lemma {:induction false} MoveAllKeeps(entries: map<EntryKey, Entry>, folder: FolderId, ids: seq<EntryKey>)
    requires MoveAll(entries, folder, ids).Ok?
    requires forall k, l :: k in entries && l in entries && k != l && SamePlace(entries[k], entries[l]) ==>
      entries[k].normalized != entries[l].normalized
    ensures var after := MoveAll(entries, folder, ids).value;
      && after.Keys == entries.Keys
      && (forall k <- entries ::
            && after[k].status == entries[k].status && after[k].version >= entries[k].version
            && after[k].name == entries[k].name && after[k].normalized == entries[k].normalized
            && after[k].obj == entries[k].obj
            && (if k in ids then after[k].folder == folder && after[k].status == Active && after[k].version > entries[k].version
                else after[k] == entries[k]))
      && (forall k, l :: k in after && l in after && k != l && SamePlace(after[k], after[l]) ==>
            after[k].normalized != after[l].normalized)
    decreases |ids|
  {
    if ids != [] {
      var k := ids[0];
      var next := entries[k := entries[k].(folder := folder, version := entries[k].version + 1)];
      MoveAllKeeps(next, folder, ids[1..]);
      assert forall l :: l in ids <==> l == k || l in ids[1..];
    }
  }

  lemma MoveSound(c: Catalog, folder: FolderId, ids: seq<EntryKey>)
    requires Sound(c)
    ensures Sound(Move(c, folder, ids).0)
  {
    var d := Move(c, folder, ids).0;
    if d != c {
      MoveAllKeeps(c.entries, folder, ids);
      LogQuiet(c, d);
      assert TrashMatches(d);
      TreeKept(c, d);
    }
  }

  lemma ServeSound(c: Catalog, call: Call)
    requires Sound(c)
    ensures Sound(Serve(c, call))
  {
    match call
    case CallRegister(device, request, uuid) => RegisterSound(c, device, request, uuid);
    case CallLifecycle(device, report, now) => LifecycleSound(c, device, report, now);
    case CallCreateFolder(parent, name, uuid, rootUuid) => CreateFolderSound(c, parent, name, uuid, rootUuid);
    case CallRenameFolder(folder, name) => RenameFolderSound(c, folder, name);
    case CallDeleteFolder(folder) => DeleteFolderSound(c, folder);
    case CallMove(folder, ids) => MoveSound(c, folder, ids);
  }

  /** Every state any run of calls reaches is sound. */
  lemma {:induction false} RunSound(c: Catalog, calls: seq<Call>)
    requires Sound(c)
    ensures Sound(ServeAll(c, calls))
    decreases |calls|
  {
    if calls != [] {
      ServeSound(c, calls[0]);
      RunSound(Serve(c, calls[0]), calls[1..]);
    }
  }

  lemma EmptySound()
    ensures Sound(EmptyCatalog())
  {
  }

  /**
   The account log, after any run: numbered 1..n without gaps, versions per file strictly
   increasing, replaying it gives every entry's status, and trash records mirror it.
   */
  lemma LogDeterminesState(calls: seq<Call>)
    ensures var c := ServeAll(EmptyCatalog(), calls);
      && (forall i :: 0 <= i < |c.events| ==> c.events[i].seq_ == i + 1)
      && (forall i, j :: 0 <= i < j < |c.events| && c.events[i].entity == c.events[j].entity ==>
            c.events[i].version < c.events[j].version)
      && ReplayLog(c.events).Keys == c.entries.Keys
      && (forall k <- c.entries :: ReplayLog(c.events)[k] == c.entries[k].status)
      && (forall k <- c.entries :: c.entries[k].status == Trashed <==> k in c.trash && c.trash[k].status == InTrash)
  {
    EmptySound();
    RunSound(EmptyCatalog(), calls);
  }

  /**
   The folder tree, after any run: every active folder reaches the root through active
   folders, and so does the folder of every entry that is not purged; whatever is trashed
   can be restored into a folder that is still there.
   */
  lemma TreeStaysConnected(calls: seq<Call>)
    ensures var c := ServeAll(EmptyCatalog(), calls);
      && (forall f <- c.folders :: c.folders[f].active ==> Anchored(c, f))
      && (forall k <- c.entries :: c.entries[k].status != Purged ==> Anchored(c, c.entries[k].folder))
  {
    EmptySound();
    RunSound(EmptyCatalog(), calls);
  }
}
