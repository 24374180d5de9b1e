/**
 The durable state of the Agent's content-addressed store, its single SQL
 transactions, and its multi-step operations.

 A multi-step operation is a plan: the list of durable statements it runs, decided
 from what it reads when it starts.  A crash keeps some prefix of a plan.
 */
module LocalStore {
  import opened Base

  datatype ObjectStatus = Importing | Ready | Quarantined | Deleting | Missing | Corrupt

  datatype ObjectRecord = ObjectRecord(status: ObjectStatus, size: nat)

  datatype FileStatus = Active | Trashed | Purging

  datatype LanFile = LanFile(
    owner: UserId, obj: Hash, name: Name, normalized: Name,
    status: FileStatus, purgeAfter: Option<Time>)

  /** `files` is the objects directory; the other two are SQLite tables. */
  datatype Store = Store(
    files: map<Hash, Bytes>, objects: map<Hash, ObjectRecord>, lan: map<FileId, LanFile>)

  datatype LocalError = NotFound | NameConflict | InvalidState | NotReady | Duplicate

  /** Some other active row of this owner carries the normalised name. */
  predicate NameInUse(s: Store, owner: UserId, normalized: Name, except: Option<FileId>) {
    exists id <- s.lan ::
      && s.lan[id].owner == owner && s.lan[id].normalized == normalized
      && s.lan[id].status == Active && Some(id) != except
  }

  function CreateTx(s: Store, id: FileId, owner: UserId, obj: Hash, name: Name, normalized: Name)
    : Result<Store, LocalError>
  {
    if NameInUse(s, owner, normalized, None) then Err(NameConflict)
    else if obj !in s.objects || s.objects[obj].status != Ready then Err(NotReady)
    else if id in s.lan then Err(Duplicate)
    else Ok(s.(lan := s.lan[id := LanFile(owner, obj, name, normalized, Active, None)]))
  }

  function RenameTx(s: Store, id: FileId, owner: UserId, name: Name, normalized: Name)
    : Result<Store, LocalError>
  {
    if id !in s.lan || s.lan[id].owner != owner then Err(NotFound)
    else if s.lan[id].status != Active then Err(InvalidState)
    else if NameInUse(s, owner, normalized, Some(id)) then Err(NameConflict)
    else Ok(s.(lan := s.lan[id := s.lan[id].(name := name, normalized := normalized)]))
  }

  function TrashTx(s: Store, id: FileId, owner: UserId, purgeAfter: Time): Result<Store, LocalError> {
    if id !in s.lan || s.lan[id].owner != owner || s.lan[id].status != Active then Err(NotFound)
    else Ok(s.(lan := s.lan[id := s.lan[id].(status := Trashed, purgeAfter := Some(purgeAfter))]))
  }

  function RestoreTx(s: Store, id: FileId, owner: UserId): Result<Store, LocalError> {
    if id !in s.lan || s.lan[id].owner != owner then Err(NotFound)
    else if s.lan[id].status != Trashed then Err(InvalidState)
    else if NameInUse(s, owner, s.lan[id].normalized, None) then Err(NameConflict)
    else Ok(s.(lan := s.lan[id := s.lan[id].(status := Active, purgeAfter := None)]))
  }

  function BeginPurgeTx(s: Store, id: FileId, owner: UserId): Result<Store, LocalError> {
    if id !in s.lan || s.lan[id].owner != owner || s.lan[id].obj !in s.objects then Err(NotFound)
    else if s.lan[id].status == Active then Err(InvalidState)
    else Ok(s.(lan := s.lan[id := s.lan[id].(status := Purging)]))
  }

  /** No row but `id`, whatever its status, references the object. */
  predicate LastReference(s: Store, id: FileId, obj: Hash) {
    forall other <- s.lan :: s.lan[other].obj == obj ==> other == id
  }

  /** One durable statement. */
  datatype Stmt =
    | Upsert(hash: Hash, size: nat, status: ObjectStatus)
    | SetStatus(hash: Hash, status: ObjectStatus)
    | WriteFile(hash: Hash, bytes: Bytes)
    | RemoveFile(hash: Hash)
    | DropRecord(hash: Hash)
    | DropRow(id: FileId, owner: UserId)

  /** The foreign key of lan_files cascades when an object record goes. */
  function Cascade(lan: map<FileId, LanFile>, hash: Hash): map<FileId, LanFile> {
    map id | id in lan && lan[id].obj != hash :: lan[id]
  }

  /** The state after a statement, or nothing when the statement reports an error. */
  function Exec(s: Store, stmt: Stmt): Option<Store> {
    match stmt
    case Upsert(h, size, status) => Some(s.(objects := s.objects[h := ObjectRecord(status, size)]))
    case SetStatus(h, status) =>
      if h !in s.objects then None
      else Some(s.(objects := s.objects[h := s.objects[h].(status := status)]))
    case WriteFile(h, bytes) => Some(s.(files := s.files[h := bytes]))
    case RemoveFile(h) => Some(s.(files := s.files - {h}))
    case DropRecord(h) =>
      if h !in s.objects then None
      else Some(s.(objects := s.objects - {h}, lan := Cascade(s.lan, h)))
    case DropRow(id, owner) =>
      if id !in s.lan || s.lan[id].owner != owner || s.lan[id].status != Purging then None
      else Some(s.(lan := s.lan - {id}))
  }

  /** Runs a whole plan; an error ends it where it stands. */
  function ExecAll(s: Store, plan: seq<Stmt>): Store
    decreases |plan|
  {
    if plan == [] then s
    else match Exec(s, plan[0]) case None => s case Some(s') => ExecAll(s', plan[1..])
  }

  datatype Inspection = Intact | Absent | Damaged

  /** What re-hashing the file behind a record finds. */
  function Inspect(s: Store, h: Hash): Inspection {
    if h !in s.files then Absent else if Sha(s.files[h]) == h then Intact else Damaged
  }

  function PublishPlan(h: Hash, bytes: Bytes): seq<Stmt> {
    [Upsert(h, |bytes|, Importing), WriteFile(h, bytes), SetStatus(h, Ready)]
  }

  /** Import of staged content: nothing to do when a READY record proves good. */
  function ImportPlan(s: Store, bytes: Bytes): seq<Stmt> {
    var h := Sha(bytes);
    if h in s.objects && s.objects[h].status == Ready && s.objects[h].size == |bytes| then
      match Inspect(s, h)
      case Intact => []
      case Absent => [SetStatus(h, Missing)] + PublishPlan(h, bytes)
      case Damaged => [SetStatus(h, Corrupt)] + PublishPlan(h, bytes)
    else PublishPlan(h, bytes)
  }

  function DeletePlan(h: Hash): seq<Stmt> {
    [SetStatus(h, Deleting), RemoveFile(h), DropRecord(h)]
  }

  /** What a purge does once its row is marked purging. */
  function PurgePlan(s: Store, id: FileId): seq<Stmt>
    requires id in s.lan
  {
    if LastReference(s, id, s.lan[id].obj) then DeletePlan(s.lan[id].obj)
    else [DropRow(id, s.lan[id].owner)]
  }

  /** The visit of one file by the recovery walk; `s` is the state recovery started from. */
  function VisitPlan(s: Store, h: Hash): seq<Stmt>
    requires h in s.files
  {
    if h !in s.objects then [Upsert(h, |s.files[h]|, Quarantined)]
    else if Inspect(s, h) != Intact then [SetStatus(h, Corrupt), SetStatus(h, Corrupt)]
    else if s.objects[h].status == Ready then []
    else [SetStatus(h, Ready)]
  }

  function WalkPlan(s: Store, walk: seq<Hash>): seq<Stmt>
    requires forall h <- walk :: h in s.files
  {
    if walk == [] then [] else VisitPlan(s, walk[0]) + WalkPlan(s, walk[1..])
  }

  /** The reverse check of the records recovery listed when it started. */
  function ReversePlan(s: Store, listed: seq<Hash>): seq<Stmt>
    requires forall h <- listed :: h in s.objects
  {
    if listed == [] then []
    else
      (if listed[0] !in s.files && s.objects[listed[0]].status == Ready
       then [SetStatus(listed[0], Missing)] else [])
      + ReversePlan(s, listed[1..])
  }

  /** The final clean-up: stale records with no file behind them go. */
  function CleanupPlan(s: Store, stale: seq<Hash>): seq<Stmt> {
    if stale == [] then []
    else (if stale[0] in s.files then [] else [DropRecord(stale[0])]) + CleanupPlan(s, stale[1..])
  }

  /** Each element occurs in `order` exactly once, and nothing else does. */
  ghost predicate Enumerates<T(!new)>(order: seq<T>, elements: set<T>) {
    && (forall x :: x in order <==> x in elements)
    && (forall i, j :: 0 <= i < j < |order| ==> order[i] != order[j])
  }

  /** One pass of recovery, for an order of the walk, of the list and of the stale query. */
  function RecoveryPlan(s: Store, walk: seq<Hash>, listed: seq<Hash>, stale: seq<Hash>): seq<Stmt>
    requires forall h <- walk :: h in s.files
    requires forall h <- listed :: h in s.objects
  {
    WalkPlan(s, walk) + ReversePlan(s, listed) + CleanupPlan(s, stale)
  }

  /** The orders one pass may use; which old records count as stale is left open. */
  ghost predicate RecoveryOrders(s: Store, walk: seq<Hash>, listed: seq<Hash>, stale: seq<Hash>) {
    && Enumerates(walk, s.files.Keys)
    && Enumerates(listed, s.objects.Keys)
    && Enumerates(stale, set h | h in stale)
    && forall h <- stale :: h in s.objects && s.objects[h].status != Ready
  }
}
