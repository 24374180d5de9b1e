/**
 One Agent and the control plane as a single state machine.  Local calls run one at a
 time and can be cut by a crash between any two durable statements; the outbox is
 delivered meanwhile over a network that loses, delays and duplicates; every other client
 of the account stays silent.
 */
module AgentSystem {
  import opened Base
  import opened Wire
  import opened LocalStore
  import opened Outbox
  import ServerCatalog
  import opened Delivery

  const OWNER: UserId
  const DEVICE: DeviceId
  const ENDPOINT: Endpoint

  datatype Phase = Up | Booting

  /** What the delivery loop is doing with the head of the queue. */
  datatype Awaiting = Quiet | Waiting(row: nat) | Answered(row: nat, verdict: Verdict)

  datatype Sys = Sys(
    phase: Phase,
    store: Store,
    todo: seq<Stmt>,         // statements left of the operation or recovery under way
    goal: Option<nat>,       // the blocked purge report that operation will release
    ops: seq<Op>,
    used: set<FileId>,       // every local file id ever handed out
    carried: nat,            // rows already queued when the process last started
    sent: set<nat>,          // rows of which a copy may still be on the network
    awaiting: Awaiting,
    server: ServerCatalog.Catalog)

  function Initial(): Sys {
    Sys(Up, Store(map[], map[], map[]), [], None, [], {}, 0, {}, Quiet, ServerCatalog.EmptyCatalog())
  }

  datatype Event =
    | Import(bytes: Bytes)
    | CreateFile(id: FileId, obj: Hash, name: Name, mime: Mime)
    | RenameFile(id: FileId, name: Name, opId: OpId)
    | TrashFile(id: FileId, purgeAfter: Time, opId: OpId)
    | RestoreFile(id: FileId, opId: OpId)
    | BeginPurge(id: FileId, opId: OpId)
    | Advance
    | Activate
    | Abandon
    | Crash(walk: seq<Hash>, listed: seq<Hash>, stale: seq<Hash>)
    | FinishBoot
    | Send
    | Arrive(row: nat, uuid: ServerCatalog.FolderId, now: Time, heard: bool)
    | Hear(delay: int, now: Time)
    | GiveUp(delay: int, now: Time)

  /** A name the server will store as it is. */
  predicate ServerValid(name: Name) {
    TrimSpace(name) == name && NormalizeName(name).Some? && ByteLength(name) <= ServerCatalog.MAX_NAME
  }

  /** A new operation id: a UUID no queued report carries. */
  predicate NewOpId(ops: seq<Op>, opId: OpId) {
    && ServerCatalog.ValidOpId(opId)
    && forall op <- ops :: op.report.Lifecycle? ==> op.report.change.operationId != opId
  }

  /** No local call is under way. */
  predicate AtRest(s: Sys) {
    s.phase == Up && s.todo == [] && s.goal == None
  }

  function Queued(s: Sys, store: Store, report: Report, status: OpStatus): Sys {
    s.(store := store, ops := s.ops + [NewOp(report, status)])
  }

  function Change(opId: OpId, id: FileId, action: Action, name: Name, purgeAfter: Option<Time>): Report {
    Lifecycle(LifecycleReport(opId, id, action, name, purgeAfter))
  }

  function VerdictOf(answer: Answer): Verdict {
    match answer
    case Ok(_) => Accept
    case Err(FileNotFound) => Reject
    case Err(NameConflict) => Reject
    case Err(InvalidState) => Reject
    case Err(InvalidRequest) => Reject
    case Err(_) => Retry
  }

  /** The HTTP status with which both report handlers answer. */
  function CodeOf(answer: Answer): int {
    match answer
    case Ok(_) => 200
    case Err(FileNotFound) => 404
    case Err(NameConflict) => 409
    case Err(InvalidState) => 409
    case Err(InvalidRequest) => 400
    case Err(_) => 500
  }

  function WithStatus(s: Sys, row: nat, op: Op): Sys
    requires row < |s.ops|
  {
    s.(ops := s.ops[row := op])
  }

  function Lift(s: Sys, r: Result<Store, LocalError>, report: Report, status: OpStatus): Option<Sys> {
    match r case Err(_) => None case Ok(store) => Some(Queued(s, store, report, status))
  }

  function CreateStep(s: Sys, id: FileId, obj: Hash, name: Name, mime: Mime): Option<Sys> {
    if !AtRest(s) || id in s.used || !ServerCatalog.ValidFileId(id) || id == ServerCatalog.NO_FILE
       || !ServerValid(name) || !ServerCatalog.ValidHash(obj) || ServerCatalog.CleanEndpoint(ENDPOINT) == None
       || obj !in s.store.objects then None
    else
      var report := Registration(RegisterRequest(id, name, mime, s.store.objects[obj].size, obj, ENDPOINT));
      Lift(s.(used := s.used + {id}), CreateTx(s.store, id, OWNER, obj, name, NormalizeName(name).value), report, Pending)
  }

  function RenameStep(s: Sys, id: FileId, name: Name, opId: OpId): Option<Sys> {
    if !AtRest(s) || !ServerValid(name) || !NewOpId(s.ops, opId) then None
    else Lift(s, RenameTx(s.store, id, OWNER, name, NormalizeName(name).value), Change(opId, id, Rename, name, None), Pending)
  }

  function TrashStep(s: Sys, id: FileId, purgeAfter: Time, opId: OpId): Option<Sys> {
    if !AtRest(s) || !NewOpId(s.ops, opId) then None
    else Lift(s, TrashTx(s.store, id, OWNER, purgeAfter), Change(opId, id, Trash, NO_NAME, Some(purgeAfter)), Pending)
  }

  function RestoreStep(s: Sys, id: FileId, opId: OpId): Option<Sys> {
    if !AtRest(s) || !NewOpId(s.ops, opId) then None
    else Lift(s, RestoreTx(s.store, id, OWNER), Change(opId, id, Restore, NO_NAME, None), Pending)
  }

  /** The row is marked and the blocked report queued in one transaction; the saga follows. */
  function BeginPurgeStep(s: Sys, id: FileId, opId: OpId): Option<Sys> {
    if !AtRest(s) || !NewOpId(s.ops, opId) then None
    else
      var r := BeginPurgeTx(s.store, id, OWNER);
      if r.Err? then None
      else Some(Queued(s, r.value, Change(opId, id, Purge, NO_NAME, None), Processing)
                  .(todo := PurgePlan(r.value, id), goal := Some(|s.ops|)))
  }

  function AdvanceStep(s: Sys): Option<Sys> {
    if s.todo == [] || Exec(s.store, s.todo[0]) == None then None
    else Some(s.(store := Exec(s.store, s.todo[0]).value, todo := s.todo[1..]))
  }

  function ActivateStep(s: Sys): Option<Sys> {
    if s.todo != [] || s.goal == None || s.goal.value >= |s.ops| || s.ops[s.goal.value].status != Processing then None
    else Some(WithStatus(s, s.goal.value, s.ops[s.goal.value].(status := Pending)).(goal := None))
  }

  /** The purging caller goes away before its report is released. */
  function AbandonStep(s: Sys): Option<Sys> {
    if s.todo != [] || s.goal == None then None else Some(s.(goal := None))
  }

  ghost function CrashStep(s: Sys, walk: seq<Hash>, listed: seq<Hash>, stale: seq<Hash>): Option<Sys> {
    if !RecoveryOrders(s.store, walk, listed, stale) then None
    else Some(s.(phase := Booting, todo := RecoveryPlan(s.store, walk, listed, stale), goal := None,
                 carried := |s.ops|, awaiting := Quiet))
  }

  function FinishBootStep(s: Sys): Option<Sys> {
    if s.phase != Booting || s.todo != [] then None else Some(s.(phase := Up, ops := Released(s.ops)))
  }

  function SendStep(s: Sys): Option<Sys> {
    var h := Head(s.ops);
    if s.phase != Up || s.awaiting != Quiet || h == |s.ops| || s.ops[h].status != Pending then None
    else Some(WithStatus(s, h, s.ops[h].(status := Processing)).(sent := s.sent + {h}, awaiting := Waiting(h)))
  }

  /** A copy of a sent report reaches the server; its answer may get back. */
  function ArriveStep(s: Sys, row: nat, uuid: ServerCatalog.FolderId, now: Time, heard: bool): Option<Sys> {
    if row !in s.sent || row >= |s.ops| || s.ops[row].report.Unsupported? then None
    else
      var (server, answer) := Handle(s.server, DEVICE, s.ops[row].report, uuid, now);
      Some(s.(server := server,
              awaiting := if heard && s.awaiting == Waiting(row) then Answered(row, VerdictOf(answer)) else s.awaiting))
  }

  function Settled(op: Op, verdict: Verdict, delay: int, now: Time): Op {
    match verdict
    case Accept => op.(status := Completed)
    case Reject => op.(status := Failed)
    case Retry => Retryable(op, delay, now)
  }

  /**
   The system's settling of a report is the delivery loop's: an answer that gets back is
   classified by the status the handler sends, and one that does not is retried.
   */
  lemma SettlingIsDelivery(op: Op, answer: Answer, w: Weather, syncInterval: int, now: Time)
    requires !op.report.Unsupported? && w.hasToken
    ensures Classify(Status(CodeOf(answer))) == VerdictOf(answer)
    ensures w.first == Status(CodeOf(answer)) ==>
      Delivered(op, w, syncInterval, now) == Settled(op, VerdictOf(answer), Backoff(op, syncInterval), now)
    ensures w.first == NoReply ==> Delivered(op, w, syncInterval, now) == Retryable(op, Backoff(op, syncInterval), now)
  {
  }

  function HearStep(s: Sys, delay: int, now: Time): Option<Sys> {
    if !s.awaiting.Answered? || s.awaiting.row >= |s.ops| then None
    else Some(WithStatus(s, s.awaiting.row, Settled(s.ops[s.awaiting.row], s.awaiting.verdict, delay, now))
                .(awaiting := Quiet))
  }

  function GiveUpStep(s: Sys, delay: int, now: Time): Option<Sys> {
    if !s.awaiting.Waiting? || s.awaiting.row >= |s.ops| then None
    else Some(WithStatus(s, s.awaiting.row, Retryable(s.ops[s.awaiting.row], delay, now)).(awaiting := Quiet))
  }

  /** The state after an event, or nothing when the event cannot happen. */
  ghost function Next(s: Sys, ev: Event): Option<Sys> {
    match ev
    case Import(bytes) => if !AtRest(s) then None else Some(s.(todo := ImportPlan(s.store, bytes)))
    case CreateFile(id, obj, name, mime) => CreateStep(s, id, obj, name, mime)
    case RenameFile(id, name, opId) => RenameStep(s, id, name, opId)
    case TrashFile(id, purgeAfter, opId) => TrashStep(s, id, purgeAfter, opId)
    case RestoreFile(id, opId) => RestoreStep(s, id, opId)
    case BeginPurge(id, opId) => BeginPurgeStep(s, id, opId)
    case Advance => AdvanceStep(s)
    case Activate => ActivateStep(s)
    case Abandon => AbandonStep(s)
    case Crash(walk, listed, stale) => CrashStep(s, walk, listed, stale)
    case FinishBoot => FinishBootStep(s)
    case Send => SendStep(s)
    case Arrive(row, uuid, now, heard) => ArriveStep(s, row, uuid, now, heard)
    case Hear(delay, now) => HearStep(s, delay, now)
    case GiveUp(delay, now) => GiveUpStep(s, delay, now)
  }

  ghost predicate Follows(s: Sys, ev: Event, t: Sys) {
    Next(s, ev) == Some(t)
  }

  ghost predicate StepAt(run: seq<Sys>, events: seq<Event>, i: int) {
    0 <= i < |events| < |run| && Follows(run[i], events[i], run[i + 1])
  }

  /** A run from the initial state: each state follows from the one before by an event. */
  ghost predicate IsRun(run: seq<Sys>, events: seq<Event>) {
    && |run| == |events| + 1 && run[0] == Initial()
    && forall i :: 0 <= i < |events| ==> StepAt(run, events, i)
  }
}
