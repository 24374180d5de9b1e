/** The per-device queue of lifecycle commands. */
module DeviceCommands {
  import opened Base
  import opened Wire
  import Catalog = ServerCatalog
  import Transfer = TransferTask

  /** Ids break ties in the claim order, so they are numbers here. */
  type CommandId = nat

  const MAX_ATTEMPTS := 10
  const MAX_LEASE := 600 * SECOND
  const DEFAULT_LEASE := 120 * SECOND

  datatype CommandState = Queued | Leased | Completed | Failed

  datatype Command = Command(
    device: DeviceId, action: Action, localFileId: FileId, createdAt: Time,
    state: CommandState, attempt: nat, leaseUntil: Option<Time>)

  type Copies = map<Catalog.ReplicaKey, Catalog.Replica>

  function Lease(requested: int): int {
    if requested <= 0 || requested > MAX_LEASE then DEFAULT_LEASE else requested
  }

  predicate Claimable(c: Command, device: DeviceId, now: Time) {
    && c.device == device
    && (c.state == Queued || (c.state == Leased && c.leaseUntil.Some? && c.leaseUntil.value <= now))
  }

  function Claimed(c: Command, lease: int, now: Time): Command {
    c.(state := Leased, attempt := c.attempt + 1, leaseUntil := Some(now + Lease(lease)))
  }

  function Finished(c: Command, success: bool, now: Time): Command {
    if success then c.(state := Completed, leaseUntil := None)
    else if c.attempt >= MAX_ATTEMPTS then c.(state := Failed, leaseUntil := None)
    else c.(state := Queued, leaseUntil := Some(now + Transfer.Backoff(c.attempt)))
  }

  /** A confirmed purge takes the device's copies that carry the file id. */
  function WithoutCopies(replicas: Copies, device: DeviceId, localFileId: FileId): Copies {
    map r | r in replicas ::
      if r.device == device && replicas[r].clientFileId == Some(localFileId)
      then replicas[r].(state := Catalog.ReplicaDeleted, version := replicas[r].version + 1)
      else replicas[r]
  }

  /** ORDER BY created_at, id. */
  predicate Older(a: Command, i: CommandId, b: Command, j: CommandId) {
    a.createdAt < b.createdAt || (a.createdAt == b.createdAt && i < j)
  }

  ghost predicate IsOldest(commands: map<CommandId, Command>, ids: set<CommandId>, id: CommandId)
    requires ids <= commands.Keys
  {
    id in ids && forall other <- ids :: other != id ==> Older(commands[id], id, commands[other], other)
  }

  lemma {:induction false} OldestExists(commands: map<CommandId, Command>, ids: set<CommandId>) returns (id: CommandId)
    requires ids != {} && ids <= commands.Keys
    ensures IsOldest(commands, ids, id)
    decreases |ids|
  {
    id :| id in ids;
    if ids != {id} {
      var best := OldestExists(commands, ids - {id});
      if !Older(commands[id], id, commands[best], best) {
        id := best;
      }
    }
  }

  class Repository {
    var commands: map<CommandId, Command>
    var replicas: Copies

    constructor (replicas: Copies)
      ensures commands == map[] && this.replicas == replicas
    {
      commands, this.replicas := map[], replicas;
    }

    /** The oldest command that is queued or whose lease ran out. */
    method ClaimDeviceCommand(device: DeviceId, lease: int, now: Time) returns (claimed: Option<CommandId>)
      modifies this`commands
      ensures claimed == None <==> forall i <- old(commands) :: !Claimable(old(commands)[i], device, now)
      ensures claimed == None ==> commands == old(commands)
      ensures claimed.Some? ==>
        && var ids := set i | i in old(commands) && Claimable(old(commands)[i], device, now);
        && IsOldest(old(commands), ids, claimed.value)
        && commands == old(commands)[claimed.value := Claimed(old(commands)[claimed.value], lease, now)]
      ensures claimed.Some? ==>
        && claimed.value in old(commands)
        && var c := old(commands)[claimed.value];
        && c.device == device && (c.state == Queued || (c.state == Leased && c.leaseUntil.Some? && c.leaseUntil.value <= now))
        && commands == old(commands)[claimed.value := c.(
             state := Leased, attempt := c.attempt + 1,
             leaseUntil := Some(now + if 0 < lease <= 600 * SECOND then lease else 120 * SECOND))]
      ensures forall i <- old(commands) ::
        var c := old(commands)[i];
        c.device == device && (c.state == Queued || (c.state == Leased && c.leaseUntil.Some? && c.leaseUntil.value <= now)) ==>
        && claimed.Some? && claimed.value in old(commands)
        && var first := old(commands)[claimed.value];
        first.createdAt < c.createdAt || (first.createdAt == c.createdAt && claimed.value <= i)
    {
      var duration := lease;
      if lease <= 0 || lease > MAX_LEASE {
        duration := DEFAULT_LEASE;
      }
      var ids := set i | i in commands && Claimable(commands[i], device, now);
      if ids == {} {
        assert forall i <- commands :: Claimable(commands[i], device, now) ==> i in ids;
        return None;
      }
      ghost var _ := OldestExists(commands, ids);
      var id :| id in ids && forall other <- ids :: other != id ==> Older(commands[id], id, commands[other], other);
      var c := commands[id];
      commands := commands[id := c.(state := Leased, attempt := c.attempt + 1, leaseUntil := Some(now + duration))];
      claimed := Some(id);
    }

    /** A leased command ends, or goes back to the queue; a confirmed purge takes the copies along. */
    method FinishDeviceCommand(device: DeviceId, id: CommandId, success: bool, now: Time) returns (found: bool)
      modifies this
      ensures found <==> id in old(commands) && old(commands)[id].device == device && old(commands)[id].state == Leased
      ensures !found ==> commands == old(commands) && replicas == old(replicas)
      ensures found ==>
        && commands == old(commands)[id := Finished(old(commands)[id], success, now)]
        && replicas == if success && old(commands)[id].action == Purge
                       then WithoutCopies(old(replicas), device, old(commands)[id].localFileId) else old(replicas)
      ensures found ==>
        var c := old(commands)[id];
        commands == old(commands)[id :=
          if success then c.(state := Completed, leaseUntil := None)
          else if c.attempt >= 10 then c.(state := Failed, leaseUntil := None)
          else c.(state := Queued, leaseUntil := Some(now + Transfer.Backoff(c.attempt)))]
      ensures replicas.Keys == old(replicas).Keys
      ensures forall k <- replicas ::
        var copy := old(replicas)[k];
        replicas[k] == if found && success && old(commands)[id].action == Purge
            && k.device == device && copy.clientFileId == Some(old(commands)[id].localFileId)
          then copy.(state := Catalog.ReplicaDeleted, version := copy.version + 1) else copy
    {
      if id !in commands || commands[id].device != device || commands[id].state != Leased {
        return false;
      }
      var c := commands[id];
      var state := if success then Completed else if c.attempt >= MAX_ATTEMPTS then Failed else Queued;
      var until := None;
      if !success && c.attempt < MAX_ATTEMPTS {
        until := Some(now + Transfer.Backoff(c.attempt));
      }
      commands := commands[id := c.(state := state, leaseUntil := until)];
      if success && c.action == Purge {
        replicas := WithoutCopies(replicas, device, c.localFileId);
      }
      found := true;
    }
  }

  // ---- The life of one command ----

  /** A command and, for each claim so far, the attempt number the claimant was handed. */
  datatype CommandRun = CommandRun(cmd: Command, handed: seq<nat>)

  datatype CommandEvent = Claim(lease: int, now: Time) | FinishBy(claimant: nat, success: bool, now: Time)

  /** The run after a call that takes effect on the command, or nothing. */
  function Step(r: CommandRun, ev: CommandEvent): Option<CommandRun> {
    var c := r.cmd;
    match ev
    case Claim(lease, now) =>
      if !Claimable(c, c.device, now) then None
      else Some(CommandRun(Claimed(c, lease, now), r.handed + [Claimed(c, lease, now).attempt]))
    case FinishBy(i, success, now) =>
      if i < |r.handed| && c.state == Leased then Some(r.(cmd := Finished(c, success, now))) else None
  }

  ghost predicate StepAt(run: seq<CommandRun>, events: seq<CommandEvent>, i: int) {
    0 <= i < |events| < |run| && Step(run[i], events[i]) == Some(run[i + 1])
  }

  predicate NewCommand(c: Command) {
    c.state == Queued && c.attempt == 0 && c.leaseUntil == None
  }

  ghost predicate IsCommandRun(run: seq<CommandRun>, events: seq<CommandEvent>) {
    && |run| == |events| + 1
    && NewCommand(run[0].cmd) && run[0].handed == []
    && forall i :: 0 <= i < |events| ==> StepAt(run, events, i)
  }

  function Failures(events: seq<CommandEvent>): nat {
    if events == [] then 0
    else
      var e := events[|events| - 1];
      Failures(events[..|events| - 1]) + (if e.FinishBy? && !e.success then 1 else 0)
  }

  ghost predicate Counted(c: Command, failures: nat) {
    && (c.state == Leased ==> failures < c.attempt && c.leaseUntil.Some?)
    && failures <= c.attempt
    && (c.state != Failed ==> failures < MAX_ATTEMPTS)
    && (c.state == Failed ==> c.attempt >= MAX_ATTEMPTS)
    && failures <= MAX_ATTEMPTS
  }

  lemma {:induction false} RunCounted(run: seq<CommandRun>, events: seq<CommandEvent>, n: nat)
    requires IsCommandRun(run, events) && n < |run|
    ensures Counted(run[n].cmd, Failures(events[..n]))
  {
    if n > 0 {
      RunCounted(run, events, n - 1);
      assert StepAt(run, events, n - 1);
      assert events[..n][..n - 1] == events[..n - 1];
    }
  }

  /**
   Over every run of one command: at most ten failure reports are accepted, it fails for good
   only after ten claims, and nothing happens to it once it completed or failed.
   */
  lemma CommandLifecycle(run: seq<CommandRun>, events: seq<CommandEvent>, i: nat)
    requires IsCommandRun(run, events) && i < |run|
    ensures Failures(events) <= MAX_ATTEMPTS
    ensures run[i].cmd.state == Failed ==> run[i].cmd.attempt >= MAX_ATTEMPTS
    ensures run[i].cmd.state == Failed || run[i].cmd.state == Completed ==> i == |events|
  {
    RunCounted(run, events, |events|);
    assert events[..|events|] == events;
    RunCounted(run, events, i);
    if i < |events| {
      assert StepAt(run, events, i);
    }
  }

  /**
   The delay a failure records holds nothing back: the queue ignores lease_until, so the
   command can be claimed again at once, and only the attempt limit ends the retries.
   */
  lemma BackoffIsIgnored(c: Command, now: Time, later: Time)
    requires c.state == Leased
    ensures Claimable(Finished(c, false, now), c.device, later) <==> c.attempt < MAX_ATTEMPTS
  {
  }

  /** When a claimed command may be handed out again. */
  lemma NoClaimUnderLease(c: Command, device: DeviceId, lease: int, now: Time, later: Time)
    ensures Claimable(Claimed(c, lease, now), device, later) <==> device == c.device && later >= now + Lease(lease)
  {
  }

  /** In every run, between two claims of a command lies a finish or the end of the first lease. */
  lemma LeasesExclude(run: seq<CommandRun>, events: seq<CommandEvent>, i: nat)
    requires IsCommandRun(run, events) && i + 1 < |events| && events[i].Claim? && events[i + 1].Claim?
    ensures events[i + 1].now >= events[i].now + Lease(events[i].lease)
  {
    assert StepAt(run, events, i) && StepAt(run, events, i + 1);
    var c := run[i].cmd;
    NoClaimUnderLease(c, c.device, events[i].lease, events[i].now, events[i + 1].now);
  }

  // ---- Whose claim a finish ends ----

  /** The claims are numbered: the i-th claimant was handed attempt i + 1. */
  predicate Numbered(r: CommandRun) {
    |r.handed| == r.cmd.attempt && forall i :: 0 <= i < |r.handed| ==> r.handed[i] == i + 1
  }

  lemma {:induction false} RunNumbered(run: seq<CommandRun>, events: seq<CommandEvent>, i: nat)
    requires IsCommandRun(run, events) && i < |run|
    ensures Numbered(run[i])
  {
    if i > 0 {
      RunNumbered(run, events, i - 1);
      assert StepAt(run, events, i - 1);
    }
  }

  /**
   The exact condition for a finish to be the latest claimant's, which nothing in the server
   compares: the attempt number the claimant was handed is still the command's.
   */
  lemma FinishIsLatest(run: seq<CommandRun>, events: seq<CommandEvent>, i: nat)
    requires IsCommandRun(run, events) && i < |events| && events[i].FinishBy?
    ensures events[i].claimant < |run[i].handed|
    ensures events[i].claimant == |run[i].handed| - 1 <==> run[i].handed[events[i].claimant] == run[i].cmd.attempt
  {
    RunNumbered(run, events, i);
    assert StepAt(run, events, i);
  }

  /** A finish is accepted exactly while the command is leased, whichever claimant sends it. */
  lemma AnyClaimantFinishes(run: seq<CommandRun>, events: seq<CommandEvent>, i: nat, claimant: nat, success: bool, now: Time)
    requires IsCommandRun(run, events) && i < |run| && claimant < |run[i].handed|
    ensures Step(run[i], FinishBy(claimant, success, now)).Some? <==> run[i].cmd.state == Leased
    ensures run[i].cmd.state == Leased ==>
      Step(run[i], FinishBy(claimant, success, now)) == Step(run[i], FinishBy(|run[i].handed| - 1, success, now))
  {
  }

  /** Time does not go back. */
  predicate ClockRuns(events: seq<CommandEvent>) {
    forall i, j :: 0 <= i < j < |events| ==> events[i].now <= events[j].now
  }

  /**
   How a finish can hit someone else's claim.  If it comes from a claimant who is not the
   latest, then since that claimant's claim an earlier finish was accepted, or its own lease
   has run out.
   */
  lemma StaleFinish(run: seq<CommandRun>, events: seq<CommandEvent>, claim: nat, i: nat)
    requires IsCommandRun(run, events) && ClockRuns(events) && claim < i < |events|
    requires events[claim].Claim? && events[i].FinishBy? && events[i].claimant == |run[claim].handed|
    requires events[i].claimant != |run[i].handed| - 1
    ensures (exists k :: claim < k < i && events[k].FinishBy?) || events[i].now >= events[claim].now + Lease(events[claim].lease)
  {
    assert StepAt(run, events, claim);
    if events[claim + 1].Claim? {
      LeasesExclude(run, events, claim);
    }
  }

  /**
   Both ways happen.  A failure repeated inside the first lease, after the retry was claimed at
   once, takes effect on the second claim; and so does a finish after the lease ran out.
   */
  lemma StaleFinishHappens(c: Command, repeated: bool, success: bool) returns (run: seq<CommandRun>, events: seq<CommandEvent>)
    requires NewCommand(c)
    ensures IsCommandRun(run, events) && run[0].cmd == c && ClockRuns(events)
    ensures var last := |events| - 1;
      && last > 0 && events[0].Claim? && events[last] == FinishBy(0, success, events[last].now) && |run[last].handed| == 2
      && (repeated <==> events[last].now < events[0].now + Lease(events[0].lease))
      && run[last + 1].cmd.state == (if success then Completed else Queued)
  {
    var r0 := CommandRun(c, []);
    var first := Claim(0, 0);
    var r1 := Step(r0, first).value;
    if repeated {
      var failed, second := FinishBy(0, false, SECOND), Claim(0, 2 * SECOND);
      var r2 := Step(r1, failed).value;
      var r3 := Step(r2, second).value;
      var stale := FinishBy(0, success, 3 * SECOND);
      run, events := [r0, r1, r2, r3, Step(r3, stale).value], [first, failed, second, stale];
      assert StepAt(run, events, 0) && StepAt(run, events, 1) && StepAt(run, events, 2) && StepAt(run, events, 3);
    } else {
      var second := Claim(0, DEFAULT_LEASE);
      var r2 := Step(r1, second).value;
      var stale := FinishBy(0, success, DEFAULT_LEASE + SECOND);
      run, events := [r0, r1, r2, Step(r2, stale).value], [first, second, stale];
      assert StepAt(run, events, 0) && StepAt(run, events, 1) && StepAt(run, events, 2);
    }
  }
}
