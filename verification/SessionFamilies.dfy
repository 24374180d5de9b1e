/** What every run of the identity service keeps: rotation chains, and revocation that is final. */
module SessionFamilies {
  import opened Base
  import opened Sessions

  // ---- The shape of every change ----

  /** No session is lost, rewritten or revived. */
  predicate Keeps(before: Table, after: Table) {
    forall i <- before ::
      && i in after && after[i].(revokedAt := before[i].revokedAt) == before[i]
      && (!IsLive(before[i]) ==> after[i] == before[i])
  }

  /** `i` starts a family, or succeeds the session it just revoked. */
  predicate Begins(before: Table, after: Table, i: SessionId)
    requires i in after
  {
    match after[i].rotatedFrom
    case None => forall j <- before :: before[j].family != after[i].family
    case Some(p) =>
      && p in before && IsLive(before[p]) && p in after && !IsLive(after[p])
      && after[i].family == before[p].family && after[i].user == before[p].user && after[i].device == before[p].device
  }

  /** At most one session is new, properly begun and with a hash of its own. */
  ghost predicate Shape(before: Table, after: Table) {
    && Keeps(before, after)
    && (forall i, j :: i in after && j in after && i !in before && j !in before ==> i == j)
    && (forall i <- after :: i in before || Begins(before, after, i))
    && (HashesUnique(before) ==> HashesUnique(after))
  }

  lemma RevokeAllShape(sessions: Table, ids: set<SessionId>, now: Time)
    ensures Shape(sessions, RevokeAll(sessions, ids, now))
    ensures forall i <- sessions :: i in ids ==> !IsLive(RevokeAll(sessions, ids, now)[i])
  {
  }

  lemma InsertHashes(sessions: Table, ticket: Ticket, user: UserId, device: DeviceId, family: FamilyId, from: Option<SessionId>)
    requires ticket.id !in sessions && HashesUnique(sessions)
    requires Insert(sessions, ticket, user, device, family, from).Ok?
    ensures HashesUnique(Insert(sessions, ticket, user, device, family, from).value)
  {
    assert forall i <- sessions :: !HasToken(sessions, i, ticket.token);
  }

  lemma SucceedShape(sessions: Table, id: SessionId, ticket: Ticket, now: Time)
    requires id in sessions && IsLive(sessions[id]) && ticket.id !in sessions && Succeed(sessions, id, ticket, now).Ok?
    ensures Shape(sessions, Succeed(sessions, id, ticket, now).value)
  {
    var mid, s := RevokeAll(sessions, {id}, now), sessions[id];
    RevokeAllShape(sessions, {id}, now);
    if HashesUnique(sessions) {
      InsertHashes(mid, ticket, s.user, s.device, s.family, Some(id));
    }
  }

  lemma RootShape(sessions: Table, ticket: Ticket, user: UserId, device: DeviceId, family: FamilyId)
    requires ticket.id !in sessions && forall i <- sessions :: sessions[i].family != family
    requires Insert(sessions, ticket, user, device, family, None).Ok?
    ensures Shape(sessions, Insert(sessions, ticket, user, device, family, None).value)
  {
    if HashesUnique(sessions) {
      InsertHashes(sessions, ticket, user, device, family, None);
    }
  }

  lemma RefreshedByShape(sessions: Table, id: SessionId, ticket: Ticket, now: Time)
    requires id in sessions && ticket.id !in sessions
    ensures Shape(sessions, RefreshedBy(sessions, id, ticket, now).0)
  {
    if Spent(sessions[id], now) {
      RevokeAllShape(sessions, InFamily(sessions, sessions[id].family), now);
    } else if Succeed(sessions, id, ticket, now).Ok? {
      SucceedShape(sessions, id, ticket, now);
    }
  }

  lemma ServeShape(db: Accounts, call: Call)
    requires FreshIds(db, call)
    ensures Shape(db.sessions, Serve(db, call).0.sessions)
  {
    match call
    case Login(user, device, family, ticket) =>
      if Insert(db.sessions, ticket, user, device, family, None).Ok? {
        RootShape(db.sessions, ticket, user, device, family);
      }
    case RegisterDevice(user, peer, newDevice, family, ticket) =>
      var r := Registered(db.devices, user, peer, newDevice);
      if r.Ok? && Insert(db.sessions, ticket, user, r.value.1, family, None).Ok? {
        RootShape(db.sessions, ticket, user, r.value.1, family);
      }
    case Refresh(token, ticket, now) =>
      if Owner(db.sessions, token).Some? {
        RefreshedByShape(db.sessions, Owner(db.sessions, token).value, ticket, now);
      }
    case Rotate(id, ticket, now) =>
      if id in db.sessions && IsLive(db.sessions[id]) && Succeed(db.sessions, id, ticket, now).Ok? {
        SucceedShape(db.sessions, id, ticket, now);
      }
    case Revoke(id, now) => RevokeAllShape(db.sessions, {id}, now);
    case RevokeFamily(family, now) => RevokeAllShape(db.sessions, InFamily(db.sessions, family), now);
    case DeregisterDevice(user, device, now) => RevokeAllShape(db.sessions, OnDevice(db.sessions, user, device), now);
    case ChangePassword(user, current, _, now) => RevokeAllShape(db.sessions, OthersOf(db.sessions, user, current), now);
    case SetUsers(_) =>
  }

  // ---- Chains of rotations ----

  /** `c` lists the family in rotation order; only its last session can be live. */
  ghost predicate IsChain(sessions: Table, family: FamilyId, c: seq<SessionId>) {
    && c != []
    && (forall i <- sessions :: i in c <==> sessions[i].family == family)
    && (forall k :: 0 <= k < |c| ==> c[k] in sessions)
    && (forall k, l :: 0 <= k < l < |c| ==> c[k] != c[l])
    && sessions[c[0]].rotatedFrom == None
    && (forall k :: 0 < k < |c| ==> sessions[c[k]].rotatedFrom == Some(c[k - 1]))
    && (forall k :: 0 <= k < |c| ==> sessions[c[k]].user == sessions[c[0]].user && sessions[c[k]].device == sessions[c[0]].device)
    && (forall k :: 0 <= k < |c| - 1 ==> !IsLive(sessions[c[k]]))
  }

  ghost predicate HasChain(sessions: Table, family: FamilyId) {
    exists c :: IsChain(sessions, family, c)
  }

  ghost predicate ChainedAt(sessions: Table, i: SessionId) {
    i in sessions ==> HasChain(sessions, sessions[i].family)
  }

  ghost predicate Chained(sessions: Table) {
    forall i :: ChainedAt(sessions, i)
  }

  /** A family that gains no session keeps its chain. */
  lemma ChainStays(before: Table, after: Table, family: FamilyId, c: seq<SessionId>)
    requires Keeps(before, after) && IsChain(before, family, c)
    requires forall i <- after :: i in before || after[i].family != family
    ensures IsChain(after, family, c)
  {
    forall i | i in after ensures i in c <==> after[i].family == family {
    }
  }

  /** A rotation extends the chain: the session it consumes was the last. */
  lemma ChainGrows(before: Table, after: Table, family: FamilyId, c: seq<SessionId>, new': SessionId)
    requires Shape(before, after) && IsChain(before, family, c)
    requires new' in after && new' !in before && after[new'].family == family
    ensures IsChain(after, family, c + [new'])
  {
    assert Begins(before, after, new');
    assert c[0] in before;
    var p := after[new'].rotatedFrom.value;
    assert p == c[|c| - 1];
    var d := c + [new'];
    forall i | i in after ensures i in d <==> after[i].family == family {
      assert i in d <==> i in c || i == new';
    }
  }

  lemma FamilyStays(before: Table, after: Table, family: FamilyId)
    requires Shape(before, after) && HasChain(before, family)
    ensures HasChain(after, family)
  {
    var c :| IsChain(before, family, c);
    if n :| n in after && n !in before && after[n].family == family {
      ChainGrows(before, after, family, c, n);
    } else {
      ChainStays(before, after, family, c);
    }
  }

  lemma FamilyStarts(before: Table, after: Table, i: SessionId)
    requires Shape(before, after) && i in after
    requires forall j <- before :: before[j].family != after[i].family
    ensures HasChain(after, after[i].family)
  {
    assert i !in before ==> Begins(before, after, i);
    assert IsChain(after, after[i].family, [i]);
  }

  lemma StepChained(before: Table, after: Table)
    requires Shape(before, after) && Chained(before)
    ensures Chained(after)
  {
    forall i ensures ChainedAt(after, i) {
      if i in after {
        if j :| j in before && before[j].family == after[i].family {
          assert ChainedAt(before, j);
          FamilyStays(before, after, after[i].family);
        } else {
          FamilyStarts(before, after, i);
        }
      }
    }
  }

  // ---- Dead families ----

  ghost predicate Dead(sessions: Table, family: FamilyId) {
    && (exists i <- sessions :: sessions[i].family == family)
    && forall i <- sessions :: sessions[i].family == family ==> !IsLive(sessions[i])
  }

  /** A dead family has no session to succeed, and its id is taken. */
  lemma NewcomerElsewhere(before: Table, after: Table, family: FamilyId, j: SessionId)
    requires Shape(before, after) && Dead(before, family) && j in after && j !in before
    ensures after[j].family != family
  {
    assert Begins(before, after, j);
  }

  lemma StepDead(before: Table, after: Table, family: FamilyId)
    requires Shape(before, after) && Dead(before, family)
    ensures Dead(after, family)
  {
    var i :| i in before && before[i].family == family;
    assert i in after && after[i].family == family;
    forall j | j in after && after[j].family == family ensures !IsLive(after[j]) {
      if j !in before {
        NewcomerElsewhere(before, after, family, j);
      }
    }
  }

  // ---- Runs ----

  ghost predicate Next(before: Accounts, call: Call, after: Accounts) {
    FreshIds(before, call) && after == Serve(before, call).0
  }

  ghost predicate StepAt(run: seq<Accounts>, calls: seq<Call>, i: int) {
    0 <= i < |calls| < |run| && Next(run[i], calls[i], run[i + 1])
  }

  ghost predicate IsRun(run: seq<Accounts>, calls: seq<Call>) {
    && |run| == |calls| + 1
    && run[0].sessions == map[] && run[0].devices == map[]
    && forall i :: 0 <= i < |calls| ==> StepAt(run, calls, i)
  }

  lemma NextKeeps(before: Accounts, call: Call, after: Accounts)
    requires Next(before, call, after)
    ensures Chained(before.sessions) ==> Chained(after.sessions)
    ensures HashesUnique(before.sessions) ==> HashesUnique(after.sessions)
  {
    ServeShape(before, call);
    if Chained(before.sessions) {
      StepChained(before.sessions, after.sessions);
    }
  }

  lemma {:induction false} RunChained(run: seq<Accounts>, calls: seq<Call>, i: nat)
    requires IsRun(run, calls) && i < |run|
    ensures Chained(run[i].sessions)
  {
    if i > 0 {
      RunChained(run, calls, i - 1);
      assert StepAt(run, calls, i - 1);
      NextKeeps(run[i - 1], calls[i - 1], run[i]);
    }
  }

  lemma {:induction false} RunHashes(run: seq<Accounts>, calls: seq<Call>, i: nat)
    requires IsRun(run, calls) && i < |run|
    ensures HashesUnique(run[i].sessions)
  {
    if i > 0 {
      RunHashes(run, calls, i - 1);
      assert StepAt(run, calls, i - 1);
      NextKeeps(run[i - 1], calls[i - 1], run[i]);
    }
  }

  /**
   In every reachable state each session belongs to one chain of rotations that is its whole
   family, on one device of one user, and at most its last session is unrevoked.
   */
  lemma FamiliesAreChains(run: seq<Accounts>, calls: seq<Call>, i: nat, id: SessionId) returns (c: seq<SessionId>)
    requires IsRun(run, calls) && i < |run| && id in run[i].sessions
    ensures id in c && IsChain(run[i].sessions, run[i].sessions[id].family, c)
  {
    RunChained(run, calls, i);
    assert ChainedAt(run[i].sessions, id);
    c :| IsChain(run[i].sessions, run[i].sessions[id].family, c);
  }

  /** A session as it was at first: only its revocation may differ, and is final. */
  predicate SameSession(before: Session, after: Session) {
    && after.(revokedAt := before.revokedAt) == before
    && (!IsLive(before) ==> !IsLive(after))
  }

  predicate Remains(before: Table, after: Table, id: SessionId)
    requires id in before
  {
    id in after && SameSession(before[id], after[id])
  }

  lemma NextSession(before: Accounts, call: Call, after: Accounts, id: SessionId)
    requires Next(before, call, after) && id in before.sessions
    ensures Remains(before.sessions, after.sessions, id)
  {
    ServeShape(before, call);
  }

  lemma {:induction false} RevokedForever(run: seq<Accounts>, calls: seq<Call>, i: nat, j: nat, id: SessionId)
    requires IsRun(run, calls) && i <= j < |run| && id in run[i].sessions
    ensures Remains(run[i].sessions, run[j].sessions, id)
    decreases j
  {
    if i < j {
      RevokedForever(run, calls, i, j - 1, id);
      assert StepAt(run, calls, j - 1);
      NextSession(run[j - 1], calls[j - 1], run[j], id);
    }
  }

  lemma NextDead(before: Accounts, call: Call, after: Accounts, family: FamilyId)
    requires Next(before, call, after) && Dead(before.sessions, family)
    ensures Dead(after.sessions, family)
  {
    ServeShape(before, call);
    StepDead(before.sessions, after.sessions, family);
  }

  lemma {:induction false} DeadForever(run: seq<Accounts>, calls: seq<Call>, i: nat, j: nat, family: FamilyId)
    requires IsRun(run, calls) && i <= j < |run| && Dead(run[i].sessions, family)
    ensures Dead(run[j].sessions, family)
    decreases j
  {
    if i < j {
      DeadForever(run, calls, i, j - 1, family);
      assert StepAt(run, calls, j - 1);
      NextDead(run[j - 1], calls[j - 1], run[j], family);
    }
  }

  /** A session nobody can use again: neither its access tokens nor its refresh token. */
  ghost predicate Unusable(db: Accounts, id: SessionId) {
    && (forall user, device, now :: Authenticate(db, Claims(user, device, id), now).Some?)
    && (forall token, ticket, now :: HasToken(db.sessions, id, token) ==> Serve(db, Refresh(token, ticket, now)).1.Some?)
    && (forall ticket, now :: Serve(db, Rotate(id, ticket, now)).1.Some?)
  }

  lemma RevokedIsUnusable(db: Accounts, id: SessionId)
    requires HashesUnique(db.sessions) && id in db.sessions && !IsLive(db.sessions[id])
    ensures Unusable(db, id)
  {
    forall token, ticket, now | HasToken(db.sessions, id, token)
      ensures Serve(db, Refresh(token, ticket, now)).1.Some?
    {
      assert Owner(db.sessions, token) == Some(id);
    }
  }

  /** No session of the family is live, and none can be used. */
  ghost predicate Ended(db: Accounts, family: FamilyId) {
    Dead(db.sessions, family) && forall i <- db.sessions :: db.sessions[i].family == family ==> Unusable(db, i)
  }

  lemma DeadIsEnded(db: Accounts, family: FamilyId)
    requires HashesUnique(db.sessions) && Dead(db.sessions, family)
    ensures Ended(db, family)
  {
    forall i | i in db.sessions && db.sessions[i].family == family ensures Unusable(db, i) {
      RevokedIsUnusable(db, i);
    }
  }

  lemma EndedForever(run: seq<Accounts>, calls: seq<Call>, i: nat, j: nat, family: FamilyId)
    requires IsRun(run, calls) && i <= j < |run| && Dead(run[i].sessions, family)
    ensures Ended(run[j], family)
  {
    DeadForever(run, calls, i, j, family);
    RunHashes(run, calls, j);
    DeadIsEnded(run[j], family);
  }

  lemma FamilyRevoked(before: Table, now: Time, id: SessionId)
    requires id in before
    ensures Dead(RevokeAll(before, InFamily(before, before[id].family), now), before[id].family)
  {
    var after := RevokeAll(before, InFamily(before, before[id].family), now);
    assert id in after && after[id].family == before[id].family;
  }

  lemma ReplayStep(before: Accounts, call: Call, after: Accounts, id: SessionId)
    requires HashesUnique(before.sessions) && Next(before, call, after) && call.Refresh?
    requires HasToken(before.sessions, id, call.token)
    requires before.sessions[id].revokedAt.Some? || call.now > before.sessions[id].expires
    ensures Serve(before, call).1 == Some(InvalidRefreshToken)
    ensures Dead(after.sessions, before.sessions[id].family)
  {
    assert Owner(before.sessions, call.token) == Some(id);
    FamilyRevoked(before.sessions, call.now, id);
  }

  /** Revoking every session on a device leaves no family with a session there alive. */
  lemma DeviceRevoked(before: Table, user: UserId, device: DeviceId, now: Time, id: SessionId, c: seq<SessionId>)
    requires id in OnDevice(before, user, device) && IsChain(before, before[id].family, c)
    ensures Dead(RevokeAll(before, OnDevice(before, user, device), now), before[id].family)
  {
    var after, family := RevokeAll(before, OnDevice(before, user, device), now), before[id].family;
    assert id in c;
    forall k | k in after && after[k].family == family ensures !IsLive(after[k]) {
      assert k in c;
    }
    assert id in after && after[id].family == family;
  }

  lemma DeregisterStep(before: Accounts, call: Call, after: Accounts, id: SessionId, c: seq<SessionId>)
    requires Next(before, call, after) && call.DeregisterDevice? && Serve(before, call).1 == None
    requires id in OnDevice(before.sessions, call.user, call.device)
    requires IsChain(before.sessions, before.sessions[id].family, c)
    ensures Dead(after.sessions, before.sessions[id].family)
  {
    DeviceRevoked(before.sessions, call.user, call.device, call.now, id, c);
  }

  /**
   Replay containment.  Presenting a revoked or expired refresh token is refused, and from
   then on, whatever else happens, its family never has an unrevoked session again and none
   of the family's sessions can be used.
   */
  lemma ReplayEndsFamily(run: seq<Accounts>, calls: seq<Call>, i: nat, j: nat, id: SessionId)
    requires IsRun(run, calls) && i < j < |run| && calls[i].Refresh?
    requires id in run[i].sessions && run[i].sessions[id].refreshHash == Sha(calls[i].token)
    requires run[i].sessions[id].revokedAt.Some? || calls[i].now > run[i].sessions[id].expires
    ensures Serve(run[i], calls[i]).1 == Some(InvalidRefreshToken)
    ensures Ended(run[j], run[i].sessions[id].family)
  {
    RunHashes(run, calls, i);
    assert StepAt(run, calls, i);
    ReplayStep(run[i], calls[i], run[i + 1], id);
    EndedForever(run, calls, i + 1, j, run[i].sessions[id].family);
  }

  lemma RefreshOutcome(before: Accounts, call: Call, after: Accounts, id: SessionId)
    requires HashesUnique(before.sessions) && Next(before, call, after) && call.Refresh?
    requires HasToken(before.sessions, id, call.token)
    ensures var s, ticket := before.sessions[id], call.ticket;
      var refusal := Serve(before, call).1;
      && (refusal == None <==>
            && s.revokedAt == None && call.now <= s.expires
            && forall k <- before.sessions :: before.sessions[k].refreshHash != Sha(ticket.token))
      && (refusal == None ==>
            after == before.(sessions := before.sessions[id := s.(revokedAt := Some(call.now))]
              [ticket.id := Session(s.user, s.device, s.family, Sha(ticket.token), ticket.expires, None, Some(id))]))
      && (refusal != None && s.revokedAt == None && call.now <= s.expires ==> refusal == Some(Internal) && after == before)
  {
    assert Owner(before.sessions, call.token) == Some(id);
    if before.sessions[id].revokedAt == None {
      SuccessionIs(before.sessions, id, call.ticket, call.now);
    }
  }

  /**
   When a refresh is granted, in any reachable state: exactly for an unrevoked session that
   has not expired and a new token whose hash no session has.  The session presented is then
   revoked, its successor has its user, device and family and the expiry of the call, and
   nothing else changes; a hash that is taken leaves everything as it was.
   */
  lemma RefreshExactly(run: seq<Accounts>, calls: seq<Call>, i: nat, id: SessionId)
    requires IsRun(run, calls) && i < |calls| && calls[i].Refresh?
    requires id in run[i].sessions && run[i].sessions[id].refreshHash == Sha(calls[i].token)
    ensures var s, ticket, now := run[i].sessions[id], calls[i].ticket, calls[i].now;
      var refusal := Serve(run[i], calls[i]).1;
      && (refusal == None <==>
            && s.revokedAt == None && now <= s.expires
            && forall k <- run[i].sessions :: run[i].sessions[k].refreshHash != Sha(ticket.token))
      && (refusal == None ==>
            run[i + 1] == run[i].(sessions := run[i].sessions[id := s.(revokedAt := Some(now))]
              [ticket.id := Session(s.user, s.device, s.family, Sha(ticket.token), ticket.expires, None, Some(id))]))
      && (refusal != None && s.revokedAt == None && now <= s.expires ==>
            refusal == Some(Internal) && run[i + 1] == run[i])
  {
    RunHashes(run, calls, i);
    assert StepAt(run, calls, i);
    RefreshOutcome(run[i], calls[i], run[i + 1], id);
  }

  /** Exactly when the access token of a session is accepted. */
  lemma AuthenticatesExactly(db: Accounts, claims: Claims, now: Time)
    ensures Authenticate(db, claims, now) == None <==>
      && claims.session in db.sessions
      && var s := db.sessions[claims.session];
      && s.revokedAt == None && now <= s.expires && s.user == claims.user && s.device == claims.device
      && s.device in db.devices && db.devices[s.device].active && db.devices[s.device].user == s.user
      && s.user in db.activeUsers
  {
  }

  /** The session a granted call issued, if it did. */
  function Issued(call: Call): Option<Ticket> {
    match call
    case Login(_, _, _, ticket) => Some(ticket)
    case RegisterDevice(_, _, _, _, ticket) => Some(ticket)
    case Refresh(_, ticket, _) => Some(ticket)
    case Rotate(_, ticket, _) => Some(ticket)
    case _ => None
  }

  lemma IssuedRow(before: Accounts, call: Call, after: Accounts)
    requires Next(before, call, after) && Issued(call).Some? && Serve(before, call).1 == None
    ensures var ticket := Issued(call).value;
      && ticket.id in after.sessions
      && var s := after.sessions[ticket.id];
      s.refreshHash == Sha(ticket.token) && s.expires == ticket.expires && s.revokedAt == None
  {
  }

  /**
   How long a session lasts.  A session issued at one point of a run is accepted at a later
   one for as long as its ticket said, exactly if it was not revoked since, its device is
   active and its user is: nothing else, no rotation elsewhere and no other sign-in, ends it.
   */
  lemma SessionLasts(run: seq<Accounts>, calls: seq<Call>, i: nat, j: nat, now: Time)
    requires IsRun(run, calls) && i < j < |run|
    requires Issued(calls[i]).Some? && Serve(run[i], calls[i]).1 == None
    ensures var ticket := Issued(calls[i]).value;
      && ticket.id in run[i + 1].sessions && ticket.id in run[j].sessions
      && var s, d := run[i + 1].sessions[ticket.id], run[j].devices;
      && (Authenticate(run[j], Claims(s.user, s.device, ticket.id), now) == None <==>
            && run[j].sessions[ticket.id].revokedAt == None && now <= ticket.expires
            && s.device in d && d[s.device].active && d[s.device].user == s.user && s.user in run[j].activeUsers)
  {
    assert StepAt(run, calls, i);
    IssuedRow(run[i], calls[i], run[i + 1]);
    RevokedForever(run, calls, i + 1, j, Issued(calls[i]).value.id);
  }

  /** A refresh token is granted at most once in a run: the loser of any race ends the family. */
  lemma GrantedOnce(run: seq<Accounts>, calls: seq<Call>, i: nat, j: nat)
    requires IsRun(run, calls) && i < j < |calls| && calls[i].Refresh? && calls[j].Refresh?
    requires calls[i].token == calls[j].token && Serve(run[i], calls[i]).1 == None
    ensures Serve(run[j], calls[j]).1 == Some(InvalidRefreshToken)
    ensures Owner(run[i].sessions, calls[i].token).Some?
    ensures var id := Owner(run[i].sessions, calls[i].token).value;
      id in run[j + 1].sessions && Ended(run[j + 1], run[j + 1].sessions[id].family)
  {
    var id := Owner(run[i].sessions, calls[i].token).value;
    assert StepAt(run, calls, i);
    ServeShape(run[i], calls[i]);
    RevokedForever(run, calls, i + 1, j, id);
    RevokedForever(run, calls, j, j + 1, id);
    ReplayEndsFamily(run, calls, j, j + 1, id);
  }

  /**
   Deregistration is final for the sessions of the device: none of them, and no later session
   of their families, is ever usable again, even after the device is reactivated.
   */
  lemma DeregistrationIsFinal(run: seq<Accounts>, calls: seq<Call>, i: nat, j: nat, id: SessionId)
    requires IsRun(run, calls) && i < j < |run| && calls[i].DeregisterDevice? && Serve(run[i], calls[i]).1 == None
    requires id in run[i].sessions
    requires run[i].sessions[id].device == calls[i].device && run[i].sessions[id].user == calls[i].user
    ensures Ended(run[j], run[i].sessions[id].family)
    ensures id in run[j].sessions && Unusable(run[j], id)
  {
    var c := FamiliesAreChains(run, calls, i, id);
    assert StepAt(run, calls, i);
    DeregisterStep(run[i], calls[i], run[i + 1], id, c);
    EndedForever(run, calls, i + 1, j, run[i].sessions[id].family);
    RevokedForever(run, calls, i, j, id);
  }

  /** After a password change no session but the one that made it is ever usable again. */
  lemma PasswordChangeSignsOut(run: seq<Accounts>, calls: seq<Call>, i: nat, j: nat, id: SessionId)
    requires IsRun(run, calls) && i < j < |run| && calls[i].ChangePassword? && Serve(run[i], calls[i]).1 == None
    requires id in run[i].sessions && run[i].sessions[id].user == calls[i].user && id != calls[i].current
    ensures Unusable(run[j], id)
  {
    assert StepAt(run, calls, i);
    RevokeAllShape(run[i].sessions, OthersOf(run[i].sessions, calls[i].user, calls[i].current), calls[i].now);
    RevokedForever(run, calls, i + 1, j, id);
    RunHashes(run, calls, j);
    RevokedIsUnusable(run[j], id);
  }
}
