/** Devices, and the refresh-token sessions they hold. */
module Sessions {
  import opened Base

  type SessionId(==, 0, !new)
  type FamilyId(==, 0, !new)
  type PeerId(==, 0, !new)
  type Token = Bytes

  datatype Session = Session(
    user: UserId, device: DeviceId, family: FamilyId, refreshHash: Hash,
    expires: Time, revokedAt: Option<Time>, rotatedFrom: Option<SessionId>)
  datatype Device = Device(user: UserId, peer: PeerId, active: bool)

  type Table = map<SessionId, Session>

  datatype Accounts = Accounts(sessions: Table, devices: map<DeviceId, Device>, activeUsers: set<UserId>)

  datatype IdentityError =
    | InvalidRefreshToken | SessionNotActive | SessionNotFound | DeviceNotFound | DeviceConflict
    | InvalidCredentials | Internal

  datatype Claims = Claims(user: UserId, device: DeviceId, session: SessionId)

  /** What an operation that issues a session generates for it. */
  datatype Ticket = Ticket(id: SessionId, token: Token, expires: Time)

  // ---- Statements ----

  predicate IsLive(s: Session) {
    s.revokedAt == None
  }

  /** UPDATE sessions SET revoked_at WHERE ... AND revoked_at IS NULL. */
  function RevokeAll(sessions: Table, ids: set<SessionId>, now: Time): Table {
    map i | i in sessions ::
      if i in ids && IsLive(sessions[i]) then sessions[i].(revokedAt := Some(now)) else sessions[i]
  }

  function InFamily(sessions: Table, family: FamilyId): set<SessionId> {
    set i | i in sessions && sessions[i].family == family
  }

  function OnDevice(sessions: Table, user: UserId, device: DeviceId): set<SessionId> {
    set i | i in sessions && sessions[i].device == device && sessions[i].user == user
  }

  function OthersOf(sessions: Table, user: UserId, current: SessionId): set<SessionId> {
    set i | i in sessions && sessions[i].user == user && i != current
  }

  predicate HasToken(sessions: Table, id: SessionId, token: Token) {
    id in sessions && sessions[id].refreshHash == Sha(token)
  }

  predicate HashTaken(sessions: Table, token: Token) {
    exists i <- sessions :: HasToken(sessions, i, token)
  }

  /** INSERT INTO sessions: the refresh hash is unique. */
  function Insert(sessions: Table, ticket: Ticket, user: UserId, device: DeviceId, family: FamilyId,
                  rotatedFrom: Option<SessionId>): Result<Table, IdentityError> {
    if HashTaken(sessions, ticket.token) then Err(Internal)
    else Ok(sessions[ticket.id := Session(user, device, family, Sha(ticket.token), ticket.expires, None, rotatedFrom)])
  }

  predicate Spent(s: Session, now: Time) {
    !IsLive(s) || now > s.expires
  }

  /** Revoking a session and issuing its successor. */
  function Succeed(sessions: Table, id: SessionId, ticket: Ticket, now: Time): Result<Table, IdentityError>
    requires id in sessions
  {
    var s := sessions[id];
    Insert(RevokeAll(sessions, {id}, now), ticket, s.user, s.device, s.family, Some(id))
  }

  // ---- Operations ----

  datatype Call =
    | Login(user: UserId, device: DeviceId, family: FamilyId, ticket: Ticket)
    | RegisterDevice(user: UserId, peer: PeerId, newDevice: DeviceId, family: FamilyId, ticket: Ticket)
    | Refresh(token: Token, ticket: Ticket, now: Time)
    | Rotate(id: SessionId, ticket: Ticket, now: Time)
    | Revoke(id: SessionId, now: Time)
    | RevokeFamily(family: FamilyId, now: Time)
    | DeregisterDevice(user: UserId, device: DeviceId, now: Time)
    | ChangePassword(user: UserId, current: SessionId, verified: bool, now: Time)
    | SetUsers(active: set<UserId>)

  /** Generated ids are new: UUIDs. */
  predicate FreshIds(db: Accounts, call: Call) {
    && (call.Login? || call.RegisterDevice? || call.Refresh? || call.Rotate? ==> call.ticket.id !in db.sessions)
    && (call.Login? || call.RegisterDevice? ==> forall i <- db.sessions :: db.sessions[i].family != call.family)
    && (call.RegisterDevice? ==> call.newDevice !in db.devices)
  }

  /** The session a refresh token belongs to. */
  ghost function Owner(sessions: Table, token: Token): (r: Option<SessionId>)
    ensures match r case Some(i) => HasToken(sessions, i, token) case None => !HashTaken(sessions, token)
  {
    if i :| HasToken(sessions, i, token) then Some(i) else None
  }

  /** The sessions after the token of session `id` was presented, and the refusal if there was one. */
  function RefreshedBy(sessions: Table, id: SessionId, ticket: Ticket, now: Time): (Table, Option<IdentityError>)
    requires id in sessions
  {
    if Spent(sessions[id], now) then
      (RevokeAll(sessions, InFamily(sessions, sessions[id].family), now), Some(InvalidRefreshToken))
    else match Succeed(sessions, id, ticket, now)
      case Ok(after) => (after, None)
      case Err(e) => (sessions, Some(e))
  }

  /** The device that registered a peer id. */
  ghost function PeerOwner(devices: map<DeviceId, Device>, peer: PeerId): (r: Option<DeviceId>)
    ensures match r
      case Some(d) => d in devices && devices[d].peer == peer
      case None => forall d <- devices :: devices[d].peer != peer
  {
    if d :| d in devices && devices[d].peer == peer then Some(d) else None
  }

  /** The device of a peer id after a registration: reactivated, or created. */
  ghost function Registered(devices: map<DeviceId, Device>, user: UserId, peer: PeerId, newDevice: DeviceId)
    : Result<(map<DeviceId, Device>, DeviceId), IdentityError> {
    match PeerOwner(devices, peer)
    case Some(d) =>
      if devices[d].user != user then Err(DeviceConflict)
      else Ok((devices[d := devices[d].(active := true)], d))
    case None => Ok((devices[newDevice := Device(user, peer, true)], newDevice))
  }

  /** The tables after a call, and its error if it was refused. */
  ghost function Serve(db: Accounts, call: Call): (Accounts, Option<IdentityError>) {
    match call
    case Login(user, device, family, ticket) =>
      (match Insert(db.sessions, ticket, user, device, family, None)
       case Ok(sessions) => (db.(sessions := sessions), None)
       case Err(e) => (db, Some(e)))
    case RegisterDevice(user, peer, newDevice, family, ticket) =>
      (match Registered(db.devices, user, peer, newDevice)
       case Err(e) => (db, Some(e))
       case Ok((devices, device)) =>
         match Insert(db.sessions, ticket, user, device, family, None)
         case Ok(sessions) => (Accounts(sessions, devices, db.activeUsers), None)
         case Err(e) => (db, Some(e)))
    case Refresh(token, ticket, now) =>
      (match Owner(db.sessions, token)
       case None => (db, Some(InvalidRefreshToken))
       case Some(id) =>
         var (sessions, refusal) := RefreshedBy(db.sessions, id, ticket, now);
         (db.(sessions := sessions), refusal))
    case Rotate(id, ticket, now) =>
      if id !in db.sessions || !IsLive(db.sessions[id]) || db.sessions[id].expires <= now then (db, Some(Internal))
      else (match Succeed(db.sessions, id, ticket, now)
            case Ok(sessions) => (db.(sessions := sessions), None)
            case Err(e) => (db, Some(e)))
    case Revoke(id, now) =>
      if id !in db.sessions || !IsLive(db.sessions[id]) then (db, Some(SessionNotFound))
      else (db.(sessions := RevokeAll(db.sessions, {id}, now)), None)
    case RevokeFamily(family, now) =>
      (db.(sessions := RevokeAll(db.sessions, InFamily(db.sessions, family), now)), None)
    case DeregisterDevice(user, device, now) =>
      if device !in db.devices || db.devices[device].user != user || !db.devices[device].active then (db, Some(DeviceNotFound))
      else (Accounts(RevokeAll(db.sessions, OnDevice(db.sessions, user, device), now),
                     db.devices[device := db.devices[device].(active := false)], db.activeUsers), None)
    case ChangePassword(user, current, verified, now) =>
      if user !in db.activeUsers || !verified then (db, Some(InvalidCredentials))
      else (db.(sessions := RevokeAll(db.sessions, OthersOf(db.sessions, user, current), now)), None)
    case SetUsers(active) => (db.(activeUsers := active), None)
  }

  /** The session checks made for every authenticated request. */
  function Authenticate(db: Accounts, claims: Claims, now: Time): Option<IdentityError> {
    if claims.session !in db.sessions || Spent(db.sessions[claims.session], now) then Some(SessionNotActive)
    else if db.sessions[claims.session].user != claims.user || db.sessions[claims.session].device != claims.device then
      Some(SessionNotActive)
    else if claims.device !in db.devices || !db.devices[claims.device].active || db.devices[claims.device].user != claims.user then
      Some(DeviceNotFound)
    else if claims.user !in db.activeUsers then Some(InvalidCredentials)
    else None
  }

  // ---- The service ----

  lemma HashFree(sessions: Table, token: Token)
    ensures HashTaken(sessions, token) <==> exists i <- sessions :: sessions[i].refreshHash == Sha(token)
  {
    if i :| i in sessions && sessions[i].refreshHash == Sha(token) {
      assert HasToken(sessions, i, token);
    }
  }

  /** Revoking a live session and issuing its successor, row by row. */
  lemma SuccessionIs(sessions: Table, id: SessionId, ticket: Ticket, now: Time)
    requires id in sessions && sessions[id].revokedAt == None && ticket.id !in sessions
    ensures var s := sessions[id];
      Succeed(sessions, id, ticket, now) ==
        if exists i <- sessions :: sessions[i].refreshHash == Sha(ticket.token) then Err(Internal)
        else Ok(sessions[id := s.(revokedAt := Some(now))]
          [ticket.id := Session(s.user, s.device, s.family, Sha(ticket.token), ticket.expires, None, Some(id))])
  {
    var mid := RevokeAll(sessions, {id}, now);
    assert mid == sessions[id := sessions[id].(revokedAt := Some(now))];
    HashFree(mid, ticket.token);
    assert forall i <- sessions :: mid[i].refreshHash == sessions[i].refreshHash;
  }

  predicate PeersUnique(devices: map<DeviceId, Device>) {
    forall d, e :: d in devices && e in devices && devices[d].peer == devices[e].peer ==> d == e
  }

  predicate HashesUnique(sessions: Table) {
    forall i, j :: i in sessions && j in sessions && sessions[i].refreshHash == sessions[j].refreshHash ==> i == j
  }

  class Service {
    var db: Accounts

    /** The unique constraints on peer ids and refresh hashes. */
    ghost predicate Valid()
      reads this
    {
      PeersUnique(db.devices) && HashesUnique(db.sessions)
    }

    constructor (activeUsers: set<UserId>)
      ensures Valid() && db == Accounts(map[], map[], activeUsers)
    {
      db := Accounts(map[], map[], activeUsers);
    }

    /** The session row itself, once a login has checked the credentials. */
    method Create(user: UserId, device: DeviceId, family: FamilyId, ticket: Ticket) returns (refusal: Option<IdentityError>)
      requires Valid() && FreshIds(db, Login(user, device, family, ticket))
      modifies this
      ensures Valid() && (db, refusal) == Serve(old(db), Login(user, device, family, ticket))
      ensures refusal == None <==> forall i <- old(db).sessions :: old(db).sessions[i].refreshHash != Sha(ticket.token)
      ensures refusal == None ==> db == old(db).(sessions :=
        old(db).sessions[ticket.id := Session(user, device, family, Sha(ticket.token), ticket.expires, None, None)])
      ensures refusal != None ==> refusal == Some(Internal) && db == old(db)
    {
      HashFree(db.sessions, ticket.token);
      if HashTaken(db.sessions, ticket.token) {
        return Some(Internal);
      }
      var row := Session(user, device, family, Sha(ticket.token), ticket.expires, None, None);
      db := db.(sessions := db.sessions[ticket.id := row]);
      refusal := None;
    }

    method RegisterDevice(user: UserId, peer: PeerId, newDevice: DeviceId, family: FamilyId, ticket: Ticket)
      returns (refusal: Option<IdentityError>)
      requires Valid() && FreshIds(db, Call.RegisterDevice(user, peer, newDevice, family, ticket))
      modifies this
      ensures Valid() && (db, refusal) == Serve(old(db), Call.RegisterDevice(user, peer, newDevice, family, ticket))
      ensures refusal == Some(DeviceConflict) <==>
        exists d <- old(db).devices :: old(db).devices[d].peer == peer && old(db).devices[d].user != user
      ensures refusal == None <==>
        && refusal != Some(DeviceConflict)
        && forall i <- old(db).sessions :: old(db).sessions[i].refreshHash != Sha(ticket.token)
      ensures refusal != None ==> db == old(db)
      ensures refusal == None ==>
        && ticket.id in db.sessions
        && var row := db.sessions[ticket.id];
        && row == Session(user, row.device, family, Sha(ticket.token), ticket.expires, None, None)
        && db == Accounts(old(db).sessions[ticket.id := row],
                          old(db).devices[row.device := Device(user, peer, true)], old(db).activeUsers)
        && (row.device in old(db).devices ==> old(db).devices[row.device].peer == peer)
        && (row.device !in old(db).devices ==>
              row.device == newDevice && forall d <- old(db).devices :: old(db).devices[d].peer != peer)
    {
      HashFree(db.sessions, ticket.token);
      var devices, device := db.devices, newDevice;
      if exists d <- devices :: devices[d].peer == peer {
        device :| device in devices && devices[device].peer == peer;
        if devices[device].user != user {
          return Some(DeviceConflict);
        }
        if !devices[device].active {
          devices := devices[device := devices[device].(active := true)];
        }
      } else {
        devices := devices[device := Device(user, peer, true)];
      }
      assert Registered(db.devices, user, peer, newDevice) == Ok((devices, device)) by {
        assert db.devices[device := devices[device]] == devices;
      }
      if HashTaken(db.sessions, ticket.token) {
        return Some(Internal);
      }
      var row := Session(user, device, family, Sha(ticket.token), ticket.expires, None, None);
      db := db.(devices := devices, sessions := db.sessions[ticket.id := row]);
      refusal := None;
    }

    /** A spent token is a replay: it costs its whole family. */
    method RotateRefreshAtomically(token: Token, ticket: Ticket, now: Time) returns (refusal: Option<IdentityError>)
      requires Valid() && FreshIds(db, Refresh(token, ticket, now))
      modifies this
      ensures Valid() && (db, refusal) == Serve(old(db), Refresh(token, ticket, now))
      ensures (forall i <- old(db).sessions :: old(db).sessions[i].refreshHash != Sha(token)) ==>
        refusal == Some(InvalidRefreshToken) && db == old(db)
      ensures forall id <- old(db).sessions :: old(db).sessions[id].refreshHash == Sha(token) ==>
        var s := old(db).sessions[id];
        if s.revokedAt.Some? || now > s.expires then
          && refusal == Some(InvalidRefreshToken)
          && db.sessions.Keys == old(db).sessions.Keys
          && (forall i <- db.sessions :: db.sessions[i] ==
                if old(db).sessions[i].family == s.family && old(db).sessions[i].revokedAt == None
                then old(db).sessions[i].(revokedAt := Some(now)) else old(db).sessions[i])
        else if exists i <- old(db).sessions :: old(db).sessions[i].refreshHash == Sha(ticket.token) then
          refusal == Some(Internal) && db == old(db)
        else
          && refusal == None
          && db.sessions == old(db).sessions[id := s.(revokedAt := Some(now))]
               [ticket.id := Session(s.user, s.device, s.family, Sha(ticket.token), ticket.expires, None, Some(id))]
      ensures db.devices == old(db).devices && db.activeUsers == old(db).activeUsers
    {
      HashFree(db.sessions, token);
      if !HashTaken(db.sessions, token) {
        return Some(InvalidRefreshToken);
      }
      var id :| id in db.sessions && HasToken(db.sessions, id, token);
      assert Owner(db.sessions, token) == Some(id);
      var current := db.sessions[id];
      if current.revokedAt.Some? || now > current.expires {
        db := db.(sessions := RevokeAll(db.sessions, InFamily(db.sessions, current.family), now));
        return Some(InvalidRefreshToken);
      }
      refusal := IssueSuccessor(id, ticket, now);
    }

    /** Revoke the consumed session and insert the new one, or roll both back. */
    method IssueSuccessor(id: SessionId, ticket: Ticket, now: Time) returns (refusal: Option<IdentityError>)
      requires Valid() && id in db.sessions && IsLive(db.sessions[id]) && ticket.id !in db.sessions
      modifies this
      ensures Valid()
      ensures match Succeed(old(db).sessions, id, ticket, now)
        case Ok(sessions) => refusal == None && db == old(db).(sessions := sessions)
        case Err(e) => refusal == Some(e) && db == old(db)
      ensures refusal == None <==> forall i <- old(db).sessions :: old(db).sessions[i].refreshHash != Sha(ticket.token)
      ensures refusal == None ==>
        var s := old(db).sessions[id];
        db == old(db).(sessions := old(db).sessions[id := s.(revokedAt := Some(now))]
          [ticket.id := Session(s.user, s.device, s.family, Sha(ticket.token), ticket.expires, None, Some(id))])
      ensures refusal != None ==> refusal == Some(Internal) && db == old(db)
    {
      SuccessionIs(db.sessions, id, ticket, now);
      var current := db.sessions[id];
      var tx := RevokeAll(db.sessions, {id}, now);
      if HashTaken(tx, ticket.token) {
        return Some(Internal);
      }
      var row := Session(current.user, current.device, current.family, Sha(ticket.token), ticket.expires, None, Some(id));
      db := db.(sessions := tx[ticket.id := row]);
      refusal := None;
    }

    method Rotate(id: SessionId, ticket: Ticket, now: Time) returns (refusal: Option<IdentityError>)
      requires Valid() && FreshIds(db, Call.Rotate(id, ticket, now))
      modifies this
      ensures Valid() && (db, refusal) == Serve(old(db), Call.Rotate(id, ticket, now))
      ensures refusal == None <==>
        && id in old(db).sessions && old(db).sessions[id].revokedAt == None && old(db).sessions[id].expires > now
        && forall i <- old(db).sessions :: old(db).sessions[i].refreshHash != Sha(ticket.token)
      ensures refusal == None ==>
        var s := old(db).sessions[id];
        db == old(db).(sessions := old(db).sessions[id := s.(revokedAt := Some(now))]
          [ticket.id := Session(s.user, s.device, s.family, Sha(ticket.token), ticket.expires, None, Some(id))])
      ensures refusal != None ==> refusal == Some(Internal) && db == old(db)
    {
      if id !in db.sessions || db.sessions[id].expires <= now || db.sessions[id].revokedAt.Some? {
        return Some(Internal);
      }
      refusal := IssueSuccessor(id, ticket, now);
    }

    method Revoke(id: SessionId, now: Time) returns (refusal: Option<IdentityError>)
      requires Valid()
      modifies this
      ensures Valid() && (db, refusal) == Serve(old(db), Call.Revoke(id, now))
      ensures refusal == None <==> id in old(db).sessions && old(db).sessions[id].revokedAt == None
      ensures refusal == None ==>
        db == old(db).(sessions := old(db).sessions[id := old(db).sessions[id].(revokedAt := Some(now))])
      ensures refusal != None ==> refusal == Some(SessionNotFound) && db == old(db)
    {
      if id !in db.sessions || db.sessions[id].revokedAt.Some? {
        return Some(SessionNotFound);
      }
      db := db.(sessions := db.sessions[id := db.sessions[id].(revokedAt := Some(now))]);
      assert db.sessions == RevokeAll(old(db).sessions, {id}, now);
      refusal := None;
    }

    method RevokeFamily(family: FamilyId, now: Time)
      requires Valid()
      modifies this
      ensures Valid() && (db, None) == Serve(old(db), Call.RevokeFamily(family, now))
      ensures db.sessions.Keys == old(db).sessions.Keys
      ensures forall i <- db.sessions ::
        db.sessions[i] == if old(db).sessions[i].family == family && old(db).sessions[i].revokedAt == None
          then old(db).sessions[i].(revokedAt := Some(now)) else old(db).sessions[i]
    {
      db := db.(sessions := RevokeAll(db.sessions, InFamily(db.sessions, family), now));
    }

    /** The device and all of its sessions go together. */
    method DeregisterDevice(user: UserId, device: DeviceId, now: Time) returns (refusal: Option<IdentityError>)
      requires Valid()
      modifies this
      ensures Valid() && (db, refusal) == Serve(old(db), Call.DeregisterDevice(user, device, now))
      ensures refusal == None <==>
        device in old(db).devices && old(db).devices[device].user == user && old(db).devices[device].active
      ensures refusal != None ==> refusal == Some(DeviceNotFound) && db == old(db)
      ensures refusal == None ==>
        && db.devices == old(db).devices[device := old(db).devices[device].(active := false)]
        && db.activeUsers == old(db).activeUsers && db.sessions.Keys == old(db).sessions.Keys
        && forall i <- db.sessions :: db.sessions[i] ==
             var s := old(db).sessions[i];
             if s.device == device && s.user == user && s.revokedAt == None then s.(revokedAt := Some(now)) else s
    {
      if device !in db.devices || db.devices[device].user != user || !db.devices[device].active {
        return Some(DeviceNotFound);
      }
      var tx := db.(devices := db.devices[device := db.devices[device].(active := false)]);
      tx := tx.(sessions := RevokeAll(tx.sessions, OnDevice(tx.sessions, user, device), now));
      db := tx;
      refusal := None;
    }

    /** Every other session of the user is revoked. */
    method ChangePassword(user: UserId, current: SessionId, verified: bool, now: Time) returns (refusal: Option<IdentityError>)
      requires Valid()
      modifies this
      ensures Valid() && (db, refusal) == Serve(old(db), Call.ChangePassword(user, current, verified, now))
      ensures refusal == None <==> user in old(db).activeUsers && verified
      ensures refusal != None ==> refusal == Some(InvalidCredentials) && db == old(db)
      ensures refusal == None ==>
        && db.devices == old(db).devices && db.activeUsers == old(db).activeUsers
        && db.sessions.Keys == old(db).sessions.Keys
        && forall i <- db.sessions :: db.sessions[i] ==
             var s := old(db).sessions[i];
             if s.user == user && i != current && s.revokedAt == None then s.(revokedAt := Some(now)) else s
    {
      if user !in db.activeUsers || !verified {
        return Some(InvalidCredentials);
      }
      db := db.(sessions := RevokeAll(db.sessions, OthersOf(db.sessions, user, current), now));
      refusal := None;
    }
  }
}
