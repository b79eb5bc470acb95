/** Users, devices, teams and invites: users.go, teams.go and invites.go of internal/server/store,
    handlers_identity.go and handlers_teams.go of internal/server/http.

    Each handler is a function from the database to the database it leaves and its answer; ids and
    tokens are random and come in as fresh arguments, and so does the time. */
module Directory {
  import opened Common
  import opened Crypto
  import opened Schema
  import opened Lookup
  import FileStore

  datatype Reply<+T> = Reply(db: Db, answer: Option<T>)

  function Refuse<T>(db: Db): Reply<T> {
    Reply(db, None)
  }

  // ---------------------------------------------------------------- devices

  /** An Ed25519 signature over a fingerprint. */
  datatype Signature = SignedBy(signer: SignKey, over: Fingerprint) | BadSignature

  predicate Verifies(key: SignKey, over: Fingerprint, sig: Signature) {
    sig == SignedBy(key, over)
  }

  /** The device that vouches for a new one. */
  datatype Link = Link(device: Fingerprint, signature: Signature)

  datatype RegisterRequest = RegisterRequest(username: string, deviceName: string, signPub: SignKey, boxPub: BoxKey,
                                             fingerprint: Fingerprint, link: Option<Link>)

  datatype Registration = Registration(user: UserId, device: DeviceId, status: DeviceStatus)

  predicate WellFormed(req: RegisterRequest) {
    0 < |req.username| <= 255 && |req.deviceName| <= 255 && req.fingerprint == HashOf(req.signPub)
  }

  function NewDevice(req: RegisterRequest, u: UserId, status: DeviceStatus): DeviceRow {
    DeviceRow(u, req.deviceName, req.signPub, req.boxPub, req.fingerprint, status)
  }

  function WithStatus(devices: map<DeviceId, DeviceRow>, d: DeviceId, status: DeviceStatus): map<DeviceId, DeviceRow> {
    if d in devices then devices[d := devices[d].(status := status)] else devices
  }

  /** Whether a linked device starts active; None if the link is refused. */
  ghost function LinkStatus(db: Db, req: RegisterRequest, u: UserId): Option<DeviceStatus> {
    if req.link.None? then Some(PendingDevice)
    else
      var signer := DeviceWith(db, req.link.value.device);
      if signer.Some? && db.devices[signer.value].user == u && db.devices[signer.value].status == ActiveDevice
         && Verifies(db.devices[signer.value].signPub, req.fingerprint, req.link.value.signature)
      then Some(ActiveDevice) else None
  }

  /** The rows after a registration that goes through, and what it is answered and logged as. */
  datatype Enrolment = Enrolment(users: map<UserId, UserRow>, devices: map<DeviceId, DeviceRow>,
                                 registration: Registration, action: Action, target: Target)

  ghost function Enrol(db: Db, req: RegisterRequest, newUser: UserId, newDevice: DeviceId): Option<Enrolment> {
    var device := DeviceWith(db, req.fingerprint);
    if !WellFormed(req) then None
    else
      match UserNamed(db, req.username)
      case None =>
        if device.Some? then None
        else
          Some(Enrolment(db.users[newUser := UserRow(req.username)],
                         db.devices[newDevice := NewDevice(req, newUser, ActiveDevice)],
                         Registration(newUser, newDevice, ActiveDevice), Registered, Name(req.username)))
      case Some(u) =>
        if device.Some? then
          if db.devices[device.value].user != u then None
          else
            Some(Enrolment(db.users, WithStatus(db.devices, device.value, ActiveDevice),
                           Registration(u, device.value, ActiveDevice), DeviceRecovered, PrintTarget(req.fingerprint)))
        else
          var status := LinkStatus(db, req, u);
          if status.None? then None
          else
            Some(Enrolment(db.users, db.devices[newDevice := NewDevice(req, u, status.value)],
                           Registration(u, newDevice, status.value), DeviceAdded, Name(req.deviceName)))
  }

  ghost function Register(db: Db, req: RegisterRequest, newUser: UserId, newDevice: DeviceId,
                          at: int): Reply<Registration> {
    match Enrol(db, req, newUser, newDevice)
    case None => Refuse(db)
    case Some(e) =>
      Reply(Logged(db.(users := e.users, devices := e.devices), Caller(e.registration.user, e.registration.device),
                   None, e.action, e.target, at),
            Some(e.registration))
  }

  method HandleRegister(s: Store, req: RegisterRequest, newUser: UserId, newDevice: DeviceId, at: int)
    returns (r: Option<Registration>)
    requires UniqueNames(s.db)
    modifies s
    ensures var reply := Register(old(s.db), req, newUser, newDevice, at);
      s.db == reply.db && r == reply.answer
  {
    if req.username == "" || |req.username| > 255 || |req.deviceName| > 255 || HashOf(req.signPub) != req.fingerprint {
      return None;
    }
    var existing := GetUserByUsername(s.db, req.username);
    var device := GetDeviceByFingerprint(s.db, req.fingerprint);
    if existing.None? {
      if device.Some? {
        return None;
      }
      var tx := s.db;
      tx := tx.(users := tx.users[newUser := UserRow(req.username)]);
      tx := tx.(devices := tx.devices[newDevice := NewDevice(req, newUser, ActiveDevice)]);
      s.db := tx;
      s.db := Logged(s.db, Caller(newUser, newDevice), None, Registered, Name(req.username), at);
      return Some(Registration(newUser, newDevice, ActiveDevice));
    }
    var u := existing.value;
    if device.Some? {
      if s.db.devices[device.value].user != u {
        return None;
      }
      s.db := s.db.(devices := WithStatus(s.db.devices, device.value, ActiveDevice));
      s.db := Logged(s.db, Caller(u, device.value), None, DeviceRecovered, PrintTarget(req.fingerprint), at);
      return Some(Registration(u, device.value, ActiveDevice));
    }
    var status := PendingDevice;
    if req.link.Some? {
      var signer := GetDeviceByFingerprint(s.db, req.link.value.device);
      if signer.None? || s.db.devices[signer.value].user != u || s.db.devices[signer.value].status != ActiveDevice {
        return None;
      }
      if Verifies(s.db.devices[signer.value].signPub, req.fingerprint, req.link.value.signature) {
        status := ActiveDevice;
      } else {
        return None;
      }
    }
    s.db := s.db.(devices := s.db.devices[newDevice := NewDevice(req, u, status)]);
    s.db := Logged(s.db, Caller(u, newDevice), None, DeviceAdded, Name(req.deviceName), at);
    r := Some(Registration(u, newDevice, status));
  }

  /** handleLinkDevice: a user revokes a device of theirs. */
  function RevokeDevice(db: Db, c: Caller, d: DeviceId, at: int): Reply<()> {
    if !Authed(db, c) || d !in db.devices || db.devices[d].user != c.user then Refuse(db)
    else Reply(Logged(db.(devices := WithStatus(db.devices, d, RevokedDevice)), c, None, DeviceRevoked,
                      DeviceTarget(d), at), Some(()))
  }

  method HandleLinkDevice(s: Store, c: Caller, d: DeviceId, at: int) returns (r: Option<()>)
    modifies s
    ensures var reply := RevokeDevice(old(s.db), c, d, at);
      s.db == reply.db && r == reply.answer
  {
    if !Authed(s.db, c) {
      return None;
    }
    var todo := set d' | d' in s.db.devices && s.db.devices[d'].user == c.user;
    var owns := false;
    while todo != {}
      invariant todo <= set d' | d' in s.db.devices && s.db.devices[d'].user == c.user
      invariant owns || d in todo <==> d in s.db.devices && s.db.devices[d].user == c.user
      decreases |todo|
    {
      var d' :| d' in todo;
      if d' == d {
        owns := true;
      }
      todo := todo - {d'};
    }
    if !owns {
      return None;
    }
    s.db := s.db.(devices := WithStatus(s.db.devices, d, RevokedDevice));
    s.db := Logged(s.db, c, None, DeviceRevoked, DeviceTarget(d), at);
    r := Some(());
  }

  // ---------------------------------------------------------------- teams

  ghost function CreateTeam(db: Db, c: Caller, name: string, newTeam: TeamId, at: int): Reply<TeamId> {
    if !ActiveAuthed(db, c) || name == "" || TeamNamed(db, name).Some? then Refuse(db)
    else
      var db1 := db.(teams := db.teams[newTeam := TeamRow(name)]);
      var db2 := db1.(members := db1.members[MemberKey(newTeam, c.user) := MemberRow(ActiveMember, Admin)]);
      Reply(Logged(db2, c, None, TeamCreated, Name(name), at), Some(newTeam))
  }

  method HandleCreateTeam(s: Store, c: Caller, name: string, newTeam: TeamId, at: int) returns (r: Option<TeamId>)
    requires UniqueNames(s.db)
    modifies s
    ensures var reply := CreateTeam(old(s.db), c, name, newTeam, at);
      s.db == reply.db && r == reply.answer
  {
    var existing := GetTeamByName(s.db, name);
    if !ActiveAuthed(s.db, c) || name == "" || existing.Some? {
      return None;
    }
    s.db := s.db.(teams := s.db.teams[newTeam := TeamRow(name)]);
    s.db := s.db.(members := s.db.members[MemberKey(newTeam, c.user) := MemberRow(ActiveMember, Admin)]);
    s.db := Logged(s.db, c, None, TeamCreated, Name(name), at);
    r := Some(newTeam);
  }

  function NullVault(a: AuditRow, gone: set<VaultId>): AuditRow {
    if a.vault.Some? && a.vault.value in gone then a.(vault := None) else a
  }

  function FileIds(db: Db, gone: set<VaultId>): set<FileId> {
    set k | k in db.ft.files && k.vault in gone :: db.ft.files[k].id
  }

  /** The database without some vaults: their grants, shares, files and versions go with them, and
      audit rows forget them. */
  function WithoutVaults(db: Db, gone: set<VaultId>): Db {
    db.(vaults := map v | v in db.vaults && v !in gone :: db.vaults[v],
        grants := (set g | g in db.grants && g.vault !in gone),
        shares := map k | k in db.shares && k.vault !in gone :: db.shares[k],
        ft := FileTables(map k | k in db.ft.files && k.vault !in gone :: db.ft.files[k],
                         map vk | vk in db.ft.versions && vk.file !in FileIds(db, gone) :: db.ft.versions[vk]),
        audit := seq(|db.audit|, i requires 0 <= i < |db.audit| => NullVault(db.audit[i], gone)))
  }

  function VaultsOf(db: Db, t: TeamId): set<VaultId> {
    set v | v in db.vaults && db.vaults[v].team == t
  }

  function WithoutTeam(db: Db, t: TeamId): Db {
    WithoutVaults(db, VaultsOf(db, t)).(
      teams := db.teams - {t},
      members := map k | k in db.members && k.team != t :: db.members[k],
      invites := map token | token in db.invites && db.invites[token].team != t :: db.invites[token])
  }

  ghost function DeleteTeam(db: Db, c: Caller, name: string, at: int): Reply<()> {
    if !TeamAdminAuthed(db, c, name) then Refuse(db)
    else Reply(Logged(WithoutTeam(db, TeamNamed(db, name).value), c, None, TeamDeleted, Name(name), at), Some(()))
  }

  // ---------------------------------------------------------------- invites

  const INVITE_SECONDS := 24 * 3600

  ghost function Invite(db: Db, c: Caller, team: string, username: string, newToken: string, at: int): Reply<string> {
    if !TeamAdminAuthed(db, c, team) || username == "" then Refuse(db)
    else
      var row := InviteRow(TeamNamed(db, team).value, username, c.user, at + INVITE_SECONDS, None);
      Reply(Logged(db.(invites := db.invites[newToken := row]), c, None, Invited, Name(username + " to " + team), at),
            Some(newToken))
  }

  method HandleInvite(s: Store, c: Caller, team: string, username: string, newToken: string,
                      at: int) returns (r: Option<string>)
    requires UniqueNames(s.db)
    modifies s
    ensures var reply := Invite(old(s.db), c, team, username, newToken, at);
      s.db == reply.db && r == reply.answer
  {
    var found := GetTeamByName(s.db, team);
    if !ActiveAuthed(s.db, c) || found.None? || !IsTeamAdmin(s.db, found.value, c.user)
       || team == "" || username == "" {
      return None;
    }
    var expiresAt := at + INVITE_SECONDS;
    s.db := s.db.(invites := s.db.invites[newToken := InviteRow(found.value, username, c.user, expiresAt, None)]);
    s.db := Logged(s.db, c, None, Invited, Name(username + " to " + team), at);
    r := Some(newToken);
  }

  datatype ClaimError = TokenNotFound | TokenUsed | TokenExpired | TokenForOther

  function ClaimCheck(db: Db, token: string, username: string, now: int): Option<ClaimError> {
    if token !in db.invites then Some(TokenNotFound)
    else
      var i := db.invites[token];
      if i.usedBy.Some? then Some(TokenUsed)
      else if now > i.expiresAt then Some(TokenExpired)
      else if i.username != username then Some(TokenForOther)
      else None
  }

  /** The writes of a claim: the token is used, a pending device becomes active, and the user an
      ordinary active member, whatever the user was before. */
  function Claimed(db: Db, token: string, u: UserId, d: DeviceId): Db
    requires token in db.invites
  {
    var i := db.invites[token];
    db.(invites := db.invites[token := i.(usedBy := Some(u))],
        devices := if d in db.devices && db.devices[d].status == PendingDevice
                   then WithStatus(db.devices, d, ActiveDevice) else db.devices,
        members := db.members[MemberKey(i.team, u) := MemberRow(ActiveMember, Member)])
  }

  function Claim(db: Db, c: Caller, token: string, at: int): Reply<()> {
    if !Authed(db, c) || ClaimCheck(db, token, db.users[c.user].username, at).Some? then Refuse(db)
    else Reply(Logged(Claimed(db, token, c.user, c.device), c, None, InviteClaimed, Name(token), at), Some(()))
  }

  /** One transaction: look the token up, check it, mark it, activate, upsert, commit. */
  method ClaimInviteToken(s: Store, token: string, username: string, u: UserId, d: DeviceId,
                          now: int) returns (e: Option<ClaimError>)
    modifies s
    ensures e == ClaimCheck(old(s.db), token, username, now)
    ensures s.db == if e.None? then Claimed(old(s.db), token, u, d) else old(s.db)
  {
    var tx := s.db;
    if token !in tx.invites {
      return Some(TokenNotFound);
    }
    var t := tx.invites[token];
    if t.usedBy.Some? {
      return Some(TokenUsed);
    }
    if now > t.expiresAt {
      return Some(TokenExpired);
    }
    if t.username != username {
      return Some(TokenForOther);
    }
    tx := tx.(invites := tx.invites[token := t.(usedBy := Some(u))]);
    if d in tx.devices && tx.devices[d].status == PendingDevice {
      tx := tx.(devices := tx.devices[d := tx.devices[d].(status := ActiveDevice)]);
    }
    tx := tx.(members := tx.members[MemberKey(t.team, u) := MemberRow(ActiveMember, Member)]);
    s.db := tx;
    e := None;
  }

  method HandleClaimInvite(s: Store, c: Caller, token: string, at: int) returns (r: Option<()>)
    modifies s
    ensures var reply := Claim(old(s.db), c, token, at);
      s.db == reply.db && r == reply.answer
  {
    if !Authed(s.db, c) {
      return None;
    }
    var e := ClaimInviteToken(s, token, s.db.users[c.user].username, c.user, c.device, at);
    if e.Some? {
      return None;
    }
    s.db := Logged(s.db, c, None, InviteClaimed, Name(token), at);
    r := Some(());
  }

  predicate ActiveIn(db: Db, t: TeamId, u: UserId) {
    MemberKey(t, u) in db.members && db.members[MemberKey(t, u)].status == ActiveMember
  }

  ghost function SetAdmin(db: Db, c: Caller, team: string, username: string, at: int): Reply<()> {
    if !TeamAdminAuthed(db, c, team) || username == "" || UserNamed(db, username).None? then Refuse(db)
    else
      var t, u := TeamNamed(db, team).value, UserNamed(db, username).value;
      if IsTeamAdmin(db, t, u) || !ActiveIn(db, t, u) then Refuse(db)
      else
        var row := db.members[MemberKey(t, u)].(role := Admin);
        Reply(Logged(db.(members := db.members[MemberKey(t, u) := row]), c, None, AdminSet, Name(username), at),
              Some(()))
  }

  /** The list of members is searched by name for an active one. */
  method HandleSetAdmin(s: Store, c: Caller, team: string, username: string, at: int) returns (r: Option<()>)
    requires UniqueNames(s.db) && forall k :: k in s.db.members ==> k.user in s.db.users
    modifies s
    ensures var reply := SetAdmin(old(s.db), c, team, username, at);
      s.db == reply.db && r == reply.answer
  {
    var found := GetTeamByName(s.db, team);
    if !ActiveAuthed(s.db, c) || found.None? || !IsTeamAdmin(s.db, found.value, c.user)
       || team == "" || username == "" {
      return None;
    }
    var user := GetUserByUsername(s.db, username);
    if user.None? {
      return None;
    }
    var t, u := found.value, user.value;
    if IsTeamAdmin(s.db, t, u) {
      return None;
    }
    var members := set k | k in s.db.members && k.team == t;
    var isMember := false;
    while members != {} && !isMember
      invariant members <= set k | k in s.db.members && k.team == t
      invariant isMember ==> ActiveIn(s.db, t, u)
      invariant ActiveIn(s.db, t, u) ==> isMember || MemberKey(t, u) in members
      decreases |members|
    {
      var m :| m in members;
      if s.db.users[m.user].username == username && s.db.members[m].status == ActiveMember {
        assert m == MemberKey(t, u);
        isMember := true;
      }
      members := members - {m};
    }
    if !isMember {
      return None;
    }
    s.db := s.db.(members := s.db.members[MemberKey(t, u) := s.db.members[MemberKey(t, u)].(role := Admin)]);
    s.db := Logged(s.db, c, None, AdminSet, Name(username), at);
    r := Some(());
  }
}
