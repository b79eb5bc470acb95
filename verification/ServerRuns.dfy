/** Runs of the server: any requests, one after the other, at any times. */
module ServerRuns {
  import opened Common
  import opened Crypto
  import opened Schema
  import opened Lookup
  import opened FileStore
  import opened VaultStore
  import opened Directory
  import opened Cascade
  import opened VaultHandlers
  import opened Revocation
  import opened Server
  import opened ServerInvariant

  datatype Timed = Timed(request: Request, at: int)

  /** The i-th request leads from the i-th state to the next. */
  ghost predicate Follows(states: seq<Db>, reqs: seq<Timed>, i: nat)
    requires i < |reqs| && |states| == |reqs| + 1
  {
    Fresh(states[i], reqs[i].request) && states[i + 1] == Handle(states[i], reqs[i].request, reqs[i].at)
  }

  /** states has the database before each request and after the last. */
  ghost predicate Run(states: seq<Db>, reqs: seq<Timed>) {
    && |states| == |reqs| + 1 && ServerInv(states[0])
    && forall i {:trigger Follows(states, reqs, i)} :: 0 <= i < |reqs| ==> Follows(states, reqs, i)
  }

  const EMPTY := Db(map[], map[], map[], map[], map[], {}, map[], FileTables(map[], map[]), map[], [])

  /** The run may start with the empty database. */
  lemma EmptyIsValid()
    ensures ServerInv(EMPTY)
  {
  }

  lemma {:induction false} RunKeepsServerInv(states: seq<Db>, reqs: seq<Timed>, n: nat)
    requires Run(states, reqs) && n <= |reqs|
    ensures ServerInv(states[n])
    decreases n
  {
    if n > 0 {
      RunKeepsServerInv(states, reqs, n - 1);
      assert Follows(states, reqs, n - 1);
      RequestKeepsServerInv(states[n - 1], reqs[n - 1].request, reqs[n - 1].at);
    }
  }

  // ---------------------------------------------------------------- devices

  lemma RequestKeepsDevices(db: Db, r: Request, at: int)
    requires Fresh(db, r)
    ensures DevicesStay(db, Handle(db, r, at))
  {
    if !r.Directory?() {
      VaultFrame(db, r, at);
    } else if !r.DeletingTeam? {
      DirectoryFrame(db, r, at);
    }
  }

  lemma StepKeepsDevices(states: seq<Db>, reqs: seq<Timed>, i: nat)
    requires Run(states, reqs) && i < |reqs|
    ensures DevicesStay(states[i], states[i + 1])
  {
    assert Follows(states, reqs, i);
    RequestKeepsDevices(states[i], reqs[i].request, reqs[i].at);
  }

  /** A device keeps its id, owner, keys and fingerprint for ever, and the fingerprint is the hash of
      its signing key. */
  lemma {:induction false} DeviceIdentityIsForever(states: seq<Db>, reqs: seq<Timed>, i: nat, j: nat, d: DeviceId)
    requires Run(states, reqs) && i <= j <= |reqs| && d in states[i].devices
    ensures d in states[j].devices && SameDevice(states[i].devices[d], states[j].devices[d])
    ensures states[j].devices[d].fingerprint == HashOf(states[i].devices[d].signPub)
    decreases j - i
  {
    RunKeepsServerInv(states, reqs, j);
    if i < j {
      DeviceIdentityIsForever(states, reqs, i, j - 1, d);
      StepKeepsDevices(states, reqs, j - 1);
    }
  }

  /** The request registers the device again: its own fingerprint under its owner's name. */
  predicate Reregisters(db: Db, r: Request, d: DeviceId)
    requires d in db.devices && db.devices[d].user in db.users
  {
    && r.Registering? && WellFormed(r.reg) && r.reg.fingerprint == db.devices[d].fingerprint
    && db.users[db.devices[d].user].username == r.reg.username
  }

  lemma ReregisteringEnrols(db: Db, reg: RegisterRequest, newUser: UserId, newDevice: DeviceId, d: DeviceId)
    requires ServerInv(db) && d in db.devices && newDevice !in db.devices && db.devices[d].status != ActiveDevice
    ensures Reregisters(db, Registering(reg, newUser, newDevice), d) <==>
      var e := Enrol(db, reg, newUser, newDevice); e.Some? && e.value.devices[d].status == ActiveDevice
  {
    if Enrol(db, reg, newUser, newDevice).Some? {
      EnrolledDevices(db, reg, newUser, newDevice);
    }
  }

  lemma RegisteringLeaves(db: Db, reg: RegisterRequest, newUser: UserId, newDevice: DeviceId, at: int)
    ensures var db', e := Register(db, reg, newUser, newDevice, at).db, Enrol(db, reg, newUser, newDevice);
      db'.devices == (if e.Some? then e.value.devices else db.devices)
  {
  }

  /** No other request makes a revoked device active. */
  lemma StaysRevoked(db: Db, r: Request, at: int, d: DeviceId)
    requires d in db.devices && db.devices[d].status == RevokedDevice && r.Directory?() && !r.Registering?
    ensures d in Handle(db, r, at).devices && Handle(db, r, at).devices[d].status == RevokedDevice
  {
  }

  /** A revoked device is active after a request if and only if the request registers it again. */
  lemma ReactivatedIff(db: Db, r: Request, at: int, d: DeviceId)
    requires ServerInv(db) && Fresh(db, r) && d in db.devices && db.devices[d].status == RevokedDevice
    ensures d in Handle(db, r, at).devices
    ensures Handle(db, r, at).devices[d].status == ActiveDevice <==> Reregisters(db, r, d)
  {
    if !r.Directory?() {
      VaultFrame(db, r, at);
    } else if r.Registering? {
      RegisteringLeaves(db, r.reg, r.newUser, r.newDevice, at);
      RegisteringFrame(db, r.reg, r.newUser, r.newDevice, at);
      ReregisteringEnrols(db, r.reg, r.newUser, r.newDevice, d);
    } else {
      StaysRevoked(db, r, at, d);
    }
  }

  ghost predicate UsersStay(db: Db, db': Db) {
    forall u :: u in db.users ==> u in db'.users && db'.users[u] == db.users[u]
  }

  lemma RegisteringKeepsUsers(db: Db, reg: RegisterRequest, newUser: UserId, newDevice: DeviceId, at: int)
    requires newUser !in db.users
    ensures UsersStay(db, Register(db, reg, newUser, newDevice, at).db)
  {
  }

  lemma DeletingKeepsUsers(db: Db, c: Caller, team: string, at: int)
    ensures DeleteTeam(db, c, team, at).db.users == db.users
  {
  }

  lemma ClaimingKeepsUsers(db: Db, c: Caller, token: string, at: int)
    ensures Claim(db, c, token, at).db.users == db.users
  {
  }

  lemma OthersKeepUsers(db: Db, r: Request, at: int)
    requires r.RevokingDevice? || r.CreatingTeam? || r.Inviting? || r.SettingAdmin?
    ensures Handle(db, r, at).users == db.users
  {
  }

  lemma RequestKeepsUsers(db: Db, r: Request, at: int)
    requires Fresh(db, r)
    ensures UsersStay(db, Handle(db, r, at))
  {
    if !r.Directory?() {
      VaultFrame(db, r, at);
    } else {
      match r
      case Registering(reg, newUser, newDevice) => RegisteringKeepsUsers(db, reg, newUser, newDevice, at);
      case DeletingTeam(c, team) => DeletingKeepsUsers(db, c, team, at);
      case Claiming(c, token) => ClaimingKeepsUsers(db, c, token, at);
      case _ => OthersKeepUsers(db, r, at);
    }
  }

  lemma StepKeepsUsers(states: seq<Db>, reqs: seq<Timed>, i: nat)
    requires Run(states, reqs) && i < |reqs|
    ensures UsersStay(states[i], states[i + 1])
  {
    assert Follows(states, reqs, i);
    RequestKeepsUsers(states[i], reqs[i].request, reqs[i].at);
  }

  lemma {:induction false} UsernamesAreForever(states: seq<Db>, reqs: seq<Timed>, i: nat, j: nat, u: UserId)
    requires Run(states, reqs) && i <= j <= |reqs| && u in states[i].users
    ensures u in states[j].users && states[j].users[u] == states[i].users[u]
    decreases j - i
  {
    if i < j {
      UsernamesAreForever(states, reqs, i, j - 1, u);
      StepKeepsUsers(states, reqs, j - 1);
    }
  }

  /** Registering a device again makes it active, whatever link or key for boxes comes with it. */
  lemma ReregisteringActivates(db: Db, reg: RegisterRequest, newUser: UserId, newDevice: DeviceId, at: int, d: DeviceId)
    requires ServerInv(db) && d in db.devices && Reregisters(db, Registering(reg, newUser, newDevice), d)
    ensures Register(db, reg, newUser, newDevice, at).db.devices == WithStatus(db.devices, d, ActiveDevice)
  {
    assert DeviceWith(db, reg.fingerprint) == Some(d);
    assert UserNamed(db, reg.username) == Some(db.devices[d].user);
  }

  lemma RevokedByOwner(states: seq<Db>, reqs: seq<Timed>, i: nat, c: Caller, d: DeviceId)
    requires Run(states, reqs) && i < |reqs| && reqs[i].request == RevokingDevice(c, d) && Authed(states[i], c)
    requires BelongsTo(states[i], d, c.user)
    ensures d in states[i + 1].devices && states[i + 1].devices[d].status == RevokedDevice
  {
    assert Follows(states, reqs, i);
  }

  lemma StillReregisters(states: seq<Db>, reqs: seq<Timed>, i: nat, j: nat, d: DeviceId, reg: RegisterRequest,
                         newUser: UserId, newDevice: DeviceId)
    requires Run(states, reqs) && i <= j <= |reqs| && d in states[i].devices
    requires states[i].devices[d].user in states[i].users
    requires Reregisters(states[i], Registering(reg, newUser, newDevice), d)
    ensures d in states[j].devices && SameDevice(states[i].devices[d], states[j].devices[d])
    ensures states[j].devices[d].user in states[j].users
    ensures Reregisters(states[j], Registering(reg, newUser, newDevice), d)
  {
    DeviceIdentityIsForever(states, reqs, i, j, d);
    UsernamesAreForever(states, reqs, i, j, states[i].devices[d].user);
  }

  /** A device is revoked by its owner.  At any later time a registration with its signing key under the
      owner's name, neither of them secret, makes it active again: the same device, with its shares. */
  lemma RevocationIsUndone(states: seq<Db>, reqs: seq<Timed>, i: nat, j: nat, c: Caller, d: DeviceId,
                           reg: RegisterRequest, newUser: UserId, newDevice: DeviceId, at: int, db': Db)
    requires Run(states, reqs) && i < j <= |reqs| && reqs[i].request == RevokingDevice(c, d)
    requires Authed(states[i], c) && BelongsTo(states[i], d, c.user)
    requires reg.signPub == states[i].devices[d].signPub && reg.fingerprint == HashOf(reg.signPub)
    requires reg.username == states[i].users[c.user].username && |reg.deviceName| <= 255
    requires newDevice !in states[j].devices && db' == Handle(states[j], Registering(reg, newUser, newDevice), at)
    ensures d in states[i + 1].devices && states[i + 1].devices[d].status == RevokedDevice
    ensures d in db'.devices && db'.devices[d].status == ActiveDevice
    ensures SameDevice(states[i].devices[d], db'.devices[d]) && db'.shares == states[j].shares
  {
    RunKeepsServerInv(states, reqs, i);
    RunKeepsServerInv(states, reqs, j);
    RevokedByOwner(states, reqs, i, c, d);
    StillReregisters(states, reqs, i, j, d, reg, newUser, newDevice);
    ReregisteringActivates(states[j], reg, newUser, newDevice, at, d);
    RegisteringFrame(states[j], reg, newUser, newDevice, at);
  }

  /** An active device of the user has signed the new device's fingerprint. */
  predicate Vouched(db: Db, req: RegisterRequest, u: UserId) {
    req.link.Some? && exists d :: d in db.devices && Vouches(db.devices[d], req.link.value, req.fingerprint, u)
  }

  predicate Vouches(row: DeviceRow, link: Link, fp: Fingerprint, u: UserId) {
    row.user == u && row.status == ActiveDevice && row.fingerprint == link.device
      && link.signature == SignedBy(row.signPub, fp)
  }

  /** A new device of a known user is added if and only if it comes without a link or is vouched for, and
      is active if and only if it is vouched for. */
  lemma AddedDeviceIff(db: Db, req: RegisterRequest, u: UserId, newUser: UserId, newDevice: DeviceId)
    requires ServerInv(db) && WellFormed(req) && UserNamed(db, req.username) == Some(u)
    requires DeviceWith(db, req.fingerprint).None?
    ensures var e := Enrol(db, req, newUser, newDevice);
      && (e.Some? <==> req.link.None? || Vouched(db, req, u))
      && (e.Some? ==>
            newDevice in e.value.devices && e.value.devices[newDevice].user == u
            && (e.value.devices[newDevice].status == ActiveDevice <==> Vouched(db, req, u)))
  {
    if req.link.Some? {
      var signer := DeviceWith(db, req.link.value.device);
      assert Vouched(db, req, u) ==> signer.Some?;
      assert signer.Some? ==> (Vouched(db, req, u) <==>
        Vouches(db.devices[signer.value], req.link.value, req.fingerprint, u));
    }
  }

  lemma ClaimedDevice(db: Db, c: Caller, token: string, at: int, d: DeviceId)
    requires d in db.devices && db.devices[d].status == PendingDevice
    ensures var reply := Claim(db, c, token, at);
      d in reply.db.devices && (reply.db.devices[d].status == ActiveDevice <==> reply.answer.Some? && c.device == d)
  {
  }

  lemma StaysPending(db: Db, r: Request, at: int, d: DeviceId)
    requires d in db.devices && db.devices[d].status == PendingDevice
    requires r.RevokingDevice? || r.CreatingTeam? || r.DeletingTeam? || r.Inviting? || r.SettingAdmin?
    ensures d in Handle(db, r, at).devices && Handle(db, r, at).devices[d].status != ActiveDevice
  {
  }

  /** A pending device is active after a request if and only if the request registers it again or claims
      an invite from it. */
  lemma ActivatedIff(db: Db, r: Request, at: int, d: DeviceId)
    requires ServerInv(db) && Fresh(db, r) && d in db.devices && db.devices[d].status == PendingDevice
    ensures d in Handle(db, r, at).devices
    ensures Handle(db, r, at).devices[d].status == ActiveDevice <==>
      Reregisters(db, r, d) || (r.Claiming? && Claim(db, r.c, r.token, at).answer.Some? && r.c.device == d)
  {
    if !r.Directory?() {
      VaultFrame(db, r, at);
    } else if r.Registering? {
      RegisteringLeaves(db, r.reg, r.newUser, r.newDevice, at);
      RegisteringFrame(db, r.reg, r.newUser, r.newDevice, at);
      ReregisteringEnrols(db, r.reg, r.newUser, r.newDevice, d);
    } else if r.Claiming? {
      ClaimedDevice(db, r.c, r.token, at, d);
    } else {
      StaysPending(db, r, at, d);
    }
  }

  // ---------------------------------------------------------------- new teams

  lemma AfterCreation(db: Db, c: Caller, name: string, t: TeamId, at: int, db': Db)
    requires ActiveAuthed(db, c) && name != "" && TeamNamed(db, name).None? && t !in db.teams
    requires db' == CreateTeam(db, c, name, t, at).db
    ensures CreateTeam(db, c, name, t, at).answer.Some?
    ensures db'.users == db.users && db'.devices == db.devices && db'.teams == db.teams[t := TeamRow(name)]
    ensures MemberKey(t, c.user) in db'.members && db'.members[MemberKey(t, c.user)] == MemberRow(ActiveMember, Admin)
  {
  }

  lemma OnlyTeamOfTheName(db: Db, name: string, t: TeamId)
    requires UniqueNames(db) && t in db.teams && db.teams[t].name == name
    ensures TeamNamed(db, name) == Some(t)
  {
  }

  /** A team that is created, with its creator as admin. */
  lemma CreatorAdministers(db: Db, c: Caller, name: string, t: TeamId, at: int, db': Db)
    requires ServerInv(db) && ActiveAuthed(db, c) && name != "" && TeamNamed(db, name).None? && t !in db.teams
    requires db' == CreateTeam(db, c, name, t, at).db
    ensures CreateTeam(db, c, name, t, at).answer.Some?
    ensures UniqueNames(db') && TeamAdminAuthed(db', c, name) && TeamNamed(db', name) == Some(t)
    ensures db'.users == db.users && db'.devices == db.devices && db'.teams == db.teams[t := TeamRow(name)]
  {
    RequestKeepsServerInv(db, CreatingTeam(c, name, t), at);
    AfterCreation(db, c, name, t, at, db');
    OnlyTeamOfTheName(db', name, t);
  }

  // ---------------------------------------------------------------- file logs

  lemma {:induction false} PushedExtends(db: Db, pushes: seq<PushArgs>, ids: nat -> FileId, n: nat)
    requires Valid(db.ft) && n <= |pushes|
    ensures Valid(Pushed(db, pushes, ids, n)) && Extends(LogsOf(db.ft), LogsOf(Pushed(db, pushes, ids, n)))
    decreases n
  {
    if n > 0 {
      PushedExtends(db, pushes, ids, n - 1);
      PushIsCas(db, Pushed(db, pushes, ids, n - 1), pushes[n - 1], ids(n - 1));
    }
  }

  lemma RotateExtends(db1: Db, c: Caller, req: RevokeCall, ids: nat -> FileId, n: nat)
    requires Valid(db1.ft) && n <= |req.shares| + |req.files|
    ensures var t' := RotateState(db1, c, req, ids, n).ft; Valid(t') && Extends(LogsOf(db1.ft), LogsOf(t'))
  {
    PushedExtends(Shared(db1, StoreShares(req.shares, req.vault), SharesIn(req, n)), Pushes(req.files, req.vault, c),
                  ids, FilesIn(req, n));
  }

  lemma RevokeExtends(db: Db, c: Caller, req: RevokeCall, ids: nat -> FileId, at: int)
    requires Valid(db.ft)
    ensures var t' := RevokeRequest(db, c, req, ids, at).db.ft; Valid(t') && Extends(LogsOf(db.ft), LogsOf(t'))
  {
    if MayRevoke(db, c, req) {
      RotateExtends(WithoutGrant(db, req.vault, Revoked(db, req)), c, req, ids, RevokeReach(db, c, req, ids));
    }
  }

  lemma PushExtends(db: Db, c: Caller, v: VaultId, f: FilePush, newId: FileId, at: int)
    requires Valid(db.ft)
    ensures var t' := PushRequest(db, c, v, f, newId, at).db.ft; Valid(t') && Extends(LogsOf(db.ft), LogsOf(t'))
  {
    PushingFrame(db, c, v, f, newId, at);
    PushIsCas(db, db.ft, f.Args(v, c), newId);
  }

  /** A request only appends to the logs of files, unless it deletes a team. */
  lemma RequestExtendsLogs(db: Db, r: Request, at: int)
    requires Valid(db.ft) && Fresh(db, r) && !r.DeletingTeam?
    ensures Valid(Handle(db, r, at).ft) && Extends(LogsOf(db.ft), LogsOf(Handle(db, r, at).ft))
  {
    match r
    case CreatingVault(c, team, name, shares, newVault) => CreatingFrame(db, c, team, name, shares, newVault, at);
    case GrantingVault(c, team, vault, username, shares) => GrantingFrame(db, c, team, vault, username, shares, at);
    case Pushing(c, vault, file, newFile) => PushExtends(db, c, vault, file, newFile, at);
    case RevokingVault(c, call, newFiles) => RevokeExtends(db, c, call, newFiles, at);
    case _ => DirectoryFrame(db, r, at);
  }

  /** Every log of one vault is the beginning of the same log of the other. */
  ghost predicate ExtendsIn(logs: Logs, logs': Logs, v: VaultId) {
    forall k: FileKey :: k in logs && k.vault == v ==> k in logs' && logs[k] <= logs'[k]
  }

  lemma ExtendsInTrans(logs: Logs, logs1: Logs, logs2: Logs, v: VaultId)
    requires ExtendsIn(logs, logs1, v) && ExtendsIn(logs1, logs2, v)
    ensures ExtendsIn(logs, logs2, v)
  {
    forall k: FileKey | k in logs && k.vault == v
      ensures k in logs2 && logs[k] <= logs2[k]
    {
      assert logs[k] <= logs1[k] <= logs2[k];
    }
  }

  lemma ExtendsInRefl(logs: Logs, v: VaultId)
    ensures ExtendsIn(logs, logs, v)
  {
  }

  /** Whatever the request, also the deletion of a team: the logs of a vault that is there afterwards have
      only been appended to. */
  lemma RequestKeepsLogs(db: Db, r: Request, at: int, v: VaultId)
    requires Valid(db.ft) && Fresh(db, r) && v in Handle(db, r, at).vaults
    ensures Valid(Handle(db, r, at).ft) && ExtendsIn(LogsOf(db.ft), LogsOf(Handle(db, r, at).ft), v)
  {
    if !r.DeletingTeam? {
      RequestExtendsLogs(db, r, at);
    } else if TeamAdminAuthed(db, r.c, r.team) {
      LogsWithoutVaults(db, VaultsOf(db, TeamNamed(db, r.team).value));
    }
  }

  /** One request more, if the vault is there after it. */
  lemma StepKeepsLogs(logs: Logs, states: seq<Db>, reqs: seq<Timed>, i: nat, v: VaultId)
    requires Run(states, reqs) && i < |reqs| && Valid(states[i].ft) && v in states[i + 1].vaults
    requires ExtendsIn(logs, LogsOf(states[i].ft), v)
    ensures Valid(states[i + 1].ft) && ExtendsIn(logs, LogsOf(states[i + 1].ft), v)
  {
    assert Follows(states, reqs, i);
    var db, db' := states[i], states[i + 1];
    RequestKeepsLogs(db, reqs[i].request, reqs[i].at, v);
    ExtendsInTrans(logs, LogsOf(db.ft), LogsOf(db'.ft), v);
  }

  predicate VaultStays(states: seq<Db>, i: nat, j: nat, v: VaultId)
    requires j < |states|
  {
    forall n :: i <= n <= j ==> v in states[n].vaults
  }

  lemma {:induction false} LogsGoOn(logs: Logs, states: seq<Db>, reqs: seq<Timed>, i: nat, j: nat, v: VaultId)
    requires Run(states, reqs) && i <= j <= |reqs| && VaultStays(states, i, j, v)
    requires Valid(states[i].ft) && ExtendsIn(logs, LogsOf(states[i].ft), v)
    ensures Valid(states[j].ft) && ExtendsIn(logs, LogsOf(states[j].ft), v)
    decreases j - i
  {
    if i < j {
      StepKeepsLogs(logs, states, reqs, i, v);
      LogsGoOn(logs, states, reqs, i + 1, j, v);
    }
  }

  /** Over every run a stored version stays as it is for as long as its vault is there: each log of the
      vault is the beginning of what the log is later. */
  lemma StoredVersionsStayWithTheirVault(states: seq<Db>, reqs: seq<Timed>, i: nat, j: nat, v: VaultId)
    requires Run(states, reqs) && i <= j <= |reqs| && VaultStays(states, i, j, v)
    ensures Valid(states[i].ft) && Valid(states[j].ft) && ExtendsIn(LogsOf(states[i].ft), LogsOf(states[j].ft), v)
  {
    RunKeepsServerInv(states, reqs, i);
    ExtendsInRefl(LogsOf(states[i].ft), v);
    LogsGoOn(LogsOf(states[i].ft), states, reqs, i, j, v);
  }
}
