/** All requests that change the database, handled one after the other. */
module Server {
  import opened Common
  import opened Crypto
  import opened Schema
  import opened Lookup
  import opened VaultStore
  import opened Directory
  import opened VaultHandlers

  datatype Request =
    | Registering(reg: RegisterRequest, newUser: UserId, newDevice: DeviceId)
    | RevokingDevice(c: Caller, device: DeviceId)
    | CreatingTeam(c: Caller, team: string, newTeam: TeamId)
    | DeletingTeam(c: Caller, team: string)
    | Inviting(c: Caller, team: string, username: string, newToken: string)
    | Claiming(c: Caller, token: string)
    | SettingAdmin(c: Caller, team: string, username: string)
    | CreatingVault(c: Caller, team: string, name: string, shares: seq<WireShare>, newVault: VaultId)
    | GrantingVault(c: Caller, team: string, vault: VaultId, username: string, shares: seq<WireShare>)
    | Pushing(c: Caller, vault: VaultId, file: FilePush, newFile: FileId)
    | RevokingVault(c: Caller, call: RevokeCall, newFiles: nat -> FileId)
  {
    /** Requests on anything but vaults and files. */
    predicate Directory?() {
      !CreatingVault? && !GrantingVault? && !Pushing? && !RevokingVault?
    }
  }

  ghost function Handle(db: Db, r: Request, at: int): Db {
    match r
    case Registering(reg, newUser, newDevice) => Register(db, reg, newUser, newDevice, at).db
    case RevokingDevice(c, device) => RevokeDevice(db, c, device, at).db
    case CreatingTeam(c, team, newTeam) => CreateTeam(db, c, team, newTeam, at).db
    case DeletingTeam(c, team) => DeleteTeam(db, c, team, at).db
    case Inviting(c, team, username, newToken) => Invite(db, c, team, username, newToken, at).db
    case Claiming(c, token) => Claim(db, c, token, at).db
    case SettingAdmin(c, team, username) => SetAdmin(db, c, team, username, at).db
    case CreatingVault(c, team, name, shares, newVault) =>
      CreateVaultRequest(db, c, team, name, shares, newVault, at).db
    case GrantingVault(c, team, vault, username, shares) => GrantRequest(db, c, team, vault, username, shares, at).db
    case Pushing(c, vault, file, newFile) => PushRequest(db, c, vault, file, newFile, at).db
    case RevokingVault(c, call, newFiles) => RevokeRequest(db, c, call, newFiles, at).db
  }

  /** Random ids and tokens are new. */
  predicate Fresh(db: Db, r: Request) {
    match r
    case Registering(_, newUser, newDevice) => newUser !in db.users && newDevice !in db.devices
    case CreatingTeam(_, _, newTeam) => newTeam !in db.teams
    case Inviting(_, _, _, newToken) => newToken !in db.invites
    case CreatingVault(_, _, _, _, newVault) => newVault !in db.vaults
    case _ => true
  }

  /** The same owner, keys and fingerprint. */
  predicate SameDevice(a: DeviceRow, b: DeviceRow) {
    a.user == b.user && a.signPub == b.signPub && a.boxPub == b.boxPub && a.fingerprint == b.fingerprint
  }

  ghost predicate DevicesStay(db: Db, db': Db) {
    forall d :: d in db.devices ==> d in db'.devices && SameDevice(db.devices[d], db'.devices[d])
  }

  ghost predicate VaultsStay(db: Db, db': Db) {
    db'.vaults == db.vaults && db'.grants == db.grants && db'.shares == db.shares && db'.ft == db.ft
  }

  /** Registering adds a device, or sets the status of one to active. */
  lemma EnrolledDevices(db: Db, reg: RegisterRequest, newUser: UserId, newDevice: DeviceId)
    requires Enrol(db, reg, newUser, newDevice).Some?
    ensures var e := Enrol(db, reg, newUser, newDevice).value;
      if DeviceWith(db, reg.fingerprint).Some? then
        e.devices == WithStatus(db.devices, e.registration.device, ActiveDevice)
      else e.devices == db.devices[newDevice := NewDevice(reg, e.registration.user, e.registration.status)]
  {
  }

  lemma EnrolledDevicesStay(db: Db, reg: RegisterRequest, newUser: UserId, newDevice: DeviceId, e: Enrolment)
    requires newDevice !in db.devices && Enrol(db, reg, newUser, newDevice) == Some(e)
    ensures forall d :: d in db.devices ==> d in e.devices && SameDevice(db.devices[d], e.devices[d])
  {
    EnrolledDevices(db, reg, newUser, newDevice);
  }

  lemma RegisteringFrame(db: Db, reg: RegisterRequest, newUser: UserId, newDevice: DeviceId, at: int)
    requires newDevice !in db.devices
    ensures var db' := Register(db, reg, newUser, newDevice, at).db;
      VaultsStay(db, db') && DevicesStay(db, db')
  {
    var e := Enrol(db, reg, newUser, newDevice);
    if e.Some? {
      EnrolledDevicesStay(db, reg, newUser, newDevice, e.value);
    }
  }

  lemma ClaimingFrame(db: Db, c: Caller, token: string, at: int)
    ensures var db' := Claim(db, c, token, at).db;
      VaultsStay(db, db') && DevicesStay(db, db')
  {
  }

  lemma RevokingDeviceFrame(db: Db, c: Caller, d: DeviceId, at: int)
    ensures var db' := RevokeDevice(db, c, d, at).db;
      VaultsStay(db, db') && DevicesStay(db, db')
  {
  }

  lemma CreatingTeamFrame(db: Db, c: Caller, team: string, newTeam: TeamId, at: int)
    ensures var db' := CreateTeam(db, c, team, newTeam, at).db;
      VaultsStay(db, db') && db'.devices == db.devices
  {
  }

  lemma InvitingFrame(db: Db, c: Caller, team: string, username: string, newToken: string, at: int)
    ensures var db' := Invite(db, c, team, username, newToken, at).db;
      VaultsStay(db, db') && db'.devices == db.devices
  {
  }

  lemma SettingAdminFrame(db: Db, c: Caller, team: string, username: string, at: int)
    ensures var db' := SetAdmin(db, c, team, username, at).db;
      VaultsStay(db, db') && db'.devices == db.devices
  {
  }

  /** A request on anything but vaults and files, unless it deletes a team, leaves them and the devices'
      owners and keys alone. */
  lemma DirectoryFrame(db: Db, r: Request, at: int)
    requires r.Directory?() && !r.DeletingTeam? && Fresh(db, r)
    ensures VaultsStay(db, Handle(db, r, at)) && DevicesStay(db, Handle(db, r, at))
  {
    match r
    case Registering(reg, newUser, newDevice) => RegisteringFrame(db, reg, newUser, newDevice, at);
    case RevokingDevice(c, device) => RevokingDeviceFrame(db, c, device, at);
    case Claiming(c, token) => ClaimingFrame(db, c, token, at);
    case CreatingTeam(c, team, newTeam) => CreatingTeamFrame(db, c, team, newTeam, at);
    case Inviting(c, team, username, newToken) => InvitingFrame(db, c, team, username, newToken, at);
    case SettingAdmin(c, team, username) => SettingAdminFrame(db, c, team, username, at);
    case _ =>
  }

  ghost predicate PeopleStay(db: Db, db': Db) {
    && db'.users == db.users && db'.devices == db.devices && db'.teams == db.teams && db'.members == db.members
    && db'.invites == db.invites
  }

  lemma CreatingFrame(db: Db, c: Caller, team: string, name: string, shares: seq<WireShare>, newVault: VaultId, at: int)
    ensures var db' := CreateVaultRequest(db, c, team, name, shares, newVault, at).db;
      PeopleStay(db, db') && db'.ft == db.ft
  {
  }

  lemma GrantingFrame(db: Db, c: Caller, team: string, v: VaultId, username: string, shares: seq<WireShare>, at: int)
    ensures var db' := GrantRequest(db, c, team, v, username, shares, at).db;
      PeopleStay(db, db') && db'.ft == db.ft
  {
  }

  lemma PushingFrame(db: Db, c: Caller, v: VaultId, f: FilePush, newId: FileId, at: int)
    ensures var db' := PushRequest(db, c, v, f, newId, at).db;
      PeopleStay(db, db') && (db'.ft == db.ft || db'.ft == FileStore.AfterPush(db, db.ft, f.Args(v, c), newId))
  {
  }

  lemma SharedFrame(db: Db, list: seq<KeyShare>, n: nat)
    requires n <= |list|
    ensures PeopleStay(db, Shared(db, list, n))
  {
  }

  lemma RefiledFrame(db: Db, pushes: seq<FileStore.PushArgs>, ids: nat -> FileId, n: nat)
    requires n <= |pushes|
    ensures PeopleStay(db, Refiled(db, pushes, ids, n))
  {
  }

  lemma RotatingFrame(db1: Db, c: Caller, req: RevokeCall, ids: nat -> FileId, i: nat)
    requires i <= |req.shares| + |req.files|
    ensures PeopleStay(db1, RotateState(db1, c, req, ids, i))
  {
    var list := StoreShares(req.shares, req.vault);
    SharedFrame(db1, list, SharesIn(req, i));
    RefiledFrame(Shared(db1, list, SharesIn(req, i)), Pushes(req.files, req.vault, c), ids, FilesIn(req, i));
  }

  lemma RevokingVaultFrame(db: Db, c: Caller, req: RevokeCall, ids: nat -> FileId, at: int)
    ensures PeopleStay(db, RevokeRequest(db, c, req, ids, at).db)
  {
    if MayRevoke(db, c, req) {
      RotatingFrame(WithoutGrant(db, req.vault, UserNamed(db, req.username).value), c, req, ids, RevokeReach(db, c,
                    req, ids));
    }
  }

  /** A request on vaults or files leaves users, devices, teams, members and invites alone. */
  lemma VaultFrame(db: Db, r: Request, at: int)
    requires !r.Directory?()
    ensures PeopleStay(db, Handle(db, r, at))
  {
    match r
    case CreatingVault(c, team, name, shares, newVault) => CreatingFrame(db, c, team, name, shares, newVault, at);
    case GrantingVault(c, team, vault, username, shares) => GrantingFrame(db, c, team, vault, username, shares, at);
    case Pushing(c, vault, file, newFile) => PushingFrame(db, c, vault, file, newFile, at);
    case RevokingVault(c, call, newFiles) => RevokingVaultFrame(db, c, call, newFiles, at);
    case _ =>
  }
}
