/** What becomes of each row of the tables by a request: exactly when it is added, changed or gone, in
    terms of what the tables had before. */
module RowsAfter {
  import opened Common
  import opened Crypto
  import opened Schema
  import opened Lookup
  import opened Guards
  import opened FileStore
  import opened VaultStore
  import opened Directory
  import opened Cascade
  import opened VaultHandlers
  import opened Revocation
  import opened Server
  import opened ServerInvariant
  import opened ServerRuns
  import opened Membership

  // ---------------------------------------------------------------- teams

  lemma TeamsOfOthers(db: Db, r: Request, at: int)
    requires !r.CreatingTeam? && !r.DeletingTeam?
    ensures Handle(db, r, at).teams == db.teams
  {
    if !r.Directory?() {
      VaultFrame(db, r, at);
    }
  }

  /** A team goes if and only if an admin of it deletes it. */
  lemma TeamGoesIff(db: Db, r: Request, at: int, t: TeamId)
    requires t in db.teams
    ensures t !in Handle(db, r, at).teams <==> Deletes(db, r, t)
  {
    if !r.CreatingTeam? && !r.DeletingTeam? {
      TeamsOfOthers(db, r, at);
    }
  }

  lemma CreatedTeams(db: Db, c: Caller, name: string, newTeam: TeamId, at: int)
    ensures CreateTeam(db, c, name, newTeam, at).db.teams ==
      if Creates(db, CreatingTeam(c, name, newTeam), at, newTeam, c.user) then db.teams[newTeam := TeamRow(name)]
      else db.teams
  {
  }

  lemma DeletedTeams(db: Db, c: Caller, name: string, at: int)
    ensures forall t :: t in DeleteTeam(db, c, name, at).db.teams ==> t in db.teams
  {
  }

  /** A team is new if and only if a user creates it from an active device, under a name no team has. */
  lemma TeamComesIff(db: Db, r: Request, at: int, t: TeamId)
    requires t !in db.teams
    ensures t in Handle(db, r, at).teams <==> r.CreatingTeam? && Creates(db, r, at, t, r.c.user)
    ensures t in Handle(db, r, at).teams ==> Handle(db, r, at).teams[t] == TeamRow(r.team)
  {
    if r.CreatingTeam? {
      CreatedTeams(db, r.c, r.team, r.newTeam, at);
    } else if r.DeletingTeam? {
      DeletedTeams(db, r.c, r.team, at);
    } else {
      TeamsOfOthers(db, r, at);
    }
  }

  // ---------------------------------------------------------------- users

  predicate NameTaken(db: Db, name: string) {
    exists u :: u in db.users && db.users[u].username == name
  }

  predicate PrintTaken(db: Db, fp: Fingerprint) {
    exists d :: d in db.devices && db.devices[d].fingerprint == fp
  }

  /** A registration in order, with a key no device has. */
  predicate NewKey(db: Db, reg: RegisterRequest) {
    && 0 < |reg.username| <= 255 && |reg.deviceName| <= 255
    && reg.fingerprint == HashOf(reg.signPub) && !PrintTaken(db, reg.fingerprint)
  }

  lemma NewUserEnrols(db: Db, reg: RegisterRequest, newUser: UserId, newDevice: DeviceId)
    requires !NameTaken(db, reg.username)
    ensures var e := Enrol(db, reg, newUser, newDevice);
      && (e.Some? <==> NewKey(db, reg))
      && (e.Some? ==>
            && e.value.users == db.users[newUser := UserRow(reg.username)]
            && e.value.devices == db.devices[newDevice :=
                 DeviceRow(newUser, reg.deviceName, reg.signPub, reg.boxPub, reg.fingerprint, ActiveDevice)])
  {
  }

  lemma KnownUserEnrols(db: Db, reg: RegisterRequest, newUser: UserId, newDevice: DeviceId)
    requires NameTaken(db, reg.username) && Enrol(db, reg, newUser, newDevice).Some?
    ensures Enrol(db, reg, newUser, newDevice).value.users == db.users
  {
  }

  lemma RegisteredUsers(db: Db, reg: RegisterRequest, newUser: UserId, newDevice: DeviceId, at: int)
    ensures Register(db, reg, newUser, newDevice, at).db.users ==
      if NewKey(db, reg) && !NameTaken(db, reg.username) then db.users[newUser := UserRow(reg.username)] else db.users
  {
    if !NameTaken(db, reg.username) {
      NewUserEnrols(db, reg, newUser, newDevice);
    } else if Enrol(db, reg, newUser, newDevice).Some? {
      KnownUserEnrols(db, reg, newUser, newDevice);
    }
  }

  lemma UsersOfOthers(db: Db, r: Request, at: int)
    requires !r.Registering?
    ensures Handle(db, r, at).users == db.users
  {
    if !r.Directory?() {
      VaultFrame(db, r, at);
    } else {
      match r
      case DeletingTeam(c, team) => DeletingKeepsUsers(db, c, team, at);
      case Claiming(c, token) => ClaimingKeepsUsers(db, c, token, at);
      case _ => OthersKeepUsers(db, r, at);
    }
  }

  /** A user is new if and only if an unknown name is registered with an unknown key. */
  lemma UserComesIff(db: Db, r: Request, at: int, u: UserId)
    requires u !in db.users
    ensures u in Handle(db, r, at).users <==>
      r.Registering? && r.newUser == u && NewKey(db, r.reg) && !NameTaken(db, r.reg.username)
    ensures u in Handle(db, r, at).users ==> Handle(db, r, at).users[u] == UserRow(r.reg.username)
  {
    if r.Registering? {
      RegisteredUsers(db, r.reg, r.newUser, r.newDevice, at);
    } else {
      UsersOfOthers(db, r, at);
    }
  }

  // ---------------------------------------------------------------- devices

  /** An active device of the user of this name has signed the fingerprint. */
  predicate VouchedFor(db: Db, reg: RegisterRequest) {
    && reg.link.Some?
    && exists d, u :: d in db.devices && u in db.users && db.users[u].username == reg.username
         && Vouches(db.devices[d], reg.link.value, reg.fingerprint, u)
  }

  lemma VouchedForIs(db: Db, reg: RegisterRequest, u: UserId)
    requires UniqueUsernames(db.users) && UserNamed(db, reg.username) == Some(u)
    ensures VouchedFor(db, reg) <==> Vouched(db, reg, u)
  {
  }

  /** The row of a new device: name and keys of the request, for the user of its name; active for a new user
      and where an active device of the user's vouches for it, and pending otherwise. */
  predicate IsNewDevice(db: Db, reg: RegisterRequest, newUser: UserId, row: DeviceRow) {
    && row.name == reg.deviceName && row.signPub == reg.signPub && row.boxPub == reg.boxPub
    && row.fingerprint == reg.fingerprint
    && if NameTaken(db, reg.username) then
         && row.user in db.users && db.users[row.user].username == reg.username
         && row.status == (if VouchedFor(db, reg) then ActiveDevice else PendingDevice)
       else row.user == newUser && row.status == ActiveDevice
  }

  lemma KnownUserAdds(db: Db, reg: RegisterRequest, newUser: UserId, newDevice: DeviceId, u: UserId)
    requires ServerInv(db) && newDevice !in db.devices && UserNamed(db, reg.username) == Some(u)
    ensures var e := Enrol(db, reg, newUser, newDevice);
      && (e.Some? && newDevice in e.value.devices <==> NewKey(db, reg) && (reg.link.None? || VouchedFor(db, reg)))
      && (e.Some? && newDevice in e.value.devices ==> IsNewDevice(db, reg, newUser, e.value.devices[newDevice]))
  {
    VouchedForIs(db, reg, u);
    if NewKey(db, reg) {
      AddedDeviceIff(db, reg, u, newUser, newDevice);
      if Enrol(db, reg, newUser, newDevice).Some? {
        AddedDeviceRow(db, reg, u, newUser, newDevice);
      }
    }
  }

  lemma AddedDeviceRow(db: Db, reg: RegisterRequest, u: UserId, newUser: UserId, newDevice: DeviceId)
    requires UserNamed(db, reg.username) == Some(u) && DeviceWith(db, reg.fingerprint).None?
    requires Enrol(db, reg, newUser, newDevice).Some?
    ensures var devices' := Enrol(db, reg, newUser, newDevice).value.devices;
      && newDevice in devices' && devices'[newDevice].status != RevokedDevice
      && devices'[newDevice] == NewDevice(reg, u, devices'[newDevice].status)
  {
  }

  lemma RegisteredDevices(db: Db, reg: RegisterRequest, newUser: UserId, newDevice: DeviceId, at: int)
    requires ServerInv(db) && newDevice !in db.devices
    ensures var devices' := Register(db, reg, newUser, newDevice, at).db.devices;
      && (newDevice in devices' <==>
            NewKey(db, reg) && (!NameTaken(db, reg.username) || reg.link.None? || VouchedFor(db, reg)))
      && (newDevice in devices' ==> IsNewDevice(db, reg, newUser, devices'[newDevice]))
      && (forall d :: d in devices' ==> d in db.devices || d == newDevice)
  {
    RegisteringLeaves(db, reg, newUser, newDevice, at);
    if !NameTaken(db, reg.username) {
      NewUserEnrols(db, reg, newUser, newDevice);
    } else {
      KnownUserAdds(db, reg, newUser, newDevice, UserNamed(db, reg.username).value);
      if Enrol(db, reg, newUser, newDevice).Some? {
        EnrolledDevices(db, reg, newUser, newDevice);
      }
    }
  }

  lemma DevicesOfOthers(db: Db, r: Request, at: int)
    requires !r.Registering? && Fresh(db, r)
    ensures Handle(db, r, at).devices.Keys == db.devices.Keys
  {
    if !r.Directory?() {
      VaultFrame(db, r, at);
    } else {
      match r
      case RevokingDevice(c, device) =>
      case Claiming(c, token) => ClaimingKeepsDevices(db, c, token, at);
      case DeletingTeam(c, team) => DeletingKeepsDevices(db, c, team, at);
      case _ => DirectoryKeepsDevices(db, r, at);
    }
  }

  lemma ClaimingKeepsDevices(db: Db, c: Caller, token: string, at: int)
    ensures Claim(db, c, token, at).db.devices.Keys == db.devices.Keys
  {
  }

  lemma DeletingKeepsDevices(db: Db, c: Caller, team: string, at: int)
    ensures DeleteTeam(db, c, team, at).db.devices == db.devices
  {
  }

  lemma DirectoryKeepsDevices(db: Db, r: Request, at: int)
    requires r.CreatingTeam? || r.Inviting? || r.SettingAdmin?
    ensures Handle(db, r, at).devices == db.devices
  {
  }

  /** A device is new if and only if an unknown key is registered, for a new user, without a link, or with the
      signature of an active device of the user. */
  lemma DeviceComesIff(db: Db, r: Request, at: int, d: DeviceId)
    requires ServerInv(db) && Fresh(db, r) && d !in db.devices
    ensures d in Handle(db, r, at).devices <==>
      && r.Registering? && r.newDevice == d && NewKey(db, r.reg)
      && (!NameTaken(db, r.reg.username) || r.reg.link.None? || VouchedFor(db, r.reg))
    ensures d in Handle(db, r, at).devices ==> IsNewDevice(db, r.reg, r.newUser, Handle(db, r, at).devices[d])
  {
    if r.Registering? {
      RegisteredDevices(db, r.reg, r.newUser, r.newDevice, at);
    } else {
      DevicesOfOthers(db, r, at);
    }
  }

  lemma RegisteringRevokesNothing(db: Db, reg: RegisterRequest, newUser: UserId, newDevice: DeviceId, at: int,
                                  d: DeviceId)
    requires d in db.devices && db.devices[d].status != RevokedDevice && newDevice !in db.devices
    ensures var devices' := Register(db, reg, newUser, newDevice, at).db.devices;
      d in devices' && devices'[d].status != RevokedDevice
  {
    RegisteringLeaves(db, reg, newUser, newDevice, at);
    if Enrol(db, reg, newUser, newDevice).Some? {
      EnrolledDevices(db, reg, newUser, newDevice);
    }
  }

  lemma OthersRevokeNothing(db: Db, r: Request, at: int, d: DeviceId)
    requires d in db.devices && db.devices[d].status != RevokedDevice
    requires r.Claiming? || r.DeletingTeam? || r.CreatingTeam? || r.Inviting? || r.SettingAdmin?
    ensures d in Handle(db, r, at).devices && Handle(db, r, at).devices[d].status != RevokedDevice
  {
  }

  /** A device becomes revoked if and only if a device of its owner asks for it. */
  lemma RevokedIff(db: Db, r: Request, at: int, d: DeviceId)
    requires Fresh(db, r) && d in db.devices && db.devices[d].status != RevokedDevice
    ensures d in Handle(db, r, at).devices
    ensures Handle(db, r, at).devices[d].status == RevokedDevice <==>
      r.RevokingDevice? && r.device == d && FromOwnDevice(db, r.c) && db.devices[d].user == r.c.user
  {
    if !r.Directory?() {
      VaultFrame(db, r, at);
    } else if r.Registering? {
      RegisteringRevokesNothing(db, r.reg, r.newUser, r.newDevice, at, d);
    } else if !r.RevokingDevice? {
      OthersRevokeNothing(db, r, at, d);
    }
  }

  lemma RegisteringSuspendsNothing(db: Db, reg: RegisterRequest, newUser: UserId, newDevice: DeviceId, at: int,
                                   d: DeviceId)
    requires d in db.devices && db.devices[d].status != PendingDevice && newDevice !in db.devices
    ensures var devices' := Register(db, reg, newUser, newDevice, at).db.devices;
      d in devices' && devices'[d].status != PendingDevice
  {
    RegisteringLeaves(db, reg, newUser, newDevice, at);
    if Enrol(db, reg, newUser, newDevice).Some? {
      EnrolledDevices(db, reg, newUser, newDevice);
    }
  }

  /** No device has to wait again: with the lemmas on what is revoked and what becomes active this is all
      that happens to the status of a device. */
  lemma NoneWaitsAgain(db: Db, r: Request, at: int, d: DeviceId)
    requires Fresh(db, r) && d in db.devices && db.devices[d].status != PendingDevice
    ensures d in Handle(db, r, at).devices && Handle(db, r, at).devices[d].status != PendingDevice
  {
    if !r.Directory?() {
      VaultFrame(db, r, at);
    } else if r.Registering? {
      RegisteringSuspendsNothing(db, r.reg, r.newUser, r.newDevice, at, d);
    } else if !r.RevokingDevice? {
      OthersSuspendNothing(db, r, at, d);
    }
  }

  lemma OthersSuspendNothing(db: Db, r: Request, at: int, d: DeviceId)
    requires d in db.devices && db.devices[d].status != PendingDevice
    requires r.Claiming? || r.DeletingTeam? || r.CreatingTeam? || r.Inviting? || r.SettingAdmin?
    ensures d in Handle(db, r, at).devices && Handle(db, r, at).devices[d].status != PendingDevice
  {
  }

  /** Why a claim is refused: no such token, used, too late, or for somebody else, in this order. */
  lemma ClaimRefusals(db: Db, token: string, username: string, now: int)
    ensures var e := ClaimCheck(db, token, username, now);
      && (e == Some(TokenNotFound) <==> token !in db.invites)
      && (e == Some(TokenUsed) <==> token in db.invites && db.invites[token].usedBy != None)
      && (e == Some(TokenExpired) <==>
            token in db.invites && db.invites[token].usedBy == None && now > db.invites[token].expiresAt)
      && (e == Some(TokenForOther) <==>
            token in db.invites && db.invites[token].usedBy == None && now <= db.invites[token].expiresAt
            && db.invites[token].username != username)
  {
  }

  lemma ClaimedIff(db: Db, c: Caller, token: string, at: int)
    ensures Claim(db, c, token, at).answer.Some? <==> exists t :: Claims(db, Claiming(c, token), at, t, c.user)
  {
    if Claim(db, c, token, at).answer.Some? {
      assert Claims(db, Claiming(c, token), at, db.invites[token].team, c.user);
    }
  }

  /** A device that waits becomes active if and only if it is registered again under its owner's name or an
      invite is claimed from it. */
  lemma WaitingActivatedIff(db: Db, r: Request, at: int, d: DeviceId)
    requires ServerInv(db) && Fresh(db, r) && d in db.devices && db.devices[d].status == PendingDevice
    ensures d in Handle(db, r, at).devices
    ensures Handle(db, r, at).devices[d].status == ActiveDevice <==>
      Reregisters(db, r, d) || (r.Claiming? && r.c.device == d && exists t :: Claims(db, r, at, t, r.c.user))
  {
    ActivatedIff(db, r, at, d);
    if r.Claiming? {
      ClaimedIff(db, r.c, r.token, at);
    }
  }

  // ---------------------------------------------------------------- invites

  /** An admin of the team invites somebody. */
  ghost predicate Invites(db: Db, r: Request, t: TeamId) {
    r.Inviting? && r.username != "" && FromAdmin(db, r.c, t, r.team) && TeamNamed(db, r.team) == Some(t)
  }

  function InviteOf(db: Db, token: string): Option<InviteRow> {
    if token in db.invites then Some(db.invites[token]) else None
  }

  lemma InviteMade(db: Db, r: Request, at: int, token: string)
    requires r.Inviting?
    ensures (exists t :: Invites(db, r, t)) && r.newToken == token ==>
      InviteOf(Handle(db, r, at), token) ==
        Some(InviteRow(TeamNamed(db, r.team).value, r.username, r.c.user, at + 24 * 60 * 60, None))
    ensures !((exists t :: Invites(db, r, t)) && r.newToken == token) ==>
      InviteOf(Handle(db, r, at), token) == InviteOf(db, token)
  {
    if TeamAdminAuthed(db, r.c, r.team) && r.username != "" {
      assert Invites(db, r, TeamNamed(db, r.team).value);
    }
  }

  lemma ClaimedInvite(db: Db, r: Request, at: int, token: string)
    requires r.Claiming?
    ensures (exists t :: Claims(db, r, at, t, r.c.user)) && r.token == token ==>
      InviteOf(Handle(db, r, at), token) == Some(db.invites[token].(usedBy := Some(r.c.user)))
    ensures !((exists t :: Claims(db, r, at, t, r.c.user)) && r.token == token) ==>
      InviteOf(Handle(db, r, at), token) == InviteOf(db, token)
  {
    ClaimedIff(db, r.c, r.token, at);
  }

  lemma InviteDeleted(db: Db, r: Request, at: int, token: string)
    requires r.DeletingTeam?
    ensures InviteOf(Handle(db, r, at), token) ==
      if token in db.invites && Deletes(db, r, db.invites[token].team) then None else InviteOf(db, token)
  {
  }

  /** An invite is made by an admin of its team for the user named, valid for a day; it is used by whoever
      claims it; it goes with its team; and nothing else changes it. */
  lemma InviteAfter(db: Db, r: Request, at: int, token: string)
    ensures InviteOf(Handle(db, r, at), token) ==
      if r.Inviting? && r.newToken == token && exists t :: Invites(db, r, t) then
        Some(InviteRow(TeamNamed(db, r.team).value, r.username, r.c.user, at + 24 * 60 * 60, None))
      else if r.Claiming? && r.token == token && exists t :: Claims(db, r, at, t, r.c.user) then
        Some(db.invites[token].(usedBy := Some(r.c.user)))
      else if r.DeletingTeam? && token in db.invites && Deletes(db, r, db.invites[token].team) then None
      else InviteOf(db, token)
  {
    if !r.Directory?() {
      VaultFrame(db, r, at);
    } else {
      match r
      case Inviting(_, _, _, _) => InviteMade(db, r, at, token);
      case Claiming(_, _) => ClaimedInvite(db, r, at, token);
      case DeletingTeam(_, _) => InviteDeleted(db, r, at, token);
      case _ => OtherInvites(db, r, at);
    }
  }

  // ---------------------------------------------------------------- vaults

  /** An admin of the team asks for a vault under a name no vault has, with shares for devices that exist,
      each once. */
  ghost predicate CreatesVault(db: Db, r: Request, t: TeamId) {
    && r.CreatingVault? && FromAdmin(db, r.c, t, r.team) && TeamNamed(db, r.team) == Some(t)
    && 0 < |r.name| <= 255 && |r.team| <= 255
    && (forall v :: v in db.vaults ==> db.vaults[v].name != r.name)
    && (forall i :: 0 <= i < |r.shares| ==> r.shares[i].device in db.devices)
    && (forall i, j :: 0 <= i < j < |r.shares| ==>
          r.shares[i].device != r.shares[j].device || r.shares[i].keyVersion != r.shares[j].keyVersion)
  }

  lemma SharesAreReferable(db: Db, shares: seq<WireShare>, v: VaultId)
    requires v in db.vaults
    ensures var list := InVault(v, StoreShares(shares, v));
      ReferablePrefix(db, list) == |list| <==> forall i :: 0 <= i < |shares| ==> shares[i].device in db.devices
  {
    var list := InVault(v, StoreShares(shares, v));
    assert forall i :: 0 <= i < |shares| ==> list[i].device == shares[i].device && list[i].vault == v;
    if forall i :: 0 <= i < |shares| ==> shares[i].device in db.devices {
      PrefixOfReferable(db, list, |list|);
    }
    if ReferablePrefix(db, list) == |list| {
      forall i | 0 <= i < |shares|
        ensures shares[i].device in db.devices
      {
        assert VaultStore.Referable(db, list[i]);
      }
    }
  }

  lemma FirstSharesGoIn(db1: Db, shares: seq<WireShare>, v: VaultId)
    requires v in db1.vaults
    ensures var list := InVault(v, StoreShares(shares, v));
      (ReferablePrefix(db1, list) == |list| && DistinctKeys(list)) <==>
        && (forall i :: 0 <= i < |shares| ==> shares[i].device in db1.devices)
        && (forall i, j :: 0 <= i < j < |shares| ==>
              shares[i].device != shares[j].device || shares[i].keyVersion != shares[j].keyVersion)
  {
    var list := InVault(v, StoreShares(shares, v));
    assert forall i :: 0 <= i < |list| ==> list[i].Key() == ShareKey(v, shares[i].device, shares[i].keyVersion);
    SharesAreReferable(db1, shares, v);
  }

  lemma CreatedVaultIff(db: Db, c: Caller, team: string, name: string, shares: seq<WireShare>, newVault: VaultId,
                        at: int)
    ensures var r, reply := CreatingVault(c, team, name, shares, newVault),
                            CreateVaultRequest(db, c, team, name, shares, newVault, at);
      && (reply.answer.Some? <==> exists t :: CreatesVault(db, r, t))
      && (reply.answer.None? ==> reply.db == db)
      && (reply.answer.Some? ==>
            && reply.answer.value == newVault
            && reply.db.vaults == db.vaults[newVault := VaultRow(TeamNamed(db, team).value, name)]
            && reply.db.grants == db.grants + {GrantKey(newVault, c.user)}
            && reply.db.shares == InsertShares(db.shares, InVault(newVault, StoreShares(shares, newVault))))
  {
    if TeamAdminAuthed(db, c, team) {
      var t := TeamNamed(db, team).value;
      FirstSharesGoIn(db.(vaults := db.vaults[newVault := VaultRow(t, name)]), shares, newVault);
      assert CreateVaultRequest(db, c, team, name, shares, newVault, at).answer.Some? <==>
        CreatesVault(db, CreatingVault(c, team, name, shares, newVault), t);
    }
  }

  lemma VaultsOfOthers(db: Db, r: Request, at: int)
    requires !r.CreatingVault? && !r.DeletingTeam? && Fresh(db, r)
    ensures Handle(db, r, at).vaults == db.vaults
  {
    match r
    case RevokingVault(c, call, newFiles) => RevokedVaults(db, c, call, newFiles, at);
    case GrantingVault(c, team, vault, username, shares) =>
    case Pushing(c, vault, file, newFile) =>
    case _ => DirectoryFrame(db, r, at);
  }

  lemma RevokedVaults(db: Db, c: Caller, call: RevokeCall, ids: nat -> FileId, at: int)
    ensures RevokeRequest(db, c, call, ids, at).db.vaults == db.vaults
  {
  }

  lemma DeletedVaults(db: Db, c: Caller, team: string, at: int, v: VaultId)
    ensures v in DeleteTeam(db, c, team, at).db.vaults <==>
      v in db.vaults && !Deletes(db, DeletingTeam(c, team), db.vaults[v].team)
  {
  }

  /** A vault is new if and only if an admin of its team asks for it in order; its creator has a grant. */
  lemma VaultComesIff(db: Db, r: Request, at: int, v: VaultId)
    requires Fresh(db, r) && v !in db.vaults
    ensures var db' := Handle(db, r, at);
      && (v in db'.vaults <==> r.CreatingVault? && r.newVault == v && exists t :: CreatesVault(db, r, t))
      && (v in db'.vaults ==>
            db'.vaults[v] == VaultRow(TeamNamed(db, r.team).value, r.name) && GrantKey(v, r.c.user) in db'.grants)
  {
    if r.CreatingVault? {
      CreatedVaultIff(db, r.c, r.team, r.name, r.shares, r.newVault, at);
    } else if r.DeletingTeam? {
      DeletedVaults(db, r.c, r.team, at, v);
    } else {
      VaultsOfOthers(db, r, at);
    }
  }

  /** A vault goes if and only if its team does. */
  lemma VaultGoesIff(db: Db, r: Request, at: int, v: VaultId)
    requires Fresh(db, r) && v in db.vaults
    ensures v !in Handle(db, r, at).vaults <==> Deletes(db, r, db.vaults[v].team)
  {
    if r.CreatingVault? {
      CreatedVaultIff(db, r.c, r.team, r.name, r.shares, r.newVault, at);
    } else if r.DeletingTeam? {
      DeletedVaults(db, r.c, r.team, at, v);
    } else {
      VaultsOfOthers(db, r, at);
    }
  }

  // ---------------------------------------------------------------- grants

  /** An admin of some team, who has a grant of the vault, grants it to the user, with shares for devices that
      exist.  Whether the user has a grant already does not matter. */
  ghost predicate GrantsTo(db: Db, r: Request, t: TeamId, u: UserId) {
    && r.GrantingVault? && FromAdmin(db, r.c, t, r.team) && TeamNamed(db, r.team) == Some(t)
    && FromHolder(db, r.c, r.vault) && r.username != "" && UserNamed(db, r.username) == Some(u)
    && forall i :: 0 <= i < |r.shares| ==> r.shares[i].device in db.devices
  }

  /** An admin of some team takes the user's grant of the vault away. */
  ghost predicate TakesFrom(db: Db, r: Request, t: TeamId, v: VaultId, u: UserId) {
    && r.RevokingVault? && FromAdmin(db, r.c, t, r.call.team) && TeamNamed(db, r.call.team) == Some(t)
    && r.call.vault == v && v in db.vaults && r.call.username != "" && UserNamed(db, r.call.username) == Some(u)
  }

  /** A grant goes through exactly so, and then all its shares go in but those whose keys are taken. */
  lemma GrantedIff(db: Db, c: Caller, team: string, v: VaultId, username: string, shares: seq<WireShare>, at: int)
    ensures var r, reply := GrantingVault(c, team, v, username, shares),
      GrantRequest(db, c, team, v, username, shares, at);
      && (reply.answer.Some? <==> exists t, u :: GrantsTo(db, r, t, u))
      && (reply.answer.None? ==> reply.db == db)
      && (reply.answer.Some? ==>
            && reply.db.grants == db.grants + {GrantKey(v, UserNamed(db, username).value)}
            && reply.db.shares == InsertShares(db.shares, InVault(v, StoreShares(shares, v))))
  {
    var r := GrantingVault(c, team, v, username, shares);
    if TeamAdminAuthed(db, c, team) && UserNamed(db, username).Some? && HasAccess(db, v, c.user) {
      SharesAreReferable(db, shares, v);
      assert GrantRequest(db, c, team, v, username, shares, at).answer.Some? <==>
        GrantsTo(db, r, TeamNamed(db, team).value, UserNamed(db, username).value);
    }
  }

  lemma RevokedGrant(db: Db, c: Caller, call: RevokeCall, ids: nat -> FileId, at: int, v: VaultId, u: UserId)
    ensures GrantKey(v, u) in RevokeRequest(db, c, call, ids, at).db.grants <==>
      GrantKey(v, u) in db.grants && !exists t :: TakesFrom(db, RevokingVault(c, call, ids), t, v, u)
  {
    if MayRevoke(db, c, call) && call.vault == v && UserNamed(db, call.username) == Some(u) {
      assert TakesFrom(db, RevokingVault(c, call, ids), TeamNamed(db, call.team).value, v, u);
    }
  }

  lemma DeletedGrant(db: Db, c: Caller, team: string, at: int, v: VaultId, u: UserId)
    ensures GrantKey(v, u) in DeleteTeam(db, c, team, at).db.grants <==>
      GrantKey(v, u) in db.grants && !(v in db.vaults && Deletes(db, DeletingTeam(c, team), db.vaults[v].team))
  {
  }

  lemma GrantsOfOthers(db: Db, r: Request, at: int)
    requires Fresh(db, r) && !r.CreatingVault? && !r.GrantingVault? && !r.RevokingVault? && !r.DeletingTeam?
    ensures Handle(db, r, at).grants == db.grants
  {
    if r.Directory?() {
      DirectoryFrame(db, r, at);
    }
  }

  /** A user has a grant of a vault after a request if and only if he is granted it, has created it, or had
      it and neither was it taken nor has the vault gone. */
  lemma GrantAfter(db: Db, r: Request, at: int, v: VaultId, u: UserId)
    requires Fresh(db, r)
    ensures GrantKey(v, u) in Handle(db, r, at).grants <==>
      || (r.GrantingVault? && r.vault == v && exists t :: GrantsTo(db, r, t, u))
      || (r.CreatingVault? && r.newVault == v && r.c.user == u && exists t :: CreatesVault(db, r, t))
      || (&& GrantKey(v, u) in db.grants
          && !(r.RevokingVault? && exists t :: TakesFrom(db, r, t, v, u))
          && !(r.DeletingTeam? && v in db.vaults && Deletes(db, r, db.vaults[v].team)))
  {
    match r
    case GrantingVault(c, team, vault, username, shares) => GrantedIff(db, c, team, vault, username, shares, at);
    case CreatingVault(c, team, name, shares, newVault) => CreatedVaultIff(db, c, team, name, shares, newVault, at);
    case RevokingVault(c, call, newFiles) => RevokedGrant(db, c, call, newFiles, at, v, u);
    case DeletingTeam(c, team) => DeletedGrant(db, c, team, at, v, u);
    case _ => GrantsOfOthers(db, r, at);
  }

  // ---------------------------------------------------------------- shares

  /** Where a share of a request is stored. */
  function PlaceOf(sh: WireShare, v: VaultId): ShareKey {
    ShareKey(if sh.vault.Some? then sh.vault.value else v, sh.device, sh.keyVersion)
  }

  /** Shares stay as they are, and each new one is the first in the list for its place. */
  ghost predicate SharesAdded(shares: Shares, shares': Shares, list: seq<WireShare>, places: seq<ShareKey>)
    requires |places| == |list|
  {
    && (forall k :: k in shares ==> k in shares' && shares'[k] == shares[k])
    && (forall i :: 0 <= i < |list| ==> places[i] in shares')
    && (forall k :: k in shares' && k !in shares ==>
          exists i :: 0 <= i < |list| && places[i] == k && list[i].sealed == shares'[k])
  }

  lemma InsertedPlaces(shares: Shares, list: seq<WireShare>, stored: seq<KeyShare>, places: seq<ShareKey>)
    requires |stored| == |list| == |places|
    requires forall i :: 0 <= i < |list| ==> stored[i].Key() == places[i] && stored[i].sealed == list[i].sealed
    ensures SharesAdded(shares, InsertShares(shares, stored), list, places)
  {
    InsertedShares(shares, stored);
    forall i | 0 <= i < |list|
      ensures places[i] in InsertShares(shares, stored)
    {
      assert stored[i].Key() in Keys(stored);
    }
  }

  function PlacesIn(list: seq<WireShare>, v: VaultId): seq<ShareKey> {
    seq(|list|, i requires 0 <= i < |list| => ShareKey(v, list[i].device, list[i].keyVersion))
  }

  function PlacesFor(list: seq<WireShare>, v: VaultId): seq<ShareKey> {
    seq(|list|, i requires 0 <= i < |list| => PlaceOf(list[i], v))
  }

  /** The shares of a grant or a new vault go into that vault, whatever vault they name. */
  lemma SharesOfTheVault(db: Db, r: Request, at: int)
    requires r.GrantingVault? || r.CreatingVault?
    requires Succeeds(db, r, at)
    ensures var v := if r.GrantingVault? then r.vault else r.newVault;
      SharesAdded(db.shares, Handle(db, r, at).shares, r.shares, PlacesIn(r.shares, v))
  {
    var v := if r.GrantingVault? then r.vault else r.newVault;
    if r.GrantingVault? {
      GrantedIff(db, r.c, r.team, r.vault, r.username, r.shares, at);
    } else {
      CreatedVaultIff(db, r.c, r.team, r.name, r.shares, r.newVault, at);
    }
    InsertedPlaces(db.shares, r.shares, InVault(v, StoreShares(r.shares, v)), PlacesIn(r.shares, v));
  }

  /** What a revocation leaves of the shares before its own go in: all but those of the user's devices in the
      vault. */
  ghost predicate TargetsShare(db: Db, v: VaultId, u: UserId, k: ShareKey) {
    k.vault == v && k.device in db.devices && db.devices[k.device].user == u
  }

  lemma RevokedShares(db: Db, c: Caller, call: RevokeCall, ids: nat -> FileId, at: int, u: UserId)
    requires RevokeRequest(db, c, call, ids, at).answer.Some? && UserNamed(db, call.username) == Some(u)
    ensures RevokeRequest(db, c, call, ids, at).db.shares ==
      InsertShares(WithoutGrant(db, call.vault, u).shares, StoreShares(call.shares, call.vault))
  {
    var list := StoreShares(call.shares, call.vault);
    assert list[..|list|] == list;
  }

  /** After a revocation that succeeds all shares but the user's in the vault are as before, and those of the
      request are there, each in the vault it names. */
  lemma SharesAfterRevocation(db: Db, c: Caller, call: RevokeCall, ids: nat -> FileId, at: int, u: UserId,
                              before: Shares, after: Shares)
    requires RevokeRequest(db, c, call, ids, at).answer.Some? && UserNamed(db, call.username) == Some(u)
    requires before == map k | k in db.shares && !TargetsShare(db, call.vault, u, k) :: db.shares[k]
    requires after == RevokeRequest(db, c, call, ids, at).db.shares
    ensures SharesAdded(before, after, call.shares, PlacesFor(call.shares, call.vault))
  {
    RevokedShares(db, c, call, ids, at, u);
    assert before == WithoutGrant(db, call.vault, u).shares;
    InsertedPlaces(before, call.shares, StoreShares(call.shares, call.vault), PlacesFor(call.shares, call.vault));
  }

  // ---------------------------------------------------------------- pushes

  /** A push is accepted if and only if an active device of a user with a grant asks, with a ciphertext of at
      most 2^20 bytes and on top of the latest version, and a new file's id is in no use. */
  lemma PushedIff(db: Db, c: Caller, v: VaultId, f: FilePush, newId: FileId, at: int)
    requires Valid(db.ft)
    ensures var reply, k := PushRequest(db, c, v, f, newId, at), FileKey(v, f.path);
      && (reply.answer.Some? <==>
            && FromHolder(db, c, v) && f.path != "" && Size(f.blob) <= 0x10_0000 && f.base == |LogOf(db.ft, k)|
            && (k in db.ft.files || !HasId(db.ft.files, newId)))
      && (reply.answer.None? ==> reply.db == db)
  {
    LatestIsLength(db.ft, FileKey(v, f.path));
  }

  // ---------------------------------------------------------------- the log of requests

  /** The request is answered with success. */
  ghost predicate Succeeds(db: Db, r: Request, at: int) {
    match r
    case Registering(reg, newUser, newDevice) => Register(db, reg, newUser, newDevice, at).answer.Some?
    case RevokingDevice(c, device) => RevokeDevice(db, c, device, at).answer.Some?
    case CreatingTeam(c, team, newTeam) => CreateTeam(db, c, team, newTeam, at).answer.Some?
    case DeletingTeam(c, team) => DeleteTeam(db, c, team, at).answer.Some?
    case Inviting(c, team, username, newToken) => Invite(db, c, team, username, newToken, at).answer.Some?
    case Claiming(c, token) => Claim(db, c, token, at).answer.Some?
    case SettingAdmin(c, team, username) => SetAdmin(db, c, team, username, at).answer.Some?
    case CreatingVault(c, team, name, shares, newVault) =>
      CreateVaultRequest(db, c, team, name, shares, newVault, at).answer.Some?
    case GrantingVault(c, team, vault, username, shares) => GrantRequest(db, c, team, vault, username, shares,
        at).answer.Some?
    case Pushing(c, vault, file, newFile) => PushRequest(db, c, vault, file, newFile, at).answer.Some?
    case RevokingVault(c, call, newFiles) => RevokeRequest(db, c, call, newFiles, at).answer.Some?
  }

  /** Registering a key: unknown with an unknown name, without a link, or vouched for; or known with the name
      of its owner. */
  predicate Registers(db: Db, reg: RegisterRequest) {
    && 0 < |reg.username| <= 255 && |reg.deviceName| <= 255 && reg.fingerprint == HashOf(reg.signPub)
    && if PrintTaken(db, reg.fingerprint) then
         exists d, u :: d in db.devices && db.devices[d].fingerprint == reg.fingerprint && db.devices[d].user == u
           && u in db.users && db.users[u].username == reg.username
       else !NameTaken(db, reg.username) || reg.link.None? || VouchedFor(db, reg)
  }

  lemma RegistersIff(db: Db, reg: RegisterRequest, newUser: UserId, newDevice: DeviceId)
    requires ServerInv(db) && newDevice !in db.devices
    ensures Enrol(db, reg, newUser, newDevice).Some? <==> Registers(db, reg)
  {
    if !PrintTaken(db, reg.fingerprint) {
      if NameTaken(db, reg.username) {
        var u := UserNamed(db, reg.username).value;
        VouchedForIs(db, reg, u);
        if WellFormed(reg) {
          AddedDeviceIff(db, reg, u, newUser, newDevice);
        }
      }
    } else {
      KnownKeyEnrols(db, reg, newUser, newDevice, DeviceWith(db, reg.fingerprint).value);
    }
  }

  lemma KnownKeyEnrols(db: Db, reg: RegisterRequest, newUser: UserId, newDevice: DeviceId, d: DeviceId)
    requires ServerInv(db) && d in db.devices && db.devices[d].fingerprint == reg.fingerprint
    ensures Enrol(db, reg, newUser, newDevice).Some? <==>
      WellFormed(reg) && db.users[db.devices[d].user].username == reg.username
  {
    assert DeviceWith(db, reg.fingerprint) == Some(d);
  }

  /** A registration is answered with the device of its key, its owner, and its status. */
  lemma RegistrationIsTheDevice(db: Db, reg: RegisterRequest, newUser: UserId, newDevice: DeviceId, at: int)
    requires ServerInv(db) && newDevice !in db.devices && Register(db, reg, newUser, newDevice, at).answer.Some?
    ensures var reply := Register(db, reg, newUser, newDevice, at);
      var a := reply.answer.value;
      && a.device in reply.db.devices && reply.db.devices[a.device].fingerprint == reg.fingerprint
      && a.user == reply.db.devices[a.device].user && a.status == reply.db.devices[a.device].status
      && a.user in reply.db.users && reply.db.users[a.user].username == reg.username
  {
    RegisteringLeaves(db, reg, newUser, newDevice, at);
    RegisteredUsers(db, reg, newUser, newDevice, at);
    EnrolledDevices(db, reg, newUser, newDevice);
  }

  /** What a request that is no revocation of a grant needs. */
  ghost predicate InOrder(db: Db, r: Request, at: int)
    requires !r.RevokingVault? && Valid(db.ft)
  {
    match r
    case Registering(reg, _, _) => Registers(db, reg)
    case RevokingDevice(c, device) =>
      FromOwnDevice(db, c) && device in db.devices && db.devices[device].user == c.user
    case CreatingTeam(c, _, newTeam) => Creates(db, r, at, newTeam, c.user)
    case DeletingTeam(_, _) => exists t :: Deletes(db, r, t)
    case Inviting(_, _, _, _) => exists t :: Invites(db, r, t)
    case Claiming(c, _) => exists t :: Claims(db, r, at, t, c.user)
    case SettingAdmin(_, _, _) => exists t, u :: Promotes(db, r, at, t, u)
    case CreatingVault(_, _, _, _, _) => exists t :: CreatesVault(db, r, t)
    case GrantingVault(_, _, _, _, _) => exists t, u :: GrantsTo(db, r, t, u)
    case Pushing(c, v, f, newFile) =>
      && FromHolder(db, c, v) && f.path != "" && Size(f.blob) <= 0x10_0000
      && f.base == |LogOf(db.ft, FileKey(v, f.path))|
      && (FileKey(v, f.path) in db.ft.files || !HasId(db.ft.files, newFile))
  }

  lemma PromotedIff(db: Db, c: Caller, team: string, username: string, at: int)
    ensures SetAdmin(db, c, team, username, at).answer.Some? <==>
      exists t, u :: Promotes(db, SettingAdmin(c, team, username), at, t, u)
  {
    if TeamAdminAuthed(db, c, team) && UserNamed(db, username).Some? {
      var t, u := TeamNamed(db, team).value, UserNamed(db, username).value;
      var row := RowOf(db, t, u);
      if row.Some? {
        assert row.value.role == Admin || row.value.role == Member;
        assert row.value == MemberRow(row.value.status, row.value.role);
      }
      assert SetAdmin(db, c, team, username, at).answer.Some? <==>
        Promotes(db, SettingAdmin(c, team, username), at, t, u);
    }
  }

  lemma InvitedIff(db: Db, c: Caller, team: string, username: string, newToken: string, at: int)
    ensures Invite(db, c, team, username, newToken, at).answer.Some? <==>
      exists t :: Invites(db, Inviting(c, team, username, newToken), t)
  {
    if TeamAdminAuthed(db, c, team) {
      assert Invite(db, c, team, username, newToken, at).answer.Some? <==>
        Invites(db, Inviting(c, team, username, newToken), TeamNamed(db, team).value);
    }
  }

  lemma DeletedIff(db: Db, c: Caller, team: string, at: int)
    ensures DeleteTeam(db, c, team, at).answer.Some? <==> exists t :: Deletes(db, DeletingTeam(c, team), t)
  {
    if TeamAdminAuthed(db, c, team) {
      assert Deletes(db, DeletingTeam(c, team), TeamNamed(db, team).value);
    }
  }

  /** Every other request is answered with success if and only if it is in order. */
  lemma SucceedsIff(db: Db, r: Request, at: int)
    requires ServerInv(db) && Fresh(db, r) && !r.RevokingVault?
    ensures Succeeds(db, r, at) <==> InOrder(db, r, at)
  {
    match r
    case Registering(reg, newUser, newDevice) => RegistersIff(db, reg, newUser, newDevice);
    case RevokingDevice(c, device) =>
    case CreatingTeam(c, team, newTeam) =>
    case DeletingTeam(c, team) => DeletedIff(db, c, team, at);
    case Inviting(c, team, username, newToken) => InvitedIff(db, c, team, username, newToken, at);
    case Claiming(c, token) => ClaimedIff(db, c, token, at);
    case SettingAdmin(c, team, username) => PromotedIff(db, c, team, username, at);
    case CreatingVault(c, team, name, shares, newVault) => CreatedVaultIff(db, c, team, name, shares, newVault, at);
    case GrantingVault(c, team, vault, username, shares) => GrantedIff(db, c, team, vault, username, shares, at);
    case Pushing(c, vault, file, newFile) => PushedIff(db, c, vault, file, newFile, at);
  }

  /** A revocation succeeds only if an admin of some team takes a grant, and then if its shares are for devices
      that exist and its files on the latest versions. */
  lemma RevocationSucceeds(db: Db, c: Caller, call: RevokeCall, ids: nat -> FileId, at: int)
    requires Valid(db.ft)
    ensures var r, answer := RevokingVault(c, call, ids), RevokeRequest(db, c, call, ids, at).answer;
      && (answer.Some? ==> exists t, u :: TakesFrom(db, r, t, call.vault, u))
      && ((exists t, u :: TakesFrom(db, r, t, call.vault, u)) && UpToDate(db, c, call) ==> answer.Some?)
  {
    var r := RevokingVault(c, call, ids);
    if MayRevoke(db, c, call) {
      assert TakesFrom(db, r, TeamNamed(db, call.team).value, call.vault, UserNamed(db, call.username).value);
      if UpToDate(db, c, call) {
        UpToDateCompletes(db, c, call, ids);
      }
    }
  }

  /** What the log says of a request by a user that succeeds. */
  function EntryOf(r: Request, at: int): AuditRow
    requires !r.Registering?
  {
    var (vault, action, target) :=
      match r {
        case RevokingDevice(_, device) => (None, DeviceRevoked, DeviceTarget(device))
        case CreatingTeam(_, team, _) => (None, TeamCreated, Name(team))
        case DeletingTeam(_, team) => (None, TeamDeleted, Name(team))
        case Inviting(_, team, username, _) => (None, Invited, Name(username + " to " + team))
        case Claiming(_, token) => (None, InviteClaimed, Name(token))
        case SettingAdmin(_, _, username) => (None, AdminSet, Name(username))
        case CreatingVault(_, _, name, _, newVault) => (Some(newVault), VaultCreated, Name(name))
        case GrantingVault(_, _, vault, username, _) => (Some(vault), Granted, Name(username))
        case Pushing(_, vault, file, _) => (Some(vault), if file.deleted then FileDeleted
          else FilePushed, Name(file.path))
        case RevokingVault(_, call, _) => (Some(call.vault), GrantRevoked, Name(call.username))
      };
    AuditRow(Some(r.c.user), Some(r.c.device), vault, action, target, at)
  }

  /** What the log says of a registration: of a new user, of a key known already, or of a new device. */
  function RegistrationEntry(db: Db, reg: RegisterRequest, u: UserId, d: DeviceId, at: int): AuditRow {
    var (action, target) :=
      if !NameTaken(db, reg.username) then (Registered, Name(reg.username))
      else if PrintTaken(db, reg.fingerprint) then (DeviceRecovered, PrintTarget(reg.fingerprint))
      else (DeviceAdded, Name(reg.deviceName));
    AuditRow(Some(u), Some(d), None, action, target, at)
  }

  /** A registration that goes through is logged with the user and device it is answered with, and no other
      is. */
  lemma RegistrationIsLogged(db: Db, reg: RegisterRequest, newUser: UserId, newDevice: DeviceId, at: int)
    ensures var reply := Register(db, reg, newUser, newDevice, at);
      reply.db.audit == db.audit + match reply.answer {
        case None => []
        case Some(a) => [RegistrationEntry(db, reg, a.user, a.device, at)]
      }
  {
    var e := Enrol(db, reg, newUser, newDevice);
    if e.Some? {
      EnrolmentAction(db, reg, newUser, newDevice);
    }
  }

  lemma EnrolmentAction(db: Db, reg: RegisterRequest, newUser: UserId, newDevice: DeviceId)
    requires Enrol(db, reg, newUser, newDevice).Some?
    ensures var e := Enrol(db, reg, newUser, newDevice).value;
      forall u, d, at ::
        RegistrationEntry(db, reg, u, d, at) == AuditRow(Some(u), Some(d), None, e.action, e.target, at)
  {
  }

  lemma VaultRequestsAreLogged(db: Db, r: Request, at: int)
    requires !r.Directory?()
    ensures Handle(db, r, at).audit == db.audit + (if Succeeds(db, r, at) then [EntryOf(r, at)] else [])
  {
    match r
    case CreatingVault(c, team, name, shares, newVault) => CreatedVaultIff(db, c, team, name, shares, newVault, at);
    case GrantingVault(c, team, vault, username, shares) => GrantedIff(db, c, team, vault, username, shares, at);
    case Pushing(c, vault, file, newFile) =>
    case RevokingVault(c, call, newFiles) => RevocationIsLogged(db, c, call, newFiles, at);
  }

  lemma RevocationIsLogged(db: Db, c: Caller, call: RevokeCall, ids: nat -> FileId, at: int)
    ensures var r, reply := RevokingVault(c, call, ids), RevokeRequest(db, c, call, ids, at);
      reply.db.audit == db.audit + (if reply.answer.Some? then [EntryOf(r, at)] else [])
  {
    if MayRevoke(db, c, call) {
      var n := RevokeReach(db, c, call, ids);
      assert RevokeState(db, c, call, ids, n).audit == db.audit;
    }
  }

  lemma DirectoryRequestsAreLogged(db: Db, r: Request, at: int)
    requires r.Directory?() && !r.Registering? && !r.DeletingTeam?
    ensures Handle(db, r, at).audit == db.audit + (if Succeeds(db, r, at) then [EntryOf(r, at)] else [])
  {
  }

  /** Every request of a user that succeeds is logged with its user, device, vault, action, target and time,
      and no other is.  The deletion of a team besides makes rows forget its vaults. */
  lemma RequestsAreLogged(db: Db, r: Request, at: int)
    requires !r.Registering?
    ensures var audit' := Handle(db, r, at).audit;
      && |audit'| == |db.audit| + (if Succeeds(db, r, at) then 1 else 0)
      && (Succeeds(db, r, at) ==> audit'[|db.audit|] == EntryOf(r, at))
      && (!r.DeletingTeam? ==> audit'[..|db.audit|] == db.audit)
      && (forall i :: 0 <= i < |db.audit| ==> audit'[i] == db.audit[i] || audit'[i] == db.audit[i].(vault := None))
  {
    if !r.Directory?() {
      VaultRequestsAreLogged(db, r, at);
    } else if !r.DeletingTeam? {
      DirectoryRequestsAreLogged(db, r, at);
    }
  }
}
