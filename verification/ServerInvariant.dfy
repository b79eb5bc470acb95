/** What every request keeps: unique names, resolved references, valid file tables, the identity of
    devices, and the file logs. */
module ServerInvariant {
  import opened Common
  import opened Crypto
  import opened Schema
  import opened Lookup
  import opened FileStore
  import opened VaultStore
  import opened Directory
  import opened Cascade
  import opened VaultHandlers
  import opened Revocation
  import opened Server

  /** The fingerprint a device is found by is the hash of its signing key. */
  predicate PrintsAreHashes(devices: map<DeviceId, DeviceRow>) {
    forall d :: d in devices ==> devices[d].fingerprint == HashOf(devices[d].signPub)
  }

  /** Usernames are of the length registration takes. */
  predicate UsernamesFit(users: map<UserId, UserRow>) {
    forall u :: u in users ==> 0 < |users[u].username| <= 255
  }

  ghost predicate ServerInv(db: Db) {
    Valid(db.ft) && UniqueNames(db) && ForeignKeys(db) && PrintsAreHashes(db.devices) && UsernamesFit(db.users)
  }

  // ---------------------------------------------------------------- logging

  lemma LoggingKeeps(db: Db, c: Caller, vault: Option<VaultId>, action: Action, target: Target, at: int)
    requires ServerInv(db)
    ensures ServerInv(Logged(db, c, vault, action, target, at))
  {
    var db' := Logged(db, c, vault, action, target, at);
    assert AuditRefs(db'.audit, db'.users, db'.devices, db'.vaults);
  }

  // ---------------------------------------------------------------- users, devices, teams

  lemma AddedUserKeeps(db: Db, u: UserId, name: string)
    requires ServerInv(db) && u !in db.users && UserNamed(db, name).None? && 0 < |name| <= 255
    ensures ServerInv(db.(users := db.users[u := UserRow(name)]))
  {
  }

  lemma AddedDeviceKeeps(db: Db, d: DeviceId, row: DeviceRow)
    requires ServerInv(db) && d !in db.devices && row.user in db.users
    requires DeviceWith(db, row.fingerprint).None? && row.fingerprint == HashOf(row.signPub)
    ensures ServerInv(db.(devices := db.devices[d := row]))
  {
  }

  lemma StatusKeeps(db: Db, d: DeviceId, status: DeviceStatus)
    requires ServerInv(db)
    ensures ServerInv(db.(devices := WithStatus(db.devices, d, status)))
  {
  }

  lemma EnrolKeeps(db: Db, req: RegisterRequest, newUser: UserId, newDevice: DeviceId)
    requires ServerInv(db) && newUser !in db.users && newDevice !in db.devices
    requires Enrol(db, req, newUser, newDevice).Some?
    ensures var e := Enrol(db, req, newUser, newDevice).value;
      ServerInv(db.(users := e.users, devices := e.devices))
  {
    var device := DeviceWith(db, req.fingerprint);
    if device.Some? {
      StatusKeeps(db, device.value, ActiveDevice);
    } else {
      var db1 := db;
      if UserNamed(db, req.username).None? {
        AddedUserKeeps(db, newUser, req.username);
        db1 := db.(users := db.users[newUser := UserRow(req.username)]);
      }
      var e := Enrol(db, req, newUser, newDevice).value;
      AddedDeviceKeeps(db1, newDevice, NewDevice(req, e.registration.user, e.registration.status));
    }
  }

  lemma NewTeamKeeps(db: Db, name: string, newTeam: TeamId, u: UserId)
    requires ServerInv(db) && newTeam !in db.teams && TeamNamed(db, name).None? && u in db.users
    ensures ServerInv(db.(teams := db.teams[newTeam := TeamRow(name)],
                          members := db.members[MemberKey(newTeam, u) := MemberRow(ActiveMember, Admin)]))
  {
  }

  lemma MemberKeeps(db: Db, t: TeamId, u: UserId, row: MemberRow)
    requires ServerInv(db) && t in db.teams && u in db.users
    ensures ServerInv(db.(members := db.members[MemberKey(t, u) := row]))
  {
  }

  lemma InviteKeeps(db: Db, token: string, row: InviteRow)
    requires ServerInv(db) && row.team in db.teams && row.createdBy in db.users && OptionIn(row.usedBy, db.users.Keys)
    ensures ServerInv(db.(invites := db.invites[token := row]))
  {
  }

  lemma ClaimedKeeps(db: Db, token: string, u: UserId, d: DeviceId)
    requires ServerInv(db) && token in db.invites && u in db.users
    ensures ServerInv(Claimed(db, token, u, d))
  {
    var i := db.invites[token];
    var db1 := db.(invites := db.invites[token := i.(usedBy := Some(u))]);
    InviteKeeps(db, token, i.(usedBy := Some(u)));
    var db2 := if d in db.devices && db.devices[d].status == PendingDevice
               then db1.(devices := WithStatus(db1.devices, d, ActiveDevice)) else db1;
    StatusKeeps(db1, d, ActiveDevice);
    MemberKeeps(db2, i.team, u, MemberRow(ActiveMember, Member));
  }

  lemma DeletedTeamKeeps(db: Db, t: TeamId)
    requires ServerInv(db)
    ensures ServerInv(WithoutTeam(db, t))
  {
    CascadeKeepsForeignKeys(db, t);
    TablesWithoutVaults(db, VaultsOf(db, t));
  }

  // ---------------------------------------------------------------- vaults, grants, shares, files

  lemma NewVaultKeeps(db: Db, v: VaultId, row: VaultRow)
    requires ServerInv(db) && v !in db.vaults && row.team in db.teams && !VaultNameTaken(db, row.name)
    ensures ServerInv(db.(vaults := db.vaults[v := row]))
  {
  }

  lemma GrantRowKeeps(db: Db, v: VaultId, u: UserId)
    requires ServerInv(db) && v in db.vaults && u in db.users
    ensures ServerInv(db.(grants := db.grants + {GrantKey(v, u)}))
  {
  }

  lemma SharesKeep(db: Db, list: seq<KeyShare>)
    requires ServerInv(db) && forall i :: 0 <= i < |list| ==> VaultStore.Referable(db, list[i])
    ensures ServerInv(db.(shares := InsertShares(db.shares, list)))
  {
    InsertedShares(db.shares, list);
  }

  lemma WithoutGrantKeeps(db: Db, v: VaultId, u: UserId)
    requires ServerInv(db)
    ensures ServerInv(WithoutGrant(db, v, u))
  {
  }

  lemma AppendedRefs(t: FileTables, k: FileKey, id: FileId, latest: nat, row: VersionRow, devices: map<DeviceId,
                     DeviceRow>)
    requires VersionRefs(t, devices) && IdFor(t.files, k, id) && OptionIn(row.author, devices.Keys)
    ensures VersionRefs(Appended(t, k, id, latest, row), devices)
  {
    var t' := Appended(t, k, id, latest, row);
    forall vk | vk in t'.versions
      ensures HasId(t'.files, vk.file)
    {
      if vk.file == id {
        assert t'.files[k].id == id;
      } else {
        var k' :| k' in t.files && t.files[k'].id == vk.file;
        assert t'.files[k'].id == vk.file;
      }
    }
  }

  lemma PushKeeps(db: Db, a: PushArgs, newId: FileId)
    requires ServerInv(db)
    ensures ServerInv(db.(ft := AfterPush(db, db.ft, a, newId)))
  {
    PushIsCas(db, db.ft, a, newId);
    if PushOutcome(db, db.ft, a, newId).Accepted? {
      var id := if a.key in db.ft.files then db.ft.files[a.key].id else newId;
      AppendedRefs(db.ft, a.key, id, Latest(db.ft, a.key), a.Row(), db.devices);
    }
  }

  lemma {:induction false} PushedKeeps(db: Db, pushes: seq<PushArgs>, ids: nat -> FileId, n: nat)
    requires ServerInv(db) && n <= |pushes|
    ensures ServerInv(Refiled(db, pushes, ids, n))
    decreases n
  {
    if n > 0 {
      PushedKeeps(db, pushes, ids, n - 1);
      var before := Refiled(db, pushes, ids, n - 1);
      PushKeeps(before, pushes[n - 1], ids(n - 1));
      SameReferences(db, before, before.ft, pushes[n - 1], ids(n - 1));
    }
  }

  lemma SharedKeeps(db: Db, list: seq<KeyShare>, n: nat)
    requires ServerInv(db) && n <= ReferablePrefix(db, list)
    ensures ServerInv(Shared(db, list, n))
  {
    SharesKeep(db, list[..n]);
  }

  lemma RotateKeeps(db1: Db, c: Caller, req: RevokeCall, ids: nat -> FileId, i: nat)
    requires ServerInv(db1) && i <= RotateReach(db1, c, req, ids)
    ensures ServerInv(RotateState(db1, c, req, ids, i))
  {
    var list := StoreShares(req.shares, req.vault);
    SharedKeeps(db1, list, SharesIn(req, i));
    PushedKeeps(Shared(db1, list, SharesIn(req, i)), Pushes(req.files, req.vault, c), ids, FilesIn(req, i));
  }

  /** Every point of a revocation is a valid database, too. */
  lemma RevokeStateKeeps(db: Db, c: Caller, req: RevokeCall, ids: nat -> FileId, i: nat)
    requires ServerInv(db) && MayRevoke(db, c, req) && i <= RevokeReach(db, c, req, ids)
    ensures ServerInv(RevokeState(db, c, req, ids, i))
  {
    WithoutGrantKeeps(db, req.vault, Revoked(db, req));
    RotateKeeps(WithoutGrant(db, req.vault, Revoked(db, req)), c, req, ids, i);
  }

  lemma InVaultReferable(db: Db, v: VaultId, list: seq<KeyShare>)
    requires ReferablePrefix(db, InVault(v, list)) == |list|
    ensures forall i :: 0 <= i < |list| ==> VaultStore.Referable(db, InVault(v, list)[i])
  {
  }

  lemma CreateKeeps(db: Db, c: Caller, team: string, name: string, list: seq<WireShare>, newId: VaultId, at: int)
    requires ServerInv(db) && newId !in db.vaults
    ensures ServerInv(CreateVaultRequest(db, c, team, name, list, newId, at).db)
  {
    if CreateVaultRequest(db, c, team, name, list, newId, at).answer.Some? {
      var t, stored := TeamNamed(db, team).value, StoreShares(list, newId);
      var db1 := db.(vaults := db.vaults[newId := VaultRow(t, name)]);
      NewVaultKeeps(db, newId, VaultRow(t, name));
      InVaultReferable(db1, newId, stored);
      SharesKeep(db1, InVault(newId, stored));
      var db2 := VaultInserted(db, newId, t, name, stored).value;
      GrantRowKeeps(db2, newId, c.user);
      LoggingKeeps(db2.(grants := db2.grants + {GrantKey(newId, c.user)}), c, Some(newId), VaultCreated, Name(name),
                   at);
    }
  }

  lemma GrantKeeps(db: Db, c: Caller, team: string, v: VaultId, username: string, list: seq<WireShare>, at: int)
    requires ServerInv(db)
    ensures ServerInv(GrantRequest(db, c, team, v, username, list, at).db)
  {
    if GrantRequest(db, c, team, v, username, list, at).answer.Some? {
      var u, stored := UserNamed(db, username).value, StoreShares(list, v);
      var db1 := db.(grants := db.grants + {GrantKey(v, u)});
      GrantRowKeeps(db, v, u);
      InVaultReferable(db, v, stored);
      SharesKeep(db1, InVault(v, stored));
      LoggingKeeps(db1.(shares := InsertShares(db.shares, InVault(v, stored))), c, Some(v), Granted, Name(username),
                   at);
    }
  }

  lemma PushRequestKeeps(db: Db, c: Caller, v: VaultId, f: FilePush, newId: FileId, at: int)
    requires ServerInv(db)
    ensures ServerInv(PushRequest(db, c, v, f, newId, at).db)
  {
    PushKeeps(db, f.Args(v, c), newId);
    LoggingKeeps(db.(ft := AfterPush(db, db.ft, f.Args(v, c), newId)), c, Some(v),
                 if f.deleted then FileDeleted else FilePushed, Name(f.path), at);
  }

  lemma RevokeKeeps(db: Db, c: Caller, req: RevokeCall, ids: nat -> FileId, at: int)
    requires ServerInv(db)
    ensures ServerInv(RevokeRequest(db, c, req, ids, at).db)
  {
    if MayRevoke(db, c, req) {
      var last := RevokeState(db, c, req, ids, RevokeReach(db, c, req, ids));
      RevokeStateKeeps(db, c, req, ids, RevokeReach(db, c, req, ids));
      LoggingKeeps(last, c, Some(req.vault), GrantRevoked, Name(req.username), at);
    }
  }

  // ---------------------------------------------------------------- any request

  lemma RegisterKeeps(db: Db, req: RegisterRequest, newUser: UserId, newDevice: DeviceId, at: int)
    requires ServerInv(db) && newUser !in db.users && newDevice !in db.devices
    ensures ServerInv(Register(db, req, newUser, newDevice, at).db)
  {
    if Enrol(db, req, newUser, newDevice).Some? {
      var e := Enrol(db, req, newUser, newDevice).value;
      EnrolKeeps(db, req, newUser, newDevice);
      LoggingKeeps(db.(users := e.users, devices := e.devices), Caller(e.registration.user, e.registration.device),
                   None, e.action, e.target, at);
    }
  }

  lemma TeamsKeep(db: Db, r: Request, at: int)
    requires ServerInv(db) && Fresh(db, r) && (r.CreatingTeam? || r.DeletingTeam? || r.Inviting? || r.SettingAdmin?)
    ensures ServerInv(Handle(db, r, at))
  {
    match r
    case CreatingTeam(c, team, newTeam) =>
      if CreateTeam(db, c, team, newTeam, at).answer.Some? {
        NewTeamKeeps(db, team, newTeam, c.user);
        LoggingKeeps(db.(teams := db.teams[newTeam := TeamRow(team)],
                         members := db.members[MemberKey(newTeam, c.user) := MemberRow(ActiveMember, Admin)]),
                     c, None, TeamCreated, Name(team), at);
      }
    case DeletingTeam(c, team) =>
      if TeamAdminAuthed(db, c, team) {
        DeletedTeamKeeps(db, TeamNamed(db, team).value);
        LoggingKeeps(WithoutTeam(db, TeamNamed(db, team).value), c, None, TeamDeleted, Name(team), at);
      }
    case Inviting(c, team, username, newToken) =>
      if Invite(db, c, team, username, newToken, at).answer.Some? {
        var row := InviteRow(TeamNamed(db, team).value, username, c.user, at + INVITE_SECONDS, None);
        InviteKeeps(db, newToken, row);
        LoggingKeeps(db.(invites := db.invites[newToken := row]), c, None, Invited, Name(username + " to " + team), at);
      }
    case SettingAdmin(c, team, username) =>
      if SetAdmin(db, c, team, username, at).answer.Some? {
        var t, u := TeamNamed(db, team).value, UserNamed(db, username).value;
        var row := db.members[MemberKey(t, u)].(role := Admin);
        MemberKeeps(db, t, u, row);
        LoggingKeeps(db.(members := db.members[MemberKey(t, u) := row]), c, None, AdminSet, Name(username), at);
      }
  }

  lemma ClaimKeeps(db: Db, c: Caller, token: string, at: int)
    requires ServerInv(db)
    ensures ServerInv(Claim(db, c, token, at).db)
  {
    if Claim(db, c, token, at).answer.Some? {
      ClaimedKeeps(db, token, c.user, c.device);
      LoggingKeeps(Claimed(db, token, c.user, c.device), c, None, InviteClaimed, Name(token), at);
    }
  }

  lemma RevokeDeviceKeeps(db: Db, c: Caller, d: DeviceId, at: int)
    requires ServerInv(db)
    ensures ServerInv(RevokeDevice(db, c, d, at).db)
  {
    StatusKeeps(db, d, RevokedDevice);
    LoggingKeeps(db.(devices := WithStatus(db.devices, d, RevokedDevice)), c, None, DeviceRevoked, DeviceTarget(d), at);
  }

  /** Every request keeps all foreign keys resolved, names unique, files numbered from 1 to their latest
      version with the deleted flag of that version, and fingerprints the hashes of their keys. */
  lemma RequestKeepsServerInv(db: Db, r: Request, at: int)
    requires ServerInv(db) && Fresh(db, r)
    ensures ServerInv(Handle(db, r, at))
  {
    match r
    case Registering(reg, newUser, newDevice) => RegisterKeeps(db, reg, newUser, newDevice, at);
    case RevokingDevice(c, device) => RevokeDeviceKeeps(db, c, device, at);
    case Claiming(c, token) => ClaimKeeps(db, c, token, at);
    case CreatingVault(c, team, name, shares, newVault) => CreateKeeps(db, c, team, name, shares, newVault, at);
    case GrantingVault(c, team, vault, username, shares) => GrantKeeps(db, c, team, vault, username, shares, at);
    case Pushing(c, vault, file, newFile) => PushRequestKeeps(db, c, vault, file, newFile, at);
    case RevokingVault(c, call, newFiles) => RevokeKeeps(db, c, call, newFiles, at);
    case _ => TeamsKeep(db, r, at);
  }
}
