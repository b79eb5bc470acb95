/** Finding rows by their unique columns, and the guards of internal/server/http/auth.go. */
module Lookup {
  import opened Common
  import opened Crypto
  import opened Schema

  ghost predicate UniqueUsernames(users: map<UserId, UserRow>) {
    forall u, u' :: u in users && u' in users && users[u].username == users[u'].username ==> u == u'
  }

  ghost predicate UniquePrints(devices: map<DeviceId, DeviceRow>) {
    forall d, d' :: d in devices && d' in devices && devices[d].fingerprint == devices[d'].fingerprint ==> d == d'
  }

  ghost predicate UniqueTeamNames(teams: map<TeamId, TeamRow>) {
    forall t, t' :: t in teams && t' in teams && teams[t].name == teams[t'].name ==> t == t'
  }

  ghost predicate UniqueVaultNames(vaults: map<VaultId, VaultRow>) {
    forall v, v' :: v in vaults && v' in vaults && vaults[v].name == vaults[v'].name ==> v == v'
  }

  /** The unique columns of the schema: usernames, fingerprints, team names and vault names. */
  ghost predicate UniqueNames(db: Db) {
    UniqueUsernames(db.users) && UniquePrints(db.devices) && UniqueTeamNames(db.teams) && UniqueVaultNames(db.vaults)
  }

  ghost function UserNamed(db: Db, name: string): (r: Option<UserId>)
    ensures r.Some? ==> r.value in db.users && db.users[r.value].username == name
    ensures r.None? ==> forall u :: u in db.users ==> db.users[u].username != name
  {
    if u :| u in db.users && db.users[u].username == name then Some(u) else None
  }

  ghost function DeviceWith(db: Db, fp: Fingerprint): (r: Option<DeviceId>)
    ensures r.Some? ==> r.value in db.devices && db.devices[r.value].fingerprint == fp
    ensures r.None? ==> forall d :: d in db.devices ==> db.devices[d].fingerprint != fp
  {
    if d :| d in db.devices && db.devices[d].fingerprint == fp then Some(d) else None
  }

  ghost function TeamNamed(db: Db, name: string): (r: Option<TeamId>)
    ensures r.Some? ==> r.value in db.teams && db.teams[r.value].name == name
    ensures r.None? ==> forall t :: t in db.teams ==> db.teams[t].name != name
  {
    if t :| t in db.teams && db.teams[t].name == name then Some(t) else None
  }

  method GetUserByUsername(db: Db, name: string) returns (r: Option<UserId>)
    requires UniqueNames(db)
    ensures r == UserNamed(db, name)
  {
    if u :| u in db.users && db.users[u].username == name {
      return Some(u);
    }
    r := None;
  }

  method GetDeviceByFingerprint(db: Db, fp: Fingerprint) returns (r: Option<DeviceId>)
    requires UniqueNames(db)
    ensures r == DeviceWith(db, fp)
  {
    if d :| d in db.devices && db.devices[d].fingerprint == fp {
      return Some(d);
    }
    r := None;
  }

  method GetTeamByName(db: Db, name: string) returns (r: Option<TeamId>)
    requires UniqueNames(db)
    ensures r == TeamNamed(db, name)
  {
    if t :| t in db.teams && db.teams[t].name == name {
      return Some(t);
    }
    r := None;
  }

  // ---------------------------------------------------------------- guards

  /** The user and device a request's signature and fingerprint header stand for. */
  datatype Caller = Caller(user: UserId, device: DeviceId)

  predicate Authed(db: Db, c: Caller) {
    c.user in db.users && c.device in db.devices && db.devices[c.device].user == c.user
  }

  predicate ActiveAuthed(db: Db, c: Caller) {
    Authed(db, c) && db.devices[c.device].status == ActiveDevice
  }

  predicate IsTeamAdmin(db: Db, t: TeamId, u: UserId) {
    MemberKey(t, u) in db.members && db.members[MemberKey(t, u)] == MemberRow(ActiveMember, Admin)
  }

  ghost predicate TeamAdminAuthed(db: Db, c: Caller, team: string) {
    ActiveAuthed(db, c) && team != "" && TeamNamed(db, team).Some? && IsTeamAdmin(db, TeamNamed(db, team).value, c.user)
  }

  // ---------------------------------------------------------------- audit

  predicate OptionIn<T(==)>(o: Option<T>, s: set<T>) {
    o.None? || o.value in s
  }

  /** Log: a row whose references exist is appended, any other is refused and the refusal ignored. */
  function Logged(db: Db, c: Caller, vault: Option<VaultId>, action: Action, target: Target, at: int): Db {
    if c.user in db.users && c.device in db.devices && OptionIn(vault, db.vaults.Keys) then
      db.(audit := db.audit + [AuditRow(Some(c.user), Some(c.device), vault, action, target, at)])
    else db
  }
}
