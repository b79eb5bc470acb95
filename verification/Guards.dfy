/** Who a caller is, read off the tables: what the guards of internal/server/http/auth.go and the checks of
    the handlers come down to. */
module Guards {
  import opened Common
  import opened Schema
  import opened Lookup

  /** The request comes from a device of the user's. */
  predicate FromOwnDevice(db: Db, c: Caller) {
    c.user in db.users && c.device in db.devices && c.user == db.devices[c.device].user
  }

  predicate FromActiveDevice(db: Db, c: Caller) {
    FromOwnDevice(db, c) && db.devices[c.device].status == ActiveDevice
  }

  predicate HasAdminRow(db: Db, t: TeamId, u: UserId) {
    var k := MemberKey(t, u);
    k in db.members && db.members[k].status == ActiveMember && db.members[k].role == Admin
  }

  /** The team of this name, which is not empty. */
  predicate IsTeamOf(db: Db, t: TeamId, name: string) {
    t in db.teams && db.teams[t].name == name && name != ""
  }

  /** An active device of an admin of the team asks in the team's name. */
  predicate FromAdmin(db: Db, c: Caller, t: TeamId, name: string) {
    FromActiveDevice(db, c) && IsTeamOf(db, t, name) && HasAdminRow(db, t, c.user)
  }

  /** An active device of a user with a grant of the vault asks. */
  predicate FromHolder(db: Db, c: Caller, v: VaultId) {
    FromActiveDevice(db, c) && v in db.vaults && GrantKey(v, c.user) in db.grants
  }

  lemma AdminIsGuarded(db: Db, c: Caller, t: TeamId, name: string)
    requires UniqueTeamNames(db.teams)
    ensures FromAdmin(db, c, t, name) <==> TeamAdminAuthed(db, c, name) && TeamNamed(db, name) == Some(t)
  {
  }

  /** The team of the name is the only one. */
  lemma NamedTeam(db: Db, t: TeamId, name: string)
    requires UniqueTeamNames(db.teams)
    ensures TeamNamed(db, name) == Some(t) <==> t in db.teams && db.teams[t].name == name
  {
  }

  lemma NamedUser(db: Db, u: UserId, name: string)
    requires UniqueUsernames(db.users)
    ensures UserNamed(db, name) == Some(u) <==> u in db.users && db.users[u].username == name
  {
  }
}
