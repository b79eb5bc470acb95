/** Foreign keys and the cascade of deleting a team (internal/db/migrations, DeleteTeam in
    internal/server/store/teams.go). */
module Cascade {
  import opened Common
  import opened Crypto
  import opened Schema
  import opened Lookup
  import opened FileStore
  import opened Directory

  predicate DeviceRefs(devices: map<DeviceId, DeviceRow>, users: map<UserId, UserRow>) {
    forall d :: d in devices ==> devices[d].user in users
  }

  ghost predicate MemberRefs(members: map<MemberKey, MemberRow>, teams: map<TeamId, TeamRow>, users: map<UserId,
                             UserRow>) {
    forall k :: k in members ==> k.team in teams && k.user in users
  }

  predicate VaultRefs(vaults: map<VaultId, VaultRow>, teams: map<TeamId, TeamRow>) {
    forall v :: v in vaults ==> vaults[v].team in teams
  }

  predicate InviteRefs(invites: map<string, InviteRow>, teams: map<TeamId, TeamRow>, users: map<UserId, UserRow>) {
    forall token :: token in invites ==>
      var i := invites[token];
      i.team in teams && i.createdBy in users && OptionIn(i.usedBy, users.Keys)
  }

  predicate GrantRefs(grants: set<GrantKey>, vaults: map<VaultId, VaultRow>, users: map<UserId, UserRow>) {
    forall g :: g in grants ==> g.vault in vaults && g.user in users
  }

  predicate ShareRefs(shares: map<ShareKey, Sealed>, vaults: map<VaultId, VaultRow>, devices: map<DeviceId,
                      DeviceRow>) {
    forall k :: k in shares ==> k.vault in vaults && k.device in devices
  }

  predicate FileRefs(files: map<FileKey, FileRow>, vaults: map<VaultId, VaultRow>) {
    forall k :: k in files ==> k.vault in vaults
  }

  ghost predicate VersionRefs(ft: FileTables, devices: map<DeviceId, DeviceRow>) {
    forall vk :: vk in ft.versions ==> HasId(ft.files, vk.file) && OptionIn(ft.versions[vk].author, devices.Keys)
  }

  predicate AuditRefs(audit: seq<AuditRow>, users: map<UserId, UserRow>, devices: map<DeviceId, DeviceRow>,
                      vaults: map<VaultId, VaultRow>) {
    forall i :: 0 <= i < |audit| ==>
      OptionIn(audit[i].user, users.Keys) && OptionIn(audit[i].device, devices.Keys)
        && OptionIn(audit[i].vault, vaults.Keys)
  }

  /** Every REFERENCES clause of the schema resolves. */
  ghost predicate ForeignKeys(db: Db) {
    && DeviceRefs(db.devices, db.users) && MemberRefs(db.members, db.teams, db.users)
    && VaultRefs(db.vaults, db.teams) && InviteRefs(db.invites, db.teams, db.users)
    && GrantRefs(db.grants, db.vaults, db.users) && ShareRefs(db.shares, db.vaults, db.devices)
    && FileRefs(db.ft.files, db.vaults) && VersionRefs(db.ft, db.devices)
    && AuditRefs(db.audit, db.users, db.devices, db.vaults)
  }

  // ---------------------------------------------------------------- the cascade, statement by statement

  lemma DropMoreFiles(db: Db, gone: set<VaultId>, v: VaultId)
    requires UniqueIds(db.ft.files)
    ensures FileIds(db, gone + {v}) == FileIds(db, gone) + FileIds(WithoutVaults(db, gone), {v})
  {
    var db1 := WithoutVaults(db, gone);
    forall id | id in FileIds(db, gone + {v})
      ensures id in FileIds(db, gone) + FileIds(db1, {v})
    {
      var k :| k in db.ft.files && k.vault in gone + {v} && db.ft.files[k].id == id;
      assert k.vault !in gone ==> k in db1.ft.files;
    }
  }

  lemma DropMoreVaults(db: Db, gone: set<VaultId>, v: VaultId)
    requires UniqueIds(db.ft.files)
    ensures WithoutVaults(WithoutVaults(db, gone), {v}) == WithoutVaults(db, gone + {v})
  {
    var db2, db3 := WithoutVaults(db, gone + {v}), WithoutVaults(WithoutVaults(db, gone), {v});
    DropMoreFiles(db, gone, v);
    assert db3.ft.versions == db2.ft.versions;
    assert db3.ft.files == db2.ft.files;
    assert db3.shares == db2.shares;
    assert db3.vaults == db2.vaults;
    assert db3.grants == db2.grants;
    assert db3.audit == db2.audit;
  }

  lemma DropNoVaults(db: Db)
    ensures WithoutVaults(db, {}) == db
  {
    var db' := WithoutVaults(db, {});
    assert db'.vaults == db.vaults && db'.shares == db.shares && db'.grants == db.grants && db'.audit == db.audit;
    assert db'.ft.files == db.ft.files && db'.ft.versions == db.ft.versions;
  }

  /** Deleting one vault row, and what refers to it. */
  method DeleteVault(s: Store, v: VaultId)
    modifies s
    ensures s.db == WithoutVaults(old(s.db), {v})
  {
    var db := s.db;
    var ids := FileIds(db, {v});
    var versions := map vk | vk in db.ft.versions && vk.file !in ids :: db.ft.versions[vk];
    var files := map k | k in db.ft.files && k.vault !in {v} :: db.ft.files[k];
    s.db := s.db.(ft := FileTables(files, versions));
    s.db := s.db.(shares := map k | k in s.db.shares && k.vault !in {v} :: s.db.shares[k]);
    s.db := s.db.(grants := set g | g in s.db.grants && g.vault !in {v});
    var audit := [];
    for i := 0 to |s.db.audit|
      invariant |audit| == i && forall j :: 0 <= j < i ==> audit[j] == NullVault(s.db.audit[j], {v})
      invariant s.db == db.(ft := FileTables(files, versions), shares := WithoutVaults(db, {v}).shares,
                            grants := WithoutVaults(db, {v}).grants)
    {
      audit := audit + [NullVault(s.db.audit[i], {v})];
    }
    s.db := s.db.(audit := audit);
    s.db := s.db.(vaults := map w | w in s.db.vaults && w !in {v} :: s.db.vaults[w]);
    assert s.db.audit == WithoutVaults(db, {v}).audit;
  }

  method DeleteVaults(s: Store, all: set<VaultId>)
    requires UniqueIds(s.db.ft.files)
    modifies s
    ensures s.db == WithoutVaults(old(s.db), all)
  {
    ghost var db := s.db;
    var vaults := all;
    DropNoVaults(db);
    while vaults != {}
      invariant vaults <= all && s.db == WithoutVaults(db, all - vaults)
      decreases |vaults|
    {
      var v :| v in vaults;
      DropMoreVaults(db, all - vaults, v);
      DeleteVault(s, v);
      MoveOver(all, vaults, v);
      vaults := vaults - {v};
    }
    assert all - vaults == all;
  }

  /** Deleting a team row, and what refers to it. */
  method DeleteTeamRow(s: Store, t: TeamId)
    requires UniqueIds(s.db.ft.files)
    modifies s
    ensures s.db == WithoutTeam(old(s.db), t)
  {
    DeleteVaults(s, VaultsOf(s.db, t));
    var tx := s.db;
    tx := tx.(members := map k | k in tx.members && k.team != t :: tx.members[k]);
    tx := tx.(invites := map token | token in tx.invites && tx.invites[token].team != t :: tx.invites[token]);
    tx := tx.(teams := tx.teams - {t});
    s.db := tx;
  }

  method HandleDeleteTeam(s: Store, c: Caller, name: string, at: int) returns (r: Option<()>)
    requires UniqueNames(s.db) && UniqueIds(s.db.ft.files)
    modifies s
    ensures var reply := DeleteTeam(old(s.db), c, name, at);
      s.db == reply.db && r == reply.answer
  {
    var found := GetTeamByName(s.db, name);
    if !ActiveAuthed(s.db, c) || name == "" || found.None? || !IsTeamAdmin(s.db, found.value, c.user) {
      return None;
    }
    DeleteTeamRow(s, found.value);
    s.db := Logged(s.db, c, None, TeamDeleted, Name(name), at);
    r := Some(());
  }

  // ---------------------------------------------------------------- what it leaves

  ghost predicate SubMap<K, V>(a: map<K, V>, b: map<K, V>) {
    forall k :: k in a ==> k in b && a[k] == b[k]
  }

  /** Each row of a is a row of b; audit rows may have forgotten their vault. */
  ghost predicate SubDb(a: Db, b: Db) {
    && SubMap(a.users, b.users) && SubMap(a.devices, b.devices) && SubMap(a.teams, b.teams)
    && SubMap(a.members, b.members) && SubMap(a.vaults, b.vaults) && a.grants <= b.grants
    && SubMap(a.shares, b.shares) && SubMap(a.ft.files, b.ft.files) && SubMap(a.ft.versions, b.ft.versions)
    && SubMap(a.invites, b.invites)
    && |a.audit| == |b.audit|
    && forall i :: 0 <= i < |a.audit| ==> a.audit[i] == b.audit[i] || a.audit[i] == b.audit[i].(vault := None)
  }

  lemma CascadeKeepsVersionRefs(db: Db, gone: set<VaultId>)
    requires VersionRefs(db.ft, db.devices)
    ensures VersionRefs(WithoutVaults(db, gone).ft, db.devices)
  {
    var db' := WithoutVaults(db, gone);
    forall vk | vk in db'.ft.versions
      ensures HasId(db'.ft.files, vk.file)
    {
      var k :| k in db.ft.files && db.ft.files[k].id == vk.file;
      assert k in db'.ft.files && db'.ft.files[k].id == vk.file;
    }
  }

  lemma CascadeKeepsForeignKeys(db: Db, t: TeamId)
    requires ForeignKeys(db)
    ensures ForeignKeys(WithoutTeam(db, t))
  {
    CascadeKeepsVersionRefs(db, VaultsOf(db, t));
  }

  lemma VersionsNeedTheirVault(db: Db, t: TeamId, other: Db, vk: VersionKey)
    requires UniqueIds(db.ft.files) && ForeignKeys(other) && SubDb(other, db) && t !in other.teams
    requires vk in other.ft.versions
    ensures vk in WithoutTeam(db, t).ft.versions
  {
    var gone := VaultsOf(db, t);
    assert HasId(other.ft.files, vk.file);
    var k :| k in other.ft.files && other.ft.files[k].id == vk.file;
    assert k.vault in other.vaults && k.vault !in gone;
    assert forall k' :: k' in db.ft.files && k'.vault in gone ==> db.ft.files[k'].id != vk.file;
  }

  lemma AuditForgets(db: Db, t: TeamId, other: Db, i: nat)
    requires ForeignKeys(other) && SubDb(other, db) && t !in other.teams && i < |db.audit|
    ensures var a := WithoutTeam(db, t).audit[i];
      other.audit[i] == a || other.audit[i] == a.(vault := None)
  {
    assert OptionIn(other.audit[i].vault, other.vaults.Keys);
    assert WithoutTeam(db, t).audit[i] == NullVault(db.audit[i], VaultsOf(db, t));
  }

  /** A database without the team in which all references resolve keeps no more than the cascade does. */
  lemma CascadeIsLargest(db: Db, t: TeamId, other: Db)
    requires UniqueIds(db.ft.files)
    requires ForeignKeys(other) && SubDb(other, db) && t !in other.teams
    ensures SubDb(other, WithoutTeam(db, t))
  {
    forall vk | vk in other.ft.versions
      ensures vk in WithoutTeam(db, t).ft.versions
    {
      VersionsNeedTheirVault(db, t, other, vk);
    }
    forall i | 0 <= i < |other.audit|
      ensures var a := WithoutTeam(db, t).audit[i];
        other.audit[i] == a || other.audit[i] == a.(vault := None)
    {
      AuditForgets(db, t, other, i);
    }
  }

  /** Deleting a team takes away exactly what must go for the references to resolve: the result is the
      largest part of the database without the team in which they do. */
  lemma DeletingATeamIsExact(db: Db, t: TeamId)
    requires ForeignKeys(db) && UniqueIds(db.ft.files)
    ensures var db' := WithoutTeam(db, t);
      && ForeignKeys(db') && SubDb(db', db) && t !in db'.teams
      && (forall other :: ForeignKeys(other) && SubDb(other, db) && t !in other.teams ==> SubDb(other, db'))
  {
    CascadeKeepsForeignKeys(db, t);
    forall other | ForeignKeys(other) && SubDb(other, db) && t !in other.teams
      ensures SubDb(other, WithoutTeam(db, t))
    {
      CascadeIsLargest(db, t, other);
    }
  }

  /** A file that stays keeps its row and all its versions. */
  lemma FileStays(db: Db, gone: set<VaultId>, k: FileKey)
    requires Valid(db.ft) && k in db.ft.files && k.vault !in gone
    ensures var id, ft' := db.ft.files[k].id, WithoutVaults(db, gone).ft;
      && k in ft'.files && ft'.files[k] == db.ft.files[k]
      && (forall v: nat :: VersionKey(id, v) in ft'.versions <==> VersionKey(id, v) in db.ft.versions)
      && (forall v: nat :: VersionKey(id, v) in ft'.versions ==>
            ft'.versions[VersionKey(id, v)] == db.ft.versions[VersionKey(id, v)])
  {
    assert forall k' :: k' in db.ft.files && k'.vault in gone ==> db.ft.files[k'].id != db.ft.files[k].id;
  }

  lemma TablesWithoutVaults(db: Db, gone: set<VaultId>)
    requires Valid(db.ft)
    ensures Valid(WithoutVaults(db, gone).ft)
  {
    var ft' := WithoutVaults(db, gone).ft;
    forall k | k in ft'.files
      ensures Numbered(ft'.files[k], ft'.versions)
    {
      assert Numbered(db.ft.files[k], db.ft.versions);
      FileStays(db, gone, k);
    }
    forall vk | vk in ft'.versions
      ensures HasId(ft'.files, vk.file)
    {
      assert HasId(db.ft.files, vk.file);
      var k :| k in db.ft.files && db.ft.files[k].id == vk.file;
      assert k in ft'.files && ft'.files[k].id == vk.file;
    }
  }

  lemma LogStays(db: Db, gone: set<VaultId>, k: FileKey)
    requires Valid(db.ft) && Valid(WithoutVaults(db, gone).ft) && k in db.ft.files && k.vault !in gone
    ensures LogOf(WithoutVaults(db, gone).ft, k) == LogOf(db.ft, k)
  {
    FileStays(db, gone, k);
    LogIs(db.ft, k);
    LogIs(WithoutVaults(db, gone).ft, k);
    assert Numbered(db.ft.files[k], db.ft.versions);
  }

  /** The logs of the vaults that stay are the same. */
  lemma LogsWithoutVaults(db: Db, gone: set<VaultId>)
    requires Valid(db.ft)
    ensures Valid(WithoutVaults(db, gone).ft)
    ensures var logs, logs' := LogsOf(db.ft), LogsOf(WithoutVaults(db, gone).ft);
      && (forall k :: k in logs' <==> k in logs && k.vault !in gone)
      && (forall k :: k in logs' ==> logs'[k] == logs[k])
  {
    TablesWithoutVaults(db, gone);
    forall k | k in db.ft.files && k.vault !in gone
      ensures LogOf(WithoutVaults(db, gone).ft, k) == LogOf(db.ft, k)
    {
      LogStays(db, gone, k);
    }
  }

  /** Every other team keeps its members, invites, vaults, grants, shares and file logs. */
  lemma OtherTeamsAreUntouched(db: Db, t: TeamId, other: TeamId)
    requires other != t && Valid(db.ft)
    ensures var db' := WithoutTeam(db, t);
      && (forall k :: k in db.members && k.team == other ==> k in db'.members && db'.members[k] == db.members[k])
      && (forall token :: token in db.invites && db.invites[token].team == other ==>
            token in db'.invites && db'.invites[token] == db.invites[token])
      && (forall v :: v in VaultsOf(db, other) ==> v in db'.vaults && db'.vaults[v] == db.vaults[v])
      && (forall g :: g in db.grants && g.vault in VaultsOf(db, other) ==> g in db'.grants)
      && (forall k :: k in db.shares && k.vault in VaultsOf(db, other) ==>
            k in db'.shares && db'.shares[k] == db.shares[k])
      && Valid(db'.ft)
      && (forall k :: k in LogsOf(db.ft) && k.vault in VaultsOf(db, other) ==>
            k in LogsOf(db'.ft) && LogsOf(db'.ft)[k] == LogsOf(db.ft)[k])
  {
    LogsWithoutVaults(db, VaultsOf(db, t));
  }

  /** A team created after another of the same name was deleted has its creator as only member, and no
      invites and no vaults, so no grants, shares or files either. */
  lemma RecreatedTeamStartsEmpty(db: Db, c: Caller, name: string, at: int, c': Caller, newTeam: TeamId, at': int)
    requires ForeignKeys(db) && newTeam !in db.teams
    requires DeleteTeam(db, c, name, at).answer.Some?
    requires CreateTeam(DeleteTeam(db, c, name, at).db, c', name, newTeam, at').answer.Some?
    ensures var db' := CreateTeam(DeleteTeam(db, c, name, at).db, c', name, newTeam, at').db;
      && TeamNamed(db', name).Some?
      && (forall k :: k in db'.members && k.team == newTeam <==> k == MemberKey(newTeam, c'.user))
      && IsTeamAdmin(db', newTeam, c'.user)
      && (forall token :: token in db'.invites ==> db'.invites[token].team != newTeam)
      && VaultsOf(db', newTeam) == {}
  {
    CascadeKeepsForeignKeys(db, TeamNamed(db, name).value);
    var db' := CreateTeam(DeleteTeam(db, c, name, at).db, c', name, newTeam, at').db;
    assert db'.teams[newTeam].name == name;
  }
}
