/** Who can change what a vault has: its grants, its key shares and its files.  The handlers of grants,
    pushes and new vaults look at the caller's grant or team; handleRevoke looks only at whether the caller
    administers the team named in the request, whichever team the vault belongs to. */
module VaultAccess {
  import opened Common
  import opened Crypto
  import opened Schema
  import opened Lookup
  import opened FileStore
  import opened VaultStore
  import opened Directory
  import opened Cascade
  import opened VaultHandlers
  import opened Revocation
  import opened Server
  import opened ServerInvariant
  import opened ServerRuns
  import VaultClient
  import KeyProtocol

  // ---------------------------------------------------------------- what a vault has

  ghost predicate SameGrants(grants: set<GrantKey>, grants': set<GrantKey>, v: VaultId) {
    forall g: GrantKey :: g.vault == v ==> (g in grants' <==> g in grants)
  }

  ghost predicate SameShares(shares: Shares, shares': Shares, v: VaultId) {
    forall k: ShareKey :: k.vault == v ==> (k in shares' <==> k in shares) && (k in shares ==> shares'[k] == shares[k])
  }

  ghost predicate SameLogs(t: FileTables, t': FileTables, v: VaultId) {
    Valid(t) && Valid(t') && forall k: FileKey :: k.vault == v ==> LogOf(t', k) == LogOf(t, k)
  }

  /** The vault is there and has the grants, shares and file logs it had. */
  ghost predicate SameVault(db: Db, db': Db, v: VaultId) {
    && v in db'.vaults && SameGrants(db.grants, db'.grants, v) && SameShares(db.shares, db'.shares, v)
    && SameLogs(db.ft, db'.ft, v)
  }

  /** The caller's device is active, and the caller has a grant of the vault or administers its team. */
  predicate Entitled(db: Db, c: Caller, v: VaultId) {
    ActiveAuthed(db, c) && v in db.vaults
    && (GrantKey(v, c.user) in db.grants || IsTeamAdmin(db, db.vaults[v].team, c.user))
  }

  predicate ByEntitled(db: Db, r: Request, v: VaultId) {
    !r.Registering? && Entitled(db, r.c, v)
  }

  predicate NamesVault(call: RevokeCall, v: VaultId) {
    call.vault == v || exists i :: 0 <= i < |call.shares| && call.shares[i].vault == Some(v)
  }

  /** A revocation for the vault, or with a share for it, that names a team which is not the vault's. */
  ghost predicate ForeignRevocation(db: Db, r: Request, v: VaultId)
    requires v in db.vaults
  {
    r.RevokingVault? && NamesVault(r.call, v) && TeamNamed(db, r.call.team) != Some(db.vaults[v].team)
  }

  // ---------------------------------------------------------------- requests for other vaults

  lemma SharesElsewhere(shares: Shares, list: seq<KeyShare>, v: VaultId)
    requires forall i :: 0 <= i < |list| ==> list[i].vault != v
    ensures SameShares(shares, InsertShares(shares, list), v)
  {
    InsertedShares(shares, list);
  }

  lemma PushElsewhere(db: Db, t: FileTables, a: PushArgs, newId: FileId, v: VaultId)
    requires Valid(t) && a.key.vault != v
    ensures SameLogs(t, AfterPush(db, t, a, newId), v)
  {
    if PushOutcome(db, t, a, newId).Accepted? {
      OnePush(db, t, a, newId);
    }
  }

  lemma {:induction false} PushesElsewhere(db: Db, pushes: seq<PushArgs>, ids: nat -> FileId, n: nat, v: VaultId)
    requires Valid(db.ft) && n <= |pushes| && forall i :: 0 <= i < |pushes| ==> pushes[i].key.vault != v
    ensures SameLogs(db.ft, Pushed(db, pushes, ids, n), v)
    decreases n
  {
    if n > 0 {
      PushesElsewhere(db, pushes, ids, n - 1, v);
      PushElsewhere(db, Pushed(db, pushes, ids, n - 1), pushes[n - 1], ids(n - 1), v);
    }
  }

  lemma OtherFilesStay(db: Db, db': Db, v: VaultId)
    requires Valid(db.ft) && db'.ft == db.ft && v in db'.vaults
    requires SameGrants(db.grants, db'.grants, v) && SameShares(db.shares, db'.shares, v)
    ensures SameVault(db, db', v)
  {
  }

  lemma CreatingElsewhere(db: Db, c: Caller, team: string, name: string, list: seq<WireShare>, newId: VaultId, at: int,
                          v: VaultId)
    requires Valid(db.ft) && v in db.vaults && newId !in db.vaults
    ensures SameVault(db, CreateVaultRequest(db, c, team, name, list, newId, at).db, v)
  {
    var db' := CreateVaultRequest(db, c, team, name, list, newId, at).db;
    SharesElsewhere(db.shares, InVault(newId, StoreShares(list, newId)), v);
    OtherFilesStay(db, db', v);
  }

  lemma GrantingElsewhere(db: Db, c: Caller, team: string, other: VaultId, username: string, list: seq<WireShare>,
                          at: int, v: VaultId)
    requires Valid(db.ft) && v in db.vaults && other != v
    ensures SameVault(db, GrantRequest(db, c, team, other, username, list, at).db, v)
  {
    var db' := GrantRequest(db, c, team, other, username, list, at).db;
    SharesElsewhere(db.shares, InVault(other, StoreShares(list, other)), v);
    OtherFilesStay(db, db', v);
  }

  lemma PushingElsewhere(db: Db, c: Caller, other: VaultId, f: FilePush, newId: FileId, at: int, v: VaultId)
    requires Valid(db.ft) && v in db.vaults && other != v
    ensures SameVault(db, PushRequest(db, c, other, f, newId, at).db, v)
  {
    PushElsewhere(db, db.ft, f.Args(other, c), newId, v);
  }

  lemma RotatingElsewhere(db1: Db, c: Caller, call: RevokeCall, ids: nat -> FileId, i: nat, v: VaultId)
    requires Valid(db1.ft) && v in db1.vaults && !NamesVault(call, v) && i <= |call.shares| + |call.files|
    ensures SameVault(db1, RotateState(db1, c, call, ids, i), v)
  {
    var list := StoreShares(call.shares, call.vault);
    SharesElsewhere(db1.shares, list[..SharesIn(call, i)], v);
    PushesElsewhere(Shared(db1, list, SharesIn(call, i)), Pushes(call.files, call.vault, c), ids, FilesIn(call, i), v);
  }

  lemma WithoutGrantElsewhere(db: Db, other: VaultId, u: UserId, v: VaultId)
    requires Valid(db.ft) && v in db.vaults && other != v
    ensures SameVault(db, WithoutGrant(db, other, u), v)
  {
  }

  lemma SameVaultTrans(db: Db, db1: Db, db2: Db, v: VaultId)
    requires SameVault(db, db1, v) && SameVault(db1, db2, v)
    ensures SameVault(db, db2, v)
  {
  }

  lemma RevokingElsewhere(db: Db, c: Caller, call: RevokeCall, ids: nat -> FileId, at: int, v: VaultId)
    requires Valid(db.ft) && v in db.vaults && !NamesVault(call, v)
    ensures SameVault(db, RevokeRequest(db, c, call, ids, at).db, v)
  {
    if MayRevoke(db, c, call) {
      var u, reach := UserNamed(db, call.username).value, RevokeReach(db, c, call, ids);
      var db1 := WithoutGrant(db, call.vault, u);
      var m := RotateState(db1, c, call, ids, reach);
      WithoutGrantElsewhere(db, call.vault, u, v);
      RotatingElsewhere(db1, c, call, ids, reach, v);
      SameVaultTrans(db, db1, m, v);
      LoggedKeepsVault(db, c, call, ids, at, m, v);
    }
  }

  lemma LoggedKeepsVault(db: Db, c: Caller, call: RevokeCall, ids: nat -> FileId, at: int, m: Db, v: VaultId)
    requires MayRevoke(db, c, call) && m == RevokeState(db, c, call, ids, RevokeReach(db, c, call, ids))
    requires SameVault(db, m, v)
    ensures SameVault(db, RevokeRequest(db, c, call, ids, at).db, v)
  {
    var db' := RevokeRequest(db, c, call, ids, at).db;
    assert db'.vaults == m.vaults && db'.grants == m.grants && db'.shares == m.shares && db'.ft == m.ft;
  }

  lemma DeletingElsewhere(db: Db, c: Caller, team: string, at: int, v: VaultId)
    requires Valid(db.ft) && v in db.vaults
      && !(TeamAdminAuthed(db, c, team) && TeamNamed(db, team) == Some(db.vaults[v].team))
    ensures SameVault(db, DeleteTeam(db, c, team, at).db, v)
  {
    if TeamAdminAuthed(db, c, team) {
      var gone := VaultsOf(db, TeamNamed(db, team).value);
      LogsWithoutVaults(db, gone);
      forall k: FileKey | k.vault == v
        ensures LogOf(WithoutVaults(db, gone).ft, k) == LogOf(db.ft, k)
      {
        assert k in LogsOf(db.ft) <==> k in LogsOf(WithoutVaults(db, gone).ft);
      }
    }
  }

  // ---------------------------------------------------------------- who changes a vault

  lemma PeopleElsewhere(db: Db, r: Request, at: int, v: VaultId)
    requires Valid(db.ft) && v in db.vaults && Fresh(db, r) && r.Directory?() && !r.DeletingTeam?
    ensures SameVault(db, Handle(db, r, at), v)
  {
    DirectoryFrame(db, r, at);
    OtherFilesStay(db, Handle(db, r, at), v);
  }

  lemma TeamsAdminIsEntitled(db: Db, c: Caller, team: string, v: VaultId)
    requires TeamAdminAuthed(db, c, team) && v in db.vaults && TeamNamed(db, team) == Some(db.vaults[v].team)
    ensures Entitled(db, c, v)
  {
  }

  lemma RevokingElsewhereOrEntitled(db: Db, c: Caller, call: RevokeCall, ids: nat -> FileId, at: int, v: VaultId)
    requires Valid(db.ft) && v in db.vaults
    requires !NamesVault(call, v) || TeamNamed(db, call.team) == Some(db.vaults[v].team)
    ensures SameVault(db, RevokeRequest(db, c, call, ids, at).db, v) || Entitled(db, c, v)
  {
    if !NamesVault(call, v) {
      RevokingElsewhere(db, c, call, ids, at, v);
    } else if MayRevoke(db, c, call) {
      TeamsAdminIsEntitled(db, c, call.team, v);
    }
  }

  lemma OutsidersGrantNothing(db: Db, c: Caller, team: string, v: VaultId, username: string, list: seq<WireShare>,
                              at: int)
    requires Valid(db.ft) && v in db.vaults && !Entitled(db, c, v)
    ensures SameVault(db, GrantRequest(db, c, team, v, username, list, at).db, v)
  {
    assert GrantRequest(db, c, team, v, username, list, at).db == db;
  }

  lemma OutsidersPushNothing(db: Db, c: Caller, v: VaultId, f: FilePush, newId: FileId, at: int)
    requires Valid(db.ft) && v in db.vaults && !Entitled(db, c, v)
    ensures SameVault(db, PushRequest(db, c, v, f, newId, at).db, v)
  {
    assert PushRequest(db, c, v, f, newId, at).db == db;
  }

  lemma OutsidersDeleteNothing(db: Db, c: Caller, team: string, at: int, v: VaultId)
    requires Valid(db.ft) && v in db.vaults && !Entitled(db, c, v)
    ensures SameVault(db, DeleteTeam(db, c, team, at).db, v)
  {
    DeletingElsewhere(db, c, team, at, v);
  }

  /** What a vault has changes only by requests of those with a grant or of admins of its team, and by
      revocations that name another team. */
  lemma OnlyTheEntitledOrForeign(db: Db, r: Request, at: int, v: VaultId)
    requires ServerInv(db) && Fresh(db, r) && v in db.vaults
    ensures SameVault(db, Handle(db, r, at), v) || ByEntitled(db, r, v) || ForeignRevocation(db, r, v)
  {
    if !ByEntitled(db, r, v) && !ForeignRevocation(db, r, v) {
      match r
      case CreatingVault(c, team, name, shares, newVault) =>
        CreatingElsewhere(db, c, team, name, shares, newVault, at, v);
      case GrantingVault(c, team, vault, username, shares) =>
        if vault != v {
          GrantingElsewhere(db, c, team, vault, username, shares, at, v);
        } else {
          OutsidersGrantNothing(db, c, team, v, username, shares, at);
        }
      case Pushing(c, vault, file, newFile) =>
        if vault != v {
          PushingElsewhere(db, c, vault, file, newFile, at, v);
        } else {
          OutsidersPushNothing(db, c, v, file, newFile, at);
        }
      case RevokingVault(c, call, newFiles) => RevokingElsewhereOrEntitled(db, c, call, newFiles, at, v);
      case DeletingTeam(c, team) => OutsidersDeleteNothing(db, c, team, at, v);
      case _ => PeopleElsewhere(db, r, at, v);
    }
  }

  /** A share of no version in use. */
  ghost function UnusedVersion(shares: Shares): (kv: int)
    ensures forall k :: k in shares ==> k.keyVersion < kv
  {
    if shares == map[] then 0
    else
      assert shares.Keys != {};
      VaultClient.Highest(shares.Keys).keyVersion + 1
  }

  /** A revocation with which any admin of any team changes what the vault has. */
  ghost function ForeignCall(db: Db, c: Caller, team: string, v: VaultId): RevokeCall
    requires c.user in db.users
  {
    RevokeCall(v, db.users[c.user].username, team,
               [WireShare(None, c.device, UnusedVersion(db.shares), NotABox([]))], [])
  }

  lemma ForeignCallAdds(db: Db, c: Caller, team: string, ids: nat -> FileId, v: VaultId, k: ShareKey)
    requires v in db.vaults && c.user in db.users && c.device in db.devices
      && MayRevoke(db, c, ForeignCall(db, c, team, v))
    requires k == ShareKey(v, c.device, UnusedVersion(db.shares))
    ensures var call := ForeignCall(db, c, team, v);
      RevokeReach(db, c, call, ids) == 1 && k in RevokeState(db, c, call, ids, 1).shares
  {
    var call := ForeignCall(db, c, team, v);
    var db1, list := WithoutGrant(db, v, UserNamed(db, call.username).value), StoreShares(call.shares, v);
    assert list == [ToStore(call.shares[0], v)] && list[..1] == list;
    PrefixOfReferable(db1, list, 1);
    InsertedShares(db1.shares, list);
    assert list[0].Key() == k;
  }

  lemma ForeignCallChanges(db: Db, c: Caller, team: string, ids: nat -> FileId, at: int, v: VaultId)
    requires ServerInv(db) && v in db.vaults && TeamAdminAuthed(db, c, team)
    ensures !SameVault(db, RevokeRequest(db, c, ForeignCall(db, c, team, v), ids, at).db, v)
  {
    var call, k := ForeignCall(db, c, team, v), ShareKey(v, c.device, UnusedVersion(db.shares));
    assert MayRevoke(db, c, call);
    ForeignCallAdds(db, c, team, ids, v, k);
    KeyProtocol.RevokedLast(db, c, call, ids, at);
    assert k.vault == v && k !in db.shares;
  }

  /** Only those with a grant and admins of its team can change what a vault has if and only if no other
      active user administers any team. */
  lemma OnlyTheEntitledIff(db: Db, v: VaultId)
    requires ServerInv(db) && v in db.vaults
    ensures (forall r, at :: Fresh(db, r) && !SameVault(db, Handle(db, r, at), v) ==> ByEntitled(db, r, v))
      <==> (forall c, team :: TeamAdminAuthed(db, c, team) ==> Entitled(db, c, v))
  {
    if forall c, team :: TeamAdminAuthed(db, c, team) ==> Entitled(db, c, v) {
      forall r, at | Fresh(db, r) && !SameVault(db, Handle(db, r, at), v)
        ensures ByEntitled(db, r, v)
      {
        OnlyTheEntitledOrForeign(db, r, at, v);
        assert r.RevokingVault? ==> MayRevoke(db, r.c, r.call);
      }
    } else {
      var c, team :| TeamAdminAuthed(db, c, team) && !Entitled(db, c, v);
      var r := RevokingVault(c, ForeignCall(db, c, team, v), _ => 0);
      ForeignCallChanges(db, c, team, _ => 0, 0, v);
      assert Fresh(db, r) && !SameVault(db, Handle(db, r, 0), v) && !ByEntitled(db, r, v);
    }
  }

  lemma RevokedGrants(db: Db, c: Caller, call: RevokeCall, ids: nat -> FileId, at: int)
    requires MayRevoke(db, c, call)
    ensures RevokeRequest(db, c, call, ids, at).db.grants ==
      db.grants - {GrantKey(call.vault, UserNamed(db, call.username).value)}
  {
  }

  lemma AdminRevokes(db: Db, c: Caller, team: string, u: UserId, v: VaultId, ids: nat -> FileId, at: int)
    requires ServerInv(db) && TeamAdminAuthed(db, c, team) && v in db.vaults && u in db.users
    ensures Handle(db, RevokingVault(c, RevokeCall(v, db.users[u].username, team, [], []), ids), at).grants ==
      db.grants - {GrantKey(v, u)}
  {
    assert UserNamed(db, db.users[u].username) == Some(u);
    RevokedGrants(db, c, RevokeCall(v, db.users[u].username, team, [], []), ids, at);
  }

  lemma NewAdminIsNotEntitled(db: Db, c: Caller, name: string, t: TeamId, at: int, v: VaultId)
    requires ServerInv(db) && v in db.vaults && !Entitled(db, c, v) && t !in db.teams
    ensures !Entitled(CreateTeam(db, c, name, t, at).db, c, v)
  {
    assert db.vaults[v].team in db.teams;
  }

  lemma WithATeam(db: Db, c: Caller, name: string, t: TeamId, at: int, db1: Db)
    requires ServerInv(db) && ActiveAuthed(db, c)
    requires name != "" && TeamNamed(db, name).None? && t !in db.teams && db1 == CreateTeam(db, c, name, t, at).db
    ensures TeamAdminAuthed(db1, c, name) && db1.users == db.users && VaultsStay(db, db1)
  {
    CreatorAdministers(db, c, name, t, at, db1);
    CreatingTeamFrame(db, c, name, t, at);
  }

  /** Since any active user may create a team, there soon is such a user: of anybody without a grant who is
      no admin of the vault's team, two requests suffice to take a grant away. */
  lemma AnotherTeamsAdminRevokes(db: Db, c: Caller, name: string, t: TeamId, u: UserId, v: VaultId, ids: nat -> FileId,
                                 at: int, db1: Db, db2: Db)
    requires ServerInv(db) && ActiveAuthed(db, c) && v in db.vaults && !Entitled(db, c, v) && u in db.users
    requires name != "" && TeamNamed(db, name).None? && t !in db.teams
    requires db1 == Handle(db, CreatingTeam(c, name, t), at)
    requires db2 == Handle(db1, RevokingVault(c, RevokeCall(v, db.users[u].username, name, [], []), ids), at)
    ensures VaultsStay(db, db1) && !Entitled(db1, c, v) && db2.grants == db.grants - {GrantKey(v, u)}
  {
    RequestKeepsServerInv(db, CreatingTeam(c, name, t), at);
    WithATeam(db, c, name, t, at, db1);
    NewAdminIsNotEntitled(db, c, name, t, at, v);
    AdminRevokes(db1, c, name, u, v, ids, at);
  }

  // ---------------------------------------------------------------- who extends a vault's grants

  /** A user has a grant of the vault who had none. */
  ghost predicate Extended(grants: set<GrantKey>, grants': set<GrantKey>, v: VaultId) {
    exists u :: GrantKey(v, u) in grants' && GrantKey(v, u) !in grants
  }

  predicate ByAdminOf(db: Db, r: Request, v: VaultId)
    requires v in db.vaults
  {
    !r.Registering? && IsTeamAdmin(db, db.vaults[v].team, r.c.user)
  }

  /** A grant of the vault by an admin of some team with a grant, to a user who has none. */
  ghost predicate Grants(db: Db, r: Request, v: VaultId) {
    && r.GrantingVault? && r.vault == v && TeamAdminAuthed(db, r.c, r.team) && GrantKey(v, r.c.user) in db.grants
    && UserNamed(db, r.username).Some? && GrantKey(v, UserNamed(db, r.username).value) !in db.grants
  }

  lemma GrantedGrants(db: Db, c: Caller, team: string, v: VaultId, username: string, list: seq<WireShare>, at: int)
    ensures var grants' := GrantRequest(db, c, team, v, username, list, at).db.grants;
      || grants' == db.grants
      || (&& TeamAdminAuthed(db, c, team) && GrantKey(v, c.user) in db.grants && UserNamed(db, username).Some?
          && grants' == db.grants + {GrantKey(v, UserNamed(db, username).value)})
  {
  }

  lemma CreatedGrants(db: Db, c: Caller, team: string, name: string, list: seq<WireShare>, newId: VaultId, at: int)
    ensures CreateVaultRequest(db, c, team, name, list, newId, at).db.grants <= db.grants + {GrantKey(newId, c.user)}
  {
  }

  lemma PeoplesGrants(db: Db, r: Request, at: int)
    requires r.Directory?() && !r.DeletingTeam? && Fresh(db, r)
    ensures Handle(db, r, at).grants == db.grants
  {
    DirectoryFrame(db, r, at);
  }

  lemma PushedGrants(db: Db, c: Caller, v: VaultId, f: FilePush, newId: FileId, at: int)
    ensures PushRequest(db, c, v, f, newId, at).db.grants == db.grants
  {
  }

  lemma DeletedGrants(db: Db, c: Caller, team: string, at: int)
    ensures DeleteTeam(db, c, team, at).db.grants <= db.grants
  {
  }

  /** Only such a grant extends the vault's grants. */
  lemma OnlyGrantsExtend(db: Db, r: Request, at: int, v: VaultId)
    requires Fresh(db, r) && v in db.vaults && Extended(db.grants, Handle(db, r, at).grants, v)
    ensures Grants(db, r, v)
  {
    match r
    case CreatingVault(c, team, name, shares, newVault) =>
      CreatedGrants(db, c, team, name, shares, newVault, at);
    case GrantingVault(c, team, vault, username, shares) =>
      GrantedGrants(db, c, team, vault, username, shares, at);
    case Pushing(c, vault, file, newFile) => PushedGrants(db, c, vault, file, newFile, at);
    case RevokingVault(c, call, newFiles) =>
      if MayRevoke(db, c, call) {
        RevokedGrants(db, c, call, newFiles, at);
      }
    case DeletingTeam(c, team) => DeletedGrants(db, c, team, at);
    case _ => PeoplesGrants(db, r, at);
  }

  lemma EmptyGrantGoesIn(db: Db, v: VaultId, u: UserId)
    requires v in db.vaults && u in db.users
    ensures var granted := GrantInserted(db, v, u, StoreShares([], v));
      granted.Some? && granted.value.grants == db.grants + {GrantKey(v, u)}
  {
    assert InVault(v, StoreShares([], v)) == [];
  }

  lemma EmptyGrantRequest(db: Db, c: Caller, team: string, username: string, v: VaultId, at: int)
    requires TeamAdminAuthed(db, c, team) && HasAccess(db, v, c.user) && username != "" && UserNamed(db, username).Some?
    ensures GrantRequest(db, c, team, v, username, [], at).db.grants ==
      db.grants + {GrantKey(v, UserNamed(db, username).value)}
  {
    EmptyGrantGoesIn(db, v, UserNamed(db, username).value);
  }

  lemma EmptyGrant(db: Db, c: Caller, team: string, u: UserId, v: VaultId, at: int)
    requires ServerInv(db) && TeamAdminAuthed(db, c, team) && v in db.vaults && u in db.users
    requires GrantKey(v, c.user) in db.grants
    ensures Handle(db, GrantingVault(c, team, v, db.users[u].username, []), at).grants == db.grants + {GrantKey(v, u)}
  {
    assert UserNamed(db, db.users[u].username) == Some(u);
    EmptyGrantRequest(db, c, team, db.users[u].username, v, at);
  }

  /** Everybody has a grant of the vault. */
  predicate AllHaveGrants(db: Db, v: VaultId) {
    forall u :: u in db.users ==> GrantKey(v, u) in db.grants
  }

  /** Every active admin of a team with a grant of the vault administers the vault's team. */
  ghost predicate HoldersAreItsAdmins(db: Db, v: VaultId)
    requires v in db.vaults
  {
    forall c, team :: TeamAdminAuthed(db, c, team) && GrantKey(v, c.user) in db.grants ==>
      IsTeamAdmin(db, db.vaults[v].team, c.user)
  }

  /** Only admins of a vault's team can extend its grants if and only if nobody is without one or no other
      holder of one administers any team. */
  lemma OnlyAdminsExtendIff(db: Db, v: VaultId)
    requires ServerInv(db) && v in db.vaults
    ensures (forall r, at :: Fresh(db, r) && Extended(db.grants, Handle(db, r, at).grants, v) ==> ByAdminOf(db, r, v))
      <==> AllHaveGrants(db, v) || HoldersAreItsAdmins(db, v)
  {
    if AllHaveGrants(db, v) || HoldersAreItsAdmins(db, v) {
      forall r, at | Fresh(db, r) && Extended(db.grants, Handle(db, r, at).grants, v)
        ensures ByAdminOf(db, r, v)
      {
        OnlyGrantsExtend(db, r, at, v);
      }
    } else {
      var u :| u in db.users && GrantKey(v, u) !in db.grants;
      var c, team :| TeamAdminAuthed(db, c, team) && GrantKey(v, c.user) in db.grants
                     && !IsTeamAdmin(db, db.vaults[v].team, c.user);
      var r := GrantingVault(c, team, v, db.users[u].username, []);
      EmptyGrant(db, c, team, u, v, 0);
      assert GrantKey(v, u) in Handle(db, r, 0).grants;
      assert Fresh(db, r) && Extended(db.grants, Handle(db, r, 0).grants, v) && !ByAdminOf(db, r, v);
    }
  }

  lemma NoAdminOfOldTeams(db: Db, c: Caller, name: string, t: TeamId, at: int, t0: TeamId)
    requires t0 in db.teams && t !in db.teams && !IsTeamAdmin(db, t0, c.user)
    ensures !IsTeamAdmin(CreateTeam(db, c, name, t, at).db, t0, c.user)
  {
  }

  /** With a team of their own, which any active user may create, a holder of a plain grant, who is no admin
      of the vault's team, grants the vault onward, without any share. */
  lemma HolderGrantsOnward(db: Db, c: Caller, name: string, t: TeamId, u: UserId, v: VaultId, at: int, db1: Db, db2: Db)
    requires ServerInv(db) && ActiveAuthed(db, c) && v in db.vaults && GrantKey(v, c.user) in db.grants
    requires !IsTeamAdmin(db, db.vaults[v].team, c.user) && u in db.users
    requires name != "" && TeamNamed(db, name).None? && t !in db.teams
    requires db1 == Handle(db, CreatingTeam(c, name, t), at)
    requires db2 == Handle(db1, GrantingVault(c, name, v, db.users[u].username, []), at)
    ensures VaultsStay(db, db1) && !IsTeamAdmin(db1, db.vaults[v].team, c.user)
    ensures db2.grants == db.grants + {GrantKey(v, u)}
  {
    RequestKeepsServerInv(db, CreatingTeam(c, name, t), at);
    WithATeam(db, c, name, t, at, db1);
    assert db.vaults[v].team in db.teams;
    NoAdminOfOldTeams(db, c, name, t, at, db.vaults[v].team);
    EmptyGrant(db1, c, name, u, v, at);
  }
}
