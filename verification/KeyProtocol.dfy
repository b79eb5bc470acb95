/** The key protocol of vaults: what the client actions, run one at a time, keep true of keys, shares
    and ciphertexts, and what goes wrong where they do not keep it. */
module KeyProtocol {
  import opened Common
  import opened Crypto
  import opened Schema
  import opened Lookup
  import opened Guards
  import opened FileStore
  import opened VaultStore
  import opened Directory
  import opened VaultHandlers
  import opened VaultClient
  import opened Server
  import opened Cascade
  import opened Revocation

  /** The key a vault's key version names, recorded when the key is made. */
  datatype KeyName = KeyName(vault: VaultId, version: int)
  type KeyBook = map<KeyName, VaultKey>

  // ---------------------------------------------------------------- the invariant

  /** A share is of a device whose owner has a grant, and seals the key its version names to the device. */
  predicate ShareOk(devices: map<DeviceId, DeviceRow>, grants: set<GrantKey>, keys: KeyBook, k: ShareKey,
                    sealed: Sealed) {
    && k.device in devices && GrantKey(k.vault, devices[k.device].user) in grants
    && KeyName(k.vault, k.keyVersion) in keys
    && sealed == SealVaultKey(keys[KeyName(k.vault, k.keyVersion)], devices[k.device].boxPub)
  }

  ghost predicate SharesOk(db: Db, keys: KeyBook) {
    forall k {:trigger ShareOk(db.devices, db.grants, keys, k, db.shares[k])} :: k in db.shares ==>
      ShareOk(db.devices, db.grants, keys, k, db.shares[k])
  }

  /** A stored version is encrypted under the key its key version names. */
  predicate RowOk(keys: KeyBook, v: VaultId, row: VersionRow) {
    KeyName(v, row.keyVersion) in keys && row.blob.SecretBox? && row.blob.key == keys[KeyName(v, row.keyVersion)]
  }

  predicate LogOk(keys: KeyBook, v: VaultId, log: Log) {
    forall i {:trigger RowOk(keys, v, log[i])} :: 0 <= i < |log| ==> RowOk(keys, v, log[i])
  }

  ghost predicate FilesOk(t: FileTables, keys: KeyBook) {
    Valid(t) && forall k: FileKey :: LogOk(keys, k.vault, LogOf(t, k))
  }

  /** Different versions, of one vault or of two, name different keys, and versions count from 1. */
  predicate OneNamePerKey(keys: KeyBook) {
    && (forall n, n' :: n in keys && n' in keys && keys[n] == keys[n'] ==> n == n')
    && (forall n :: n in keys ==> n.version >= 1)
  }

  /** A key no version names. */
  predicate IsNew(keys: KeyBook, key: VaultKey) {
    forall n :: n in keys ==> keys[n] != key
  }

  ghost predicate KeyInv(db: Db, keys: KeyBook) {
    SharesOk(db, keys) && FilesOk(db.ft, keys) && OneNamePerKey(keys)
  }

  /** The session has the key pair its device was registered with. */
  predicate OwnBox(db: Db, ses: Session) {
    ses.caller.device in db.devices && db.devices[ses.caller.device].boxPub == ses.box
  }

  // ---------------------------------------------------------------- what follows from it

  /** A session can open every share of its device, and what it fetches is the key of its highest share. */
  lemma HeldIsTheKey(db: Db, keys: KeyBook, v: VaultId, ses: Session)
    requires KeyInv(db, keys) && OwnBox(db, ses)
    ensures forall kv :: ShareKey(v, ses.caller.device, kv) in db.shares ==>
              KeyName(v, kv) in keys && Opened(db.shares, v, ses, kv) == Some(keys[KeyName(v, kv)])
    ensures var h := Held(db.shares, v, ses);
      && (h.Some? ==> KeyName(v, h.value.version) in keys && keys[KeyName(v, h.value.version)] == h.value.key)
      && (h.None? <==> forall kv :: ShareKey(v, ses.caller.device, kv) !in db.shares)
  {
    forall kv | ShareKey(v, ses.caller.device, kv) in db.shares
      ensures KeyName(v, kv) in keys && kv >= 1 && Opened(db.shares, v, ses, kv) == Some(keys[KeyName(v, kv)])
    {
      assert ShareOk(db.devices, db.grants, keys, ShareKey(v, ses.caller.device, kv),
                     db.shares[ShareKey(v, ses.caller.device, kv)]);
    }
  }

  /** A session fetches a key exactly if its device is active, its user has a grant, and the device has a
      share; it is the key of the highest version of its shares. */
  lemma FetchesIff(db: Db, keys: KeyBook, v: VaultId, ses: Session)
    requires KeyInv(db, keys) && OwnBox(db, ses)
    ensures var held := Fetched(db, v, ses);
      && (held.Some? <==>
            FromHolder(db, ses.caller, v) && exists kv :: ShareKey(v, ses.caller.device, kv) in db.shares)
      && (held.Some? ==>
            && KeyName(v, held.value.version) in keys && held.value.key == keys[KeyName(v, held.value.version)]
            && ShareKey(v, ses.caller.device, held.value.version) in db.shares
            && forall kv :: ShareKey(v, ses.caller.device, kv) in db.shares ==> kv <= held.value.version)
  {
    HeldIsTheKey(db, keys, v, ses);
  }

  /** Checking a stored version out succeeds exactly if its key version is that of the device's highest
      share; older keys the device still has shares of are not tried. */
  lemma CheckoutDecryptsIff(db: Db, keys: KeyBook, v: VaultId, ses: Session, path: string, version: int)
    requires KeyInv(db, keys) && OwnBox(db, ses)
    requires Fetched(db, v, ses).Some? && PulledRow(db, v, ses, path, version).Some?
    ensures var row, r := PulledRow(db, v, ses, path, version).value, CheckoutAction(db, v, ses, path, version);
      && (r.Some? <==> row.keyVersion == Fetched(db, v, ses).value.version)
      && (r.Some? ==> r == Enclosed(row.blob))
  {
    HeldIsTheKey(db, keys, v, ses);
    assert LogOk(keys, FileKey(v, path).vault, LogOf(db.ft, FileKey(v, path)));
    PickedRowIsOk(keys, v, LogOf(db.ft, FileKey(v, path)), version);
  }

  lemma PickedRowIsOk(keys: KeyBook, v: VaultId, log: Log, version: int)
    requires LogOk(keys, v, log) && VersionOf(log, version).Some?
    ensures RowOk(keys, v, VersionOf(log, version).value)
  {
    assert RowOk(keys, v, log[if version == 0 then |log| - 1 else version - 1]);
  }

  /** So does pulling, if the file is not deleted. */
  lemma PullDecryptsIff(db: Db, keys: KeyBook, v: VaultId, ses: Session, path: string)
    requires KeyInv(db, keys) && OwnBox(db, ses)
    requires Fetched(db, v, ses).Some? && PulledRow(db, v, ses, path, 0).Some?
    ensures var row, r := PulledRow(db, v, ses, path, 0).value, PullAction(db, v, ses, path);
      && (r.Some? <==> !row.deleted && row.keyVersion == Fetched(db, v, ses).value.version)
      && (r.Some? ==> r == Enclosed(row.blob))
  {
    CheckoutDecryptsIff(db, keys, v, ses, path, 0);
  }

  /** A rotation can be put together exactly if every live file has a name to ask for and its latest
      version is under the key of the rotating device's highest share. */
  lemma RebuildableIff(db: Db, keys: KeyBook, v: VaultId, ses: Session)
    requires KeyInv(db, keys) && OwnBox(db, ses) && Fetched(db, v, ses).Some?
    ensures var held := Fetched(db, v, ses).value;
      Rebuildable(db.ft, v, held.key) <==>
        forall path :: Live(LogOf(db.ft, FileKey(v, path))) ==>
          path != "" && LogOf(db.ft, FileKey(v, path))[|LogOf(db.ft, FileKey(v, path))| - 1].keyVersion == held.version
  {
    HeldIsTheKey(db, keys, v, ses);
    var held := Fetched(db, v, ses).value;
    forall path | Live(LogOf(db.ft, FileKey(v, path)))
      ensures var row := LogOf(db.ft, FileKey(v, path))[|LogOf(db.ft, FileKey(v, path))| - 1];
        DecryptBlob(held.key, row.blob).Some? <==> row.keyVersion == held.version
    {
      var log := LogOf(db.ft, FileKey(v, path));
      assert LogOk(keys, FileKey(v, path).vault, log);
      assert RowOk(keys, v, log[|log| - 1]);
    }
  }

  // ---------------------------------------------------------------- steps that touch no key

  lemma SharesStayOk(db: Db, db': Db, keys: KeyBook, keys': KeyBook)
    requires SharesOk(db, keys) && DevicesStay(db, db') && SubMap(keys, keys')
    requires forall k :: k in db'.shares ==> k in db.shares && db'.shares[k] == db.shares[k]
    requires forall k :: k in db'.shares && k.device in db.devices ==>
               GrantKey(k.vault, db.devices[k.device].user) in db.grants ==>
                 GrantKey(k.vault, db.devices[k.device].user) in db'.grants
    ensures SharesOk(db', keys')
  {
    forall k | k in db'.shares
      ensures ShareOk(db'.devices, db'.grants, keys', k, db'.shares[k])
    {
      assert ShareOk(db.devices, db.grants, keys, k, db.shares[k]);
    }
  }

  lemma FilesStayOk(t: FileTables, t': FileTables, keys: KeyBook, keys': KeyBook)
    requires FilesOk(t, keys) && Valid(t') && SubMap(keys, keys')
    requires forall k: FileKey :: LogOf(t', k) == LogOf(t, k) || LogOf(t', k) == []
    ensures FilesOk(t', keys')
  {
    forall k: FileKey
      ensures LogOk(keys', k.vault, LogOf(t', k))
    {
      assert LogOk(keys, k.vault, LogOf(t, k));
      assert forall i :: 0 <= i < |LogOf(t, k)| ==> RowOk(keys, k.vault, LogOf(t, k)[i]);
    }
  }

  lemma DeletingKeepsKeys(db: Db, t: TeamId, keys: KeyBook)
    requires KeyInv(db, keys)
    ensures KeyInv(WithoutTeam(db, t), keys)
  {
    var db' := WithoutTeam(db, t);
    LogsWithoutVaults(db, VaultsOf(db, t));
    forall k: FileKey
      ensures LogOf(db'.ft, k) == LogOf(db.ft, k) || LogOf(db'.ft, k) == []
    {
      assert k in LogsOf(db'.ft) ==> LogsOf(db'.ft)[k] == LogsOf(db.ft)[k];
    }
    FilesStayOk(db.ft, db'.ft, keys, keys);
    SharesStayOk(db, db', keys, keys);
  }

  /** No request outside of vaults and files touches the invariant. */
  lemma DirectoryKeepsKeys(db: Db, r: Request, at: int, keys: KeyBook)
    requires KeyInv(db, keys) && r.Directory?() && Fresh(db, r)
    ensures KeyInv(Handle(db, r, at), keys)
  {
    if !r.DeletingTeam? {
      DirectoryFrame(db, r, at);
      SharesStayOk(db, Handle(db, r, at), keys, keys);
    } else if TeamAdminAuthed(db, r.c, r.team) {
      var db1 := WithoutTeam(db, TeamNamed(db, r.team).value);
      DeletingKeepsKeys(db, TeamNamed(db, r.team).value, keys);
      SharesStayOk(db1, Handle(db, r, at), keys, keys);
    }
  }

  // ---------------------------------------------------------------- creating and granting

  lemma SealedShareIsOk(db: Db, keys: KeyBook, u: UserId, v: VaultId, kv: int, sh: WireShare)
    requires KeyName(v, kv) in keys && SealsTo(db, u, keys[KeyName(v, kv)], kv, sh) && GrantKey(v, u) in db.grants
    ensures ToStore(sh, v).vault == v && ShareOk(db.devices, db.grants, keys, ToStore(sh, v).Key(), sh.sealed)
  {
  }

  /** Adding shares of one user's devices under a version's key keeps the shares right; where a share
      was there already it is the same one, so that ON CONFLICT DO NOTHING drops nothing. */
  lemma AddedSharesOk(db: Db, keys: KeyBook, u: UserId, v: VaultId, kv: int, list: seq<WireShare>, n: nat)
    requires SharesOk(db, keys) && KeyName(v, kv) in keys && GrantKey(v, u) in db.grants && n <= |list|
    requires forall i :: 0 <= i < |list| ==> SealsTo(db, u, keys[KeyName(v, kv)], kv, list[i])
    ensures var shares := InsertShares(db.shares, StoreShares(list, v)[..n]);
      && (forall k :: k in shares ==> ShareOk(db.devices, db.grants, keys, k, shares[k]))
      && (forall i :: 0 <= i < n ==>
            ShareKey(v, list[i].device, kv) in shares && shares[ShareKey(v, list[i].device, kv)] == list[i].sealed)
  {
    var stored := StoreShares(list, v)[..n];
    var shares := InsertShares(db.shares, stored);
    InsertedShares(db.shares, stored);
    forall k | k in shares
      ensures ShareOk(db.devices, db.grants, keys, k, shares[k])
    {
      if k !in db.shares {
        var i :| 0 <= i < |stored| && stored[i].Key() == k && stored[i].sealed == shares[k];
        SealedShareIsOk(db, keys, u, v, kv, list[i]);
      }
    }
    forall i | 0 <= i < n
      ensures ShareKey(v, list[i].device, kv) in shares && shares[ShareKey(v, list[i].device, kv)] == list[i].sealed
    {
      assert stored[i].Key() in Keys(stored);
      SealedShareIsOk(db, keys, u, v, kv, list[i]);
      assert ShareOk(db.devices, db.grants, keys, ShareKey(v, list[i].device, kv),
                     shares[ShareKey(v, list[i].device, kv)]);
    }
  }

  lemma AlreadyInVault(list: seq<WireShare>, v: VaultId)
    requires forall i :: 0 <= i < |list| ==> list[i].vault.None?
    ensures InVault(v, StoreShares(list, v)) == StoreShares(list, v)[..|list|]
  {
  }

  /** What a grant that goes through leaves in the tables the invariant speaks of. */
  lemma GrantedTables(db: Db, c: Caller, team: string, v: VaultId, username: string, list: seq<WireShare>, at: int)
    requires forall i :: 0 <= i < |list| ==> list[i].vault.None?
    requires GrantRequest(db, c, team, v, username, list, at).answer.Some?
    ensures var db' := GrantRequest(db, c, team, v, username, list, at).db;
      && db'.vaults == db.vaults && db'.devices == db.devices && db'.ft == db.ft && UserNamed(db, username).Some?
      && db'.grants == db.grants + {GrantKey(v, UserNamed(db, username).value)}
      && db'.shares == InsertShares(db.shares, StoreShares(list, v)[..|list|])
  {
    AlreadyInVault(list, v);
  }

  lemma GrantingKeepsKeys(db: Db, keys: KeyBook, ses: Session, team: string, v: VaultId, username: string,
                          list: seq<WireShare>, at: int)
    requires KeyInv(db, keys) && OwnBox(db, ses) && Granting(db, ses, v, username, list)
    ensures KeyInv(GrantRequest(db, ses.caller, team, v, username, list, at).db, keys)
  {
    var reply := GrantRequest(db, ses.caller, team, v, username, list, at);
    if reply.answer.Some? {
      var u, held := UserNamed(db, username).value, Fetched(db, v, ses).value;
      HeldIsTheKey(db, keys, v, ses);
      GrantedTables(db, ses.caller, team, v, username, list, at);
      var db1 := reply.db.(shares := db.shares);
      SharesStayOk(db, db1, keys, keys);
      AddedSharesOk(db1, keys, u, v, held.version, list, |list|);
    }
  }

  /** After a grant each active device of the grantee fetches the granter's key, unless it already had a
      share of a higher version. */
  lemma GrantDeliversIff(db: Db, keys: KeyBook, ses: Session, team: string, v: VaultId, username: string,
                         list: seq<WireShare>, at: int, ses': Session)
    requires KeyInv(db, keys) && OwnBox(db, ses) && Granting(db, ses, v, username, list)
    requires GrantRequest(db, ses.caller, team, v, username, list, at).answer.Some?
    requires OwnBox(db, ses') && ActiveAuthed(db, ses'.caller) && ses'.caller.user == UserNamed(db, username).value
    ensures Fetched(GrantRequest(db, ses.caller, team, v, username, list, at).db, v, ses') == Fetched(db, v, ses)
      <==> forall kv :: ShareKey(v, ses'.caller.device, kv) in db.shares ==> kv <= Fetched(db, v, ses).value.version
  {
    var db' := GrantRequest(db, ses.caller, team, v, username, list, at).db;
    var u, held := UserNamed(db, username).value, Fetched(db, v, ses).value;
    GrantedTables(db, ses.caller, team, v, username, list, at);
    GrantingKeepsKeys(db, keys, ses, team, v, username, list, at);
    HeldIsTheKey(db, keys, v, ses);
    HeldIsTheKey(db', keys, v, ses');
    ShareArrives(db, list, v, held.version, u, held.key, ses'.caller.device);
    SharesBefore(db, list, v, held.version);
    assert BelongsTo(db, ses'.caller.device, u);
  }

  /** The shares of a device after the insertion are those before and perhaps one at kv. */
  lemma SharesBefore(db: Db, list: seq<WireShare>, v: VaultId, kv: int)
    requires forall i :: 0 <= i < |list| ==> list[i].vault.None? && list[i].keyVersion == kv
    ensures var shares := InsertShares(db.shares, StoreShares(list, v)[..|list|]);
      && (forall k :: k in db.shares ==> k in shares)
      && (forall k :: k in shares && k !in db.shares ==> k.vault == v && k.keyVersion == kv)
  {
    InsertedShares(db.shares, StoreShares(list, v)[..|list|]);
  }

  lemma ShareArrives(db: Db, list: seq<WireShare>, v: VaultId, kv: int, u: UserId, key: VaultKey, d: DeviceId)
    requires SealsToActive(db, u, key, kv, list) && BelongsTo(db, d, u) && db.devices[d].status == ActiveDevice
    ensures ShareKey(v, d, kv) in InsertShares(db.shares, StoreShares(list, v)[..|list|])
  {
    var stored := StoreShares(list, v)[..|list|];
    InsertedShares(db.shares, stored);
    var i :| 0 <= i < |list| && list[i].device == d;
    assert SealsTo(db, u, key, kv, list[i]);
    assert stored[i].Key() == ShareKey(v, d, kv);
    assert stored[i].Key() in Keys(stored);
  }

  lemma CreatedTables(db: Db, c: Caller, team: string, name: string, list: seq<WireShare>, newId: VaultId, at: int)
    requires forall i :: 0 <= i < |list| ==> list[i].vault.None?
    requires CreateVaultRequest(db, c, team, name, list, newId, at).answer.Some?
    ensures var db' := CreateVaultRequest(db, c, team, name, list, newId, at).db;
      && db'.devices == db.devices && db'.ft == db.ft
      && db'.grants == db.grants + {GrantKey(newId, c.user)}
      && db'.shares == InsertShares(db.shares, StoreShares(list, newId)[..|list|])
  {
    AlreadyInVault(list, newId);
  }

  /** A new vault's first key gets a name of its own. */
  lemma CreatingKeepsKeys(db: Db, keys: KeyBook, c: Caller, team: string, name: string, newKey: VaultKey,
                          list: seq<WireShare>, newId: VaultId, at: int)
    requires KeyInv(db, keys) && SealsToActive(db, c.user, newKey, 1, list)
    requires IsNew(keys, newKey) && forall n :: n in keys ==> n.vault != newId
    ensures var reply := CreateVaultRequest(db, c, team, name, list, newId, at);
      KeyInv(reply.db, if reply.answer.Some? then keys[KeyName(newId, 1) := newKey] else keys)
  {
    var reply := CreateVaultRequest(db, c, team, name, list, newId, at);
    if reply.answer.Some? {
      var keys' := keys[KeyName(newId, 1) := newKey];
      CreatedTables(db, c, team, name, list, newId, at);
      FilesStayOk(db.ft, reply.db.ft, keys, keys');
      var db1 := reply.db.(shares := db.shares);
      SharesStayOk(db, db1, keys, keys');
      AddedSharesOk(db1, keys', c.user, newId, 1, list, |list|);
    }
  }

  // ---------------------------------------------------------------- pushing

  lemma AppendedRowsOk(t: FileTables, t': FileTables, a: PushArgs, keys: KeyBook)
    requires FilesOk(t, keys) && Valid(t') && GrownByOne(t, t', a) && RowOk(keys, a.key.vault, a.Row())
    ensures FilesOk(t', keys)
  {
    forall k: FileKey
      ensures LogOk(keys, k.vault, LogOf(t', k))
    {
      assert LogOk(keys, k.vault, LogOf(t, k));
    }
  }

  lemma PushRequestKeepsKeys(db: Db, keys: KeyBook, c: Caller, v: VaultId, f: FilePush, newId: FileId, at: int)
    requires KeyInv(db, keys) && RowOk(keys, v, f.Args(v, c).Row())
    ensures KeyInv(PushRequest(db, c, v, f, newId, at).db, keys)
  {
    var reply, a := PushRequest(db, c, v, f, newId, at), f.Args(v, c);
    if reply.answer.Some? {
      assert reply.db.ft == AfterPush(db, db.ft, a, newId) && reply.db.devices == db.devices;
      assert reply.db.grants == db.grants && reply.db.shares == db.shares;
      OnePush(db, db.ft, a, newId);
      AppendedRowsOk(db.ft, reply.db.ft, a, keys);
      SharesStayOk(db, reply.db, keys, keys);
    }
  }

  lemma PushingKeepsKeys(db: Db, keys: KeyBook, v: VaultId, ses: Session, path: string, plain: Bytes, nonce: nat,
                         newId: FileId, at: int)
    requires KeyInv(db, keys) && OwnBox(db, ses)
    ensures KeyInv(PushAction(db, v, ses, path, plain, nonce, newId, at).db, keys)
    ensures KeyInv(RmAction(db, v, ses, path, nonce, newId, at).db, keys)
  {
    HeldIsTheKey(db, keys, v, ses);
    var held, log := Fetched(db, v, ses), LogOf(db.ft, FileKey(v, path));
    if held.Some? {
      PushRequestKeepsKeys(db, keys, ses.caller, v, FilePush(path, held.value.version, |log|,
                           SecretBox(held.value.key, nonce, plain), false), newId, at);
      PushRequestKeepsKeys(db, keys, ses.caller, v, FilePush(path, held.value.version, |log|,
                           SecretBox(held.value.key, nonce, []), true), newId, at);
    }
  }

  // ---------------------------------------------------------------- revoking

  /** No key version of the vault is above this one. */
  predicate IsTop(keys: KeyBook, v: VaultId, version: int) {
    forall n :: n in keys && n.vault == v ==> n.version <= version
  }

  /** The session revokes another user, holds the vault's highest key version, and the new key is new. */
  ghost predicate ProperRotation(db: Db, keys: KeyBook, ses: Session, newKey: VaultKey, req: RevokeCall) {
    && KeyInv(db, keys) && OwnBox(db, ses)
    && Rotating(db, ses, req.vault, req.username, req.team, newKey, req)
    && MayRevoke(db, ses.caller, req) && Revoked(db, req) != ses.caller.user
    && IsTop(keys, req.vault, Fetched(db, req.vault, ses).value.version)
    && IsNew(keys, newKey)
  }

  ghost function NextVersion(db: Db, ses: Session, v: VaultId): int
    requires Fetched(db, v, ses).Some?
  {
    Fetched(db, v, ses).value.version + 1
  }

  ghost function NextKeys(db: Db, keys: KeyBook, ses: Session, newKey: VaultKey, v: VaultId): KeyBook
    requires Fetched(db, v, ses).Some?
  {
    keys[KeyName(v, NextVersion(db, ses, v)) := newKey]
  }

  /** No share of this version is there. */
  predicate Unused(shares: Shares, v: VaultId, kv: int) {
    forall k :: k in shares ==> !(k.vault == v && k.keyVersion == kv)
  }

  predicate NotUnder(log: Log, kv: int) {
    forall i :: 0 <= i < |log| ==> log[i].keyVersion != kv
  }

  /** No version stored in the vault is under this key version. */
  ghost predicate NoRowUnder(t: FileTables, v: VaultId, kv: int)
    requires Valid(t)
  {
    forall k: FileKey {:trigger LogOf(t, k)} :: k.vault == v ==> NotUnder(LogOf(t, k), kv)
  }

  /** A revocation the session may build and send, with a new key. */
  ghost predicate AnyRotation(db: Db, keys: KeyBook, ses: Session, newKey: VaultKey, req: RevokeCall) {
    && KeyInv(db, keys) && OwnBox(db, ses) && IsNew(keys, newKey)
    && Rotating(db, ses, req.vault, req.username, req.team, newKey, req) && MayRevoke(db, ses.caller, req)
  }

  /** The database once the first transaction of a revocation has committed. */
  ghost function TargetGone(db: Db, req: RevokeCall): Db
    requires UserNamed(db, req.username).Some?
  {
    WithoutGrant(db, req.vault, Revoked(db, req))
  }

  /** Someone else is revoked, no share of the version after the session's highest is left when the
      target's are gone, and no stored version is under it. */
  ghost predicate NextIsFree(db: Db, ses: Session, req: RevokeCall)
    requires Valid(db.ft) && Fetched(db, req.vault, ses).Some? && UserNamed(db, req.username).Some?
  {
    && Revoked(db, req) != ses.caller.user
    && Unused(TargetGone(db, req).shares, req.vault, NextVersion(db, ses, req.vault))
    && NoRowUnder(db.ft, req.vault, NextVersion(db, ses, req.vault))
  }

  /** The version after the vault's highest is free. */
  lemma ProperIsFree(db: Db, keys: KeyBook, ses: Session, newKey: VaultKey, req: RevokeCall)
    requires ProperRotation(db, keys, ses, newKey, req)
    ensures AnyRotation(db, keys, ses, newKey, req) && NextIsFree(db, ses, req)
  {
    assert forall k :: k in db.shares ==> ShareOk(db.devices, db.grants, keys, k, db.shares[k]);
    forall k: FileKey, i | k.vault == req.vault && 0 <= i < |LogOf(db.ft, k)|
      ensures LogOf(db.ft, k)[i].keyVersion != NextVersion(db, ses, req.vault)
    {
      assert LogOk(keys, k.vault, LogOf(db.ft, k)) && RowOk(keys, k.vault, LogOf(db.ft, k)[i]);
    }
  }

  lemma RotatedFilesOk(t: FileTables, t': FileTables, pushes: seq<PushArgs>, n: nat, keys: KeyBook, keys': KeyBook)
    requires FilesOk(t, keys) && Valid(t') && n <= |pushes| && Grown(t, t', pushes, n) && SubMap(keys, keys')
    requires forall i :: 0 <= i < n ==> RowOk(keys', pushes[i].key.vault, pushes[i].Row())
    ensures FilesOk(t', keys')
  {
    forall k: FileKey
      ensures LogOk(keys', k.vault, LogOf(t', k))
    {
      assert LogOk(keys, k.vault, LogOf(t, k));
      MoreKeysLogOk(keys, keys', k.vault, LogOf(t, k));
      if k in KeysPushed(pushes, n) {
        var i :| 0 <= i < n && pushes[i].key == k;
        assert LogOf(t', pushes[i].key) == LogOf(t, pushes[i].key) + [pushes[i].Row()];
        AppendedLogOk(keys', k.vault, LogOf(t, k), pushes[i].Row());
      } else {
        assert LogOf(t', k) == LogOf(t, k);
      }
    }
  }

  lemma AppendedLogOk(keys: KeyBook, v: VaultId, log: Log, row: VersionRow)
    requires LogOk(keys, v, log) && RowOk(keys, v, row)
    ensures LogOk(keys, v, log + [row])
  {
  }

  lemma MoreKeysLogOk(keys: KeyBook, keys': KeyBook, v: VaultId, log: Log)
    requires LogOk(keys, v, log) && SubMap(keys, keys')
    ensures LogOk(keys', v, log)
  {
    assert forall i :: 0 <= i < |log| ==> RowOk(keys, v, log[i]);
  }

  lemma RevokedSharesOk(db: Db, keys: KeyBook, keys': KeyBook, v: VaultId, t: UserId)
    requires SharesOk(db, keys) && SubMap(keys, keys')
    ensures SharesOk(WithoutGrant(db, v, t), keys')
  {
    SharesStayOk(db, WithoutGrant(db, v, t), keys, keys');
  }

  /** Where the next version names the new key, the files of a rotation's request are under it. */
  lemma NewRowsOk(db: Db, keys': KeyBook, ses: Session, newKey: VaultKey, req: RevokeCall, next: int)
    requires Rotating(db, ses, req.vault, req.username, req.team, newKey, req)
    requires next == NextVersion(db, ses, req.vault)
    requires KeyName(req.vault, next) in keys' && keys'[KeyName(req.vault, next)] == newKey
    ensures forall i :: 0 <= i < |req.files| ==>
      RowOk(keys', req.vault, Pushes(req.files, req.vault, ses.caller)[i].Row())
  {
    var oldKey := Fetched(db, req.vault, ses).value.key;
    forall i | 0 <= i < |req.files|
      ensures RowOk(keys', req.vault, Pushes(req.files, req.vault, ses.caller)[i].Row())
    {
      assert ReEncrypts(db.ft, req.vault, oldKey, newKey, next, req.files[i]);
    }
  }

  lemma ReEncryptedRowsOk(db: Db, keys: KeyBook, ses: Session, newKey: VaultKey, req: RevokeCall)
    requires ProperRotation(db, keys, ses, newKey, req)
    ensures DistinctPaths(req.files)
    ensures forall i :: 0 <= i < |req.files| ==>
      RowOk(NextKeys(db, keys, ses, newKey, req.vault), req.vault, Pushes(req.files, req.vault, ses.caller)[i].Row())
  {
    NewRowsOk(db, NextKeys(db, keys, ses, newKey, req.vault), ses, newKey, req, NextVersion(db, ses, req.vault));
  }

  lemma NextKeysAreDistinct(db: Db, keys: KeyBook, ses: Session, newKey: VaultKey, req: RevokeCall)
    requires ProperRotation(db, keys, ses, newKey, req)
    ensures var keys' := NextKeys(db, keys, ses, newKey, req.vault);
      OneNamePerKey(keys') && SubMap(keys, keys') && KeyName(req.vault, NextVersion(db, ses, req.vault)) !in keys
  {
    HeldIsTheKey(db, keys, req.vault, ses);
  }

  lemma BetweenIsOk(db1: Db, m: Db, keys: KeyBook, keys': KeyBook, c: Caller, req: RevokeCall, i: nat, kv: int)
    requires SharesOk(db1, keys') && FilesOk(db1.ft, keys) && SubMap(keys, keys') && Between(db1, c, req, i, m)
    requires KeyName(req.vault, kv) in keys' && GrantKey(req.vault, c.user) in db1.grants
    requires forall j :: 0 <= j < |req.shares| ==>
      SealsTo(db1, c.user, keys'[KeyName(req.vault, kv)], kv, req.shares[j])
    requires forall j :: 0 <= j < |req.files| ==> RowOk(keys', req.vault, Pushes(req.files, req.vault, c)[j].Row())
    ensures SharesOk(m, keys') && FilesOk(m.ft, keys')
  {
    AddedSharesOk(db1, keys', c.user, req.vault, kv, req.shares, SharesIn(req, i));
    RotatedFilesOk(db1.ft, m.ft, Pushes(req.files, req.vault, c), FilesIn(req, i), keys, keys');
    forall k | k in m.shares
      ensures ShareOk(m.devices, m.grants, keys', k, m.shares[k])
    {
      assert ShareOk(db1.devices, db1.grants, keys', k, m.shares[k]);
    }
  }

  /** A name nothing is under may be given a new key. */
  lemma FreeNameShares(db: Db, keys: KeyBook, n: KeyName, newKey: VaultKey)
    requires SharesOk(db, keys) && Unused(db.shares, n.vault, n.version)
    ensures SharesOk(db, keys[n := newKey])
  {
    forall k | k in db.shares
      ensures ShareOk(db.devices, db.grants, keys[n := newKey], k, db.shares[k])
    {
      assert ShareOk(db.devices, db.grants, keys, k, db.shares[k]);
    }
  }

  lemma FreeNameFiles(t: FileTables, keys: KeyBook, n: KeyName)
    requires FilesOk(t, keys) && NoRowUnder(t, n.vault, n.version)
    ensures FilesOk(t, keys - {n})
  {
    forall k: FileKey
      ensures LogOk(keys - {n}, k.vault, LogOf(t, k))
    {
      assert LogOk(keys, k.vault, LogOf(t, k));
      assert forall i :: 0 <= i < |LogOf(t, k)| ==> RowOk(keys, k.vault, LogOf(t, k)[i]);
    }
  }

  lemma FreeNameIsOne(keys: KeyBook, n: KeyName, newKey: VaultKey)
    requires OneNamePerKey(keys) && IsNew(keys, newKey) && n.version >= 1
    ensures OneNamePerKey(keys[n := newKey])
  {
  }

  lemma NextIsPositive(db: Db, keys: KeyBook, ses: Session, v: VaultId)
    requires KeyInv(db, keys) && OwnBox(db, ses) && Fetched(db, v, ses).Some?
    ensures NextVersion(db, ses, v) >= 1
  {
    HeldIsTheKey(db, keys, v, ses);
  }

  /** If someone else is revoked and the version is free, the old book with the new key fits. */
  lemma FreeVersionKeepsKeys(db: Db, keys: KeyBook, ses: Session, newKey: VaultKey, req: RevokeCall, i: nat, m: Db)
    requires AnyRotation(db, keys, ses, newKey, req) && NextIsFree(db, ses, req)
    requires Between(TargetGone(db, req), ses.caller, req, i, m)
    ensures KeyInv(m, NextKeys(db, keys, ses, newKey, req.vault))
  {
    var db1, next := TargetGone(db, req), NextVersion(db, ses, req.vault);
    var n := KeyName(req.vault, next);
    RevokedSharesOk(db, keys, keys, req.vault, Revoked(db, req));
    FreeNameShares(db1, keys, n, newKey);
    FreeNameFiles(db.ft, keys, n);
    NewRowsOk(db, keys[n := newKey], ses, newKey, req, next);
    BetweenIsOk(db1, m, keys - {n}, keys[n := newKey], ses.caller, req, i, next);
    NextIsPositive(db, keys, ses, req.vault);
    FreeNameIsOne(keys, n, newKey);
  }

  /** At every point of a rotation to a free version the invariant holds, with the new key under it. */
  lemma RotatingKeepsKeys(db: Db, keys: KeyBook, ses: Session, newKey: VaultKey, req: RevokeCall, ids: nat -> FileId,
                          i: nat)
    requires AnyRotation(db, keys, ses, newKey, req) && NextIsFree(db, ses, req)
    requires i <= RevokeReach(db, ses.caller, req, ids)
    ensures KeyInv(RevokeState(db, ses.caller, req, ids, i), NextKeys(db, keys, ses, newKey, req.vault))
  {
    PointOfRotation(TargetGone(db, req), ses.caller, req, ids, i);
    FreeVersionKeepsKeys(db, keys, ses, newKey, req, i, RevokeState(db, ses.caller, req, ids, i));
  }

  /** The two differ in the audit log only. */
  predicate SameButAudit(m: Db, db': Db) {
    && db'.users == m.users && db'.devices == m.devices && db'.vaults == m.vaults && db'.grants == m.grants
    && db'.shares == m.shares && db'.ft == m.ft
  }

  /** The last state of a revocation that went through. */
  lemma RevokedLast(db: Db, c: Caller, req: RevokeCall, ids: nat -> FileId, at: int)
    requires MayRevoke(db, c, req)
    ensures RevokeRequest(db, c, req, ids, at).answer.Some? <==>
      RevokeReach(db, c, req, ids) == |req.shares| + |req.files|
    ensures SameButAudit(RevokeState(db, c, req, ids, RevokeReach(db, c, req, ids)),
                         RevokeRequest(db, c, req, ids, at).db)
  {
  }

  // ---------------------------------------------------------------- runs

  datatype Step =
    | DoCreate(ses: Session, team: string, name: string, newKey: VaultKey, shares: seq<WireShare>, newVault: VaultId)
    | DoGrant(ses: Session, team: string, vault: VaultId, username: string, shares: seq<WireShare>)
    | DoRevoke(ses: Session, newKey: VaultKey, call: RevokeCall, newFiles: nat -> FileId)
    | DoPush(ses: Session, vault: VaultId, path: string, plain: Bytes, nonce: nat, newFile: FileId)
    | DoRemove(ses: Session, vault: VaultId, path: string, nonce: nat, newFile: FileId)
    | DoOther(request: Request)

  /** What the clients send, with new keys and ids, where nobody revokes themselves and a rotation takes a
      version that is free. */
  ghost predicate Allowed(db: Db, keys: KeyBook, s: Step) {
    match s
    case DoCreate(ses, _, _, newKey, shares, newVault) =>
      && SealsToActive(db, ses.caller.user, newKey, 1, shares)
      && IsNew(keys, newKey) && forall n :: n in keys ==> n.vault != newVault
    case DoGrant(ses, _, v, username, shares) => OwnBox(db, ses) && Granting(db, ses, v, username, shares)
    case DoRevoke(ses, newKey, call, _) => AnyRotation(db, keys, ses, newKey, call) && NextIsFree(db, ses, call)
    case DoPush(ses, _, _, _, _, _) => OwnBox(db, ses)
    case DoRemove(ses, _, _, _, _) => OwnBox(db, ses)
    case DoOther(r) => r.Directory?() && Fresh(db, r)
  }

  ghost function After(db: Db, s: Step, at: int): Db
    requires Valid(db.ft)
  {
    match s
    case DoCreate(ses, team, name, _, shares, newVault) =>
      CreateVaultRequest(db, ses.caller, team, name, shares, newVault, at).db
    case DoGrant(ses, team, v, username, shares) => GrantRequest(db, ses.caller, team, v, username, shares, at).db
    case DoRevoke(ses, _, call, newFiles) => RevokeRequest(db, ses.caller, call, newFiles, at).db
    case DoPush(ses, v, path, plain, nonce, newFile) => PushAction(db, v, ses, path, plain, nonce, newFile, at).db
    case DoRemove(ses, v, path, nonce, newFile) => RmAction(db, v, ses, path, nonce, newFile, at).db
    case DoOther(r) => Handle(db, r, at)
  }

  ghost function KeysAfter(db: Db, keys: KeyBook, s: Step, at: int): KeyBook
    requires Allowed(db, keys, s)
  {
    match s
    case DoCreate(ses, team, name, newKey, shares, newVault) =>
      if CreateVaultRequest(db, ses.caller, team, name, shares, newVault, at).answer.Some? then
        keys[KeyName(newVault, 1) := newKey]
      else keys
    case DoRevoke(ses, newKey, call, _) => NextKeys(db, keys, ses, newKey, call.vault)
    case _ => keys
  }

  lemma RevokingKeepsKeys(db: Db, keys: KeyBook, ses: Session, newKey: VaultKey, req: RevokeCall, ids: nat -> FileId,
                          at: int)
    requires AnyRotation(db, keys, ses, newKey, req) && NextIsFree(db, ses, req)
    ensures KeyInv(RevokeRequest(db, ses.caller, req, ids, at).db, NextKeys(db, keys, ses, newKey, req.vault))
  {
    var keys', n := NextKeys(db, keys, ses, newKey, req.vault), RevokeReach(db, ses.caller, req, ids);
    RevokedLast(db, ses.caller, req, ids, at);
    RotatingKeepsKeys(db, keys, ses, newKey, req, ids, n);
    SharesStayOk(RevokeState(db, ses.caller, req, ids, n), RevokeRequest(db, ses.caller, req, ids, at).db, keys',
                 keys');
  }

  lemma StepKeepsKeys(db: Db, keys: KeyBook, s: Step, at: int)
    requires KeyInv(db, keys) && Allowed(db, keys, s)
    ensures KeyInv(After(db, s, at), KeysAfter(db, keys, s, at))
  {
    match s
    case DoCreate(ses, team, name, newKey, shares, newVault) =>
      CreatingKeepsKeys(db, keys, ses.caller, team, name, newKey, shares, newVault, at);
    case DoGrant(ses, team, v, username, shares) => GrantingKeepsKeys(db, keys, ses, team, v, username, shares, at);
    case DoRevoke(ses, newKey, call, newFiles) => RevokingKeepsKeys(db, keys, ses, newKey, call, newFiles, at);
    case DoPush(ses, v, path, plain, nonce, newFile) =>
      PushingKeepsKeys(db, keys, v, ses, path, plain, nonce, newFile, at);
    case DoRemove(ses, v, path, nonce, newFile) => PushingKeepsKeys(db, keys, v, ses, path, [], nonce, newFile, at);
    case DoOther(r) => DirectoryKeepsKeys(db, r, at, keys);
  }

  /** Without shares and files there are no keys to get wrong. */
  lemma NoKeysAtFirst(db: Db)
    requires db.shares == map[] && db.ft == FileTables(map[], map[])
    ensures KeyInv(db, map[])
  {
  }

  datatype Timed = Timed(step: Step, at: int)

  ghost predicate Run(db: Db, keys: KeyBook, steps: seq<Timed>, db': Db, keys': KeyBook)
    requires KeyInv(db, keys)
    decreases |steps|
  {
    if steps == [] then db' == db && keys' == keys
    else
      Allowed(db, keys, steps[0].step) &&
      (StepKeepsKeys(db, keys, steps[0].step, steps[0].at);
       Run(After(db, steps[0].step, steps[0].at), KeysAfter(db, keys, steps[0].step, steps[0].at),
           steps[1..], db', keys'))
  }

  /** Over every run: a version names one key of a vault, every share seals the key its version names to
      a device whose owner has a grant, and every stored file version is under the key its version names. */
  lemma {:induction false} RunKeepsKeys(db: Db, keys: KeyBook, steps: seq<Timed>, db': Db, keys': KeyBook)
    requires KeyInv(db, keys) && Run(db, keys, steps, db', keys')
    ensures KeyInv(db', keys')
    decreases |steps|
  {
    if steps != [] {
      StepKeepsKeys(db, keys, steps[0].step, steps[0].at);
      RunKeepsKeys(After(db, steps[0].step, steps[0].at), KeysAfter(db, keys, steps[0].step, steps[0].at),
                   steps[1..], db', keys');
    }
  }

  /** In any state of any run, a grant an admin sends from a device with the vault's highest version goes
      through and reaches every active device of the grantee, with or without a grant before: each fetches
      the granter's key afterwards, whatever ON CONFLICT dropped. */
  lemma GrantReachesEveryDevice(db0: Db, keys0: KeyBook, steps: seq<Timed>, db: Db, keys: KeyBook, ses: Session,
                                team: string, v: VaultId, username: string, list: seq<WireShare>, at: int,
                                ses': Session)
    requires KeyInv(db0, keys0) && Run(db0, keys0, steps, db, keys)
    requires OwnBox(db, ses) && Granting(db, ses, v, username, list)
    requires IsTop(keys, v, Fetched(db, v, ses).value.version)
    requires TeamAdminAuthed(db, ses.caller, team) && username != ""
    requires OwnBox(db, ses') && ActiveAuthed(db, ses'.caller) && ses'.caller.user == UserNamed(db, username).value
    ensures var reply := GrantRequest(db, ses.caller, team, v, username, list, at);
      reply.answer.Some? && Fetched(reply.db, v, ses') == Fetched(db, v, ses)
  {
    RunKeepsKeys(db0, keys0, steps, db, keys);
    HeldIsTheKey(db, keys, v, ses');
    GrantGoesThroughIff(db, ses, team, v, username, list, at);
    GrantDeliversIff(db, keys, ses, team, v, username, list, at, ses');
  }
}
