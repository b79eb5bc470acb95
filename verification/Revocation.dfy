/** What holds at every point of a revocation (handleRevoke in
    internal/server/http/handlers_vaults.go), wherever between its transactions it is looked at or stops. */
module Revocation {
  import opened Common
  import opened Crypto
  import opened Schema
  import opened Lookup
  import opened FileStore
  import opened VaultStore
  import opened VaultHandlers

  function KeysPushed(pushes: seq<PushArgs>, n: nat): set<FileKey>
    requires n <= |pushes|
  {
    set i | 0 <= i < n :: pushes[i].key
  }

  /** The files of the first n pushes are one version longer, by the row pushed; all others are the same. */
  ghost predicate Grown(t: FileTables, t': FileTables, pushes: seq<PushArgs>, n: nat)
    requires Valid(t) && Valid(t') && n <= |pushes|
  {
    && (forall i :: 0 <= i < n ==> LogOf(t', pushes[i].key) == LogOf(t, pushes[i].key) + [pushes[i].Row()])
    && (forall k :: k !in KeysPushed(pushes, n) ==> LogOf(t', k) == LogOf(t, k))
  }

  predicate DistinctKeysPushed(pushes: seq<PushArgs>) {
    forall i, j :: 0 <= i < j < |pushes| ==> pushes[i].key != pushes[j].key
  }

  /** One push has gone through in between. */
  ghost predicate GrownByOne(t: FileTables, t': FileTables, a: PushArgs)
    requires Valid(t) && Valid(t')
  {
    LogOf(t', a.key) == LogOf(t, a.key) + [a.Row()] && forall k :: k != a.key ==> LogOf(t', k) == LogOf(t, k)
  }

  lemma OnePush(db: Db, t: FileTables, a: PushArgs, newId: FileId)
    requires Valid(t) && PushOutcome(db, t, a, newId).Accepted?
    ensures var t' := AfterPush(db, t, a, newId);
      Valid(t') && GrownByOne(t, t', a)
  {
    var id := if a.key in t.files then t.files[a.key].id else newId;
    var t' := AfterPush(db, t, a, newId);
    PushKeepsValid(t, a.key, id, a.Row(), t');
    GrownLog(t, a.key, id, a.Row(), t');
    forall k | k != a.key
      ensures LogOf(t', k) == LogOf(t, k)
    {
      if k in t.files {
        KeptLog(t, a.key, id, a.Row(), t', k);
      }
    }
  }

  lemma LastKeyPushed(pushes: seq<PushArgs>, n: nat)
    requires n < |pushes|
    ensures KeysPushed(pushes, n + 1) == KeysPushed(pushes, n) + {pushes[n].key}
  {
  }

  lemma GrownMore(t: FileTables, t1: FileTables, t2: FileTables, pushes: seq<PushArgs>, n: nat)
    requires Valid(t) && Valid(t1) && Valid(t2) && n < |pushes| && DistinctKeysPushed(pushes)
    requires Grown(t, t1, pushes, n) && GrownByOne(t1, t2, pushes[n])
    ensures Grown(t, t2, pushes, n + 1)
  {
    LastKeyPushed(pushes, n);
    assert pushes[n].key !in KeysPushed(pushes, n);
  }

  lemma {:induction false} PushedSoFar(db: Db, pushes: seq<PushArgs>, ids: nat -> FileId, n: nat)
    requires Valid(db.ft) && DistinctKeysPushed(pushes)
    requires n <= Reach(db, pushes, ids, 0)
    ensures Valid(Pushed(db, pushes, ids, n)) && Grown(db.ft, Pushed(db, pushes, ids, n), pushes, n)
    decreases n
  {
    if n > 0 {
      PushedSoFar(db, pushes, ids, n - 1);
      assert Goes(db, pushes, ids, n - 1);
      OnePush(db, Pushed(db, pushes, ids, n - 1), pushes[n - 1], ids(n - 1));
      GrownMore(db.ft, Pushed(db, pushes, ids, n - 1), Pushed(db, pushes, ids, n), pushes, n - 1);
    }
  }

  // ---------------------------------------------------------------- any point of a revocation

  predicate DistinctPaths(files: seq<FilePush>) {
    forall i, j :: 0 <= i < j < |files| ==> files[i].path != files[j].path
  }

  ghost predicate Revoking(db: Db, c: Caller, req: RevokeCall, ids: nat -> FileId) {
    Valid(db.ft) && MayRevoke(db, c, req) && DistinctPaths(req.files)
  }

  ghost function Revoked(db: Db, req: RevokeCall): UserId
    requires UserNamed(db, req.username).Some?
  {
    UserNamed(db, req.username).value
  }

  /** The two differ in nothing but grants, shares and files. */
  predicate SameBut(db: Db, m: Db) {
    && m.users == db.users && m.devices == db.devices && m.teams == db.teams && m.members == db.members
    && m.vaults == db.vaults && m.invites == db.invites && m.audit == db.audit
  }

  /** The database in between: that without the target's grant and shares, with some of the new shares,
      and with some of the files one version longer. */
  ghost predicate Between(db1: Db, c: Caller, req: RevokeCall, i: nat, m: Db)
    requires Valid(db1.ft)
  {
    && SameBut(db1, m) && m.grants == db1.grants
    && m.shares == InsertShares(db1.shares, StoreShares(req.shares, req.vault)[..SharesIn(req, i)])
    && FilesBetween(db1.ft, m.ft, c, req, i)
  }

  /** Some of the request's files are one version longer in t'. */
  ghost predicate FilesBetween(t: FileTables, t': FileTables, c: Caller, req: RevokeCall, i: nat)
    requires Valid(t)
  {
    Valid(t') && FilesIn(req, i) <= |req.files| && Grown(t, t', Pushes(req.files, req.vault, c), FilesIn(req, i))
  }

  lemma PointOfRotation(db1: Db, c: Caller, req: RevokeCall, ids: nat -> FileId, i: nat)
    requires Valid(db1.ft) && DistinctPaths(req.files) && i <= RotateReach(db1, c, req, ids)
    ensures Between(db1, c, req, i, RotateState(db1, c, req, ids, i))
  {
    PushedSoFar(Shared(db1, StoreShares(req.shares, req.vault), SharesIn(req, i)), Pushes(req.files, req.vault, c),
                ids, FilesIn(req, i));
  }

  predicate HasShare(db: Db, v: VaultId, u: UserId) {
    exists k :: k in db.shares && k.vault == v && BelongsTo(db, k.device, u)
  }

  /** At no point does the target have a grant; and the target has a share exactly if the request
      brought one for a device of the target's. */
  lemma TargetIsOut(db: Db, c: Caller, req: RevokeCall, i: nat, m: Db)
    requires Valid(db.ft) && MayRevoke(db, c, req)
    requires Between(WithoutGrant(db, req.vault, Revoked(db, req)), c, req, i, m)
    ensures var t := Revoked(db, req);
      && GrantKey(req.vault, t) !in m.grants
      && (HasShare(m, req.vault, t) <==>
            exists j ::
              && 0 <= j < SharesIn(req, i) && ToStore(req.shares[j], req.vault).vault == req.vault
              && BelongsTo(db, req.shares[j].device, t))
  {
    var t, v := Revoked(db, req), req.vault;
    var db1, list := WithoutGrant(db, v, t), StoreShares(req.shares, v)[..SharesIn(req, i)];
    InsertedShares(db1.shares, list);
    if HasShare(m, v, t) {
      var k :| k in m.shares && k.vault == v && BelongsTo(m, k.device, t);
      assert k !in db1.shares;
      var j :| 0 <= j < |list| && list[j].Key() == k;
      assert ToStore(req.shares[j], v) == list[j];
    }
    if j :| 0 <= j < SharesIn(req, i) && ToStore(req.shares[j], v).vault == v
            && BelongsTo(db, req.shares[j].device, t) {
      assert list[j] == ToStore(req.shares[j], v);
      assert list[j].Key() in Keys(list);
      assert list[j].Key() in m.shares;
    }
  }

  /** At any point each file is as it was, or one version longer by a row of the request. */
  lemma FilesGrowByOne(db: Db, c: Caller, req: RevokeCall, i: nat, m: Db, k: FileKey)
    requires Valid(db.ft) && MayRevoke(db, c, req)
    requires Between(WithoutGrant(db, req.vault, Revoked(db, req)), c, req, i, m)
    ensures var pushes := Pushes(req.files, req.vault, c);
      && Valid(m.ft) && LogOf(db.ft, k) <= LogOf(m.ft, k)
      && (LogOf(m.ft, k) == LogOf(db.ft, k)
          || exists j ::
               && 0 <= j < FilesIn(req, i) <= |pushes| && pushes[j].key == k
               && LogOf(m.ft, k) == LogOf(db.ft, k) + [pushes[j].Row()])
  {
    var pushes := Pushes(req.files, req.vault, c);
    if k in KeysPushed(pushes, FilesIn(req, i)) {
      var j :| 0 <= j < FilesIn(req, i) && pushes[j].key == k;
      assert LogOf(m.ft, pushes[j].key) == LogOf(db.ft, pushes[j].key) + [pushes[j].Row()];
    }
  }

  // ---------------------------------------------------------------- what the caller can open

  /** The device holds a share for the vault with this key in it. */
  ghost predicate Holds(db: Db, d: DeviceId, v: VaultId, key: VaultKey) {
    d in db.devices && exists kv :: HoldsAt(db, d, v, kv, key)
  }

  predicate HoldsAt(db: Db, d: DeviceId, v: VaultId, kv: int, key: VaultKey)
    requires d in db.devices
  {
    ShareKey(v, d, kv) in db.shares && OpenVaultKey(db.shares[ShareKey(v, d, kv)], db.devices[d].boxPub) == Some(key)
  }

  /** Some share of the device opens the latest version of a live file. */
  ghost predicate CanOpen(db: Db, d: DeviceId, k: FileKey)
    requires Valid(db.ft)
  {
    var log := LogOf(db.ft, k);
    Live(log) && exists key :: Holds(db, d, k.vault, key) && DecryptBlob(key, log[|log| - 1].blob).Some?
  }

  /** The request seals a new key, under a version the device has no share for, to the device, and has
      every file encrypted with that key. */
  ghost predicate Reseals(db: Db, req: RevokeCall, d: DeviceId, newVersion: int, newKey: VaultKey)
    requires d in db.devices
  {
    && ShareKey(req.vault, d, newVersion) !in db.shares
    && (forall i ::
          && 0 <= i < |req.shares|
          && ToStore(req.shares[i], req.vault).Key() == ShareKey(req.vault, d, newVersion) ==>
            req.shares[i].sealed == SealVaultKey(newKey, db.devices[d].boxPub))
    && (exists i ::
          && 0 <= i < |req.shares|
          && ToStore(req.shares[i], req.vault).Key() == ShareKey(req.vault, d, newVersion))
    && (forall i :: 0 <= i < |req.files| ==> DecryptBlob(newKey, req.files[i].blob).Some?)
  }

  lemma OldSharesStay(db: Db, c: Caller, req: RevokeCall, i: nat, m: Db, d: DeviceId, key: VaultKey)
    requires Valid(db.ft) && MayRevoke(db, c, req)
    requires Between(WithoutGrant(db, req.vault, Revoked(db, req)), c, req, i, m)
    requires Revoked(db, req) != c.user && BelongsTo(db, d, c.user) && Holds(db, d, req.vault, key)
    ensures Holds(m, d, req.vault, key)
  {
    var db1 := WithoutGrant(db, req.vault, Revoked(db, req));
    InsertedShares(db1.shares, StoreShares(req.shares, req.vault)[..SharesIn(req, i)]);
    var kv :| HoldsAt(db, d, req.vault, kv, key);
    assert ShareKey(req.vault, d, kv) in db1.shares;
    assert HoldsAt(m, d, req.vault, kv, key);
  }

  lemma NewShareIsThere(db: Db, c: Caller, req: RevokeCall, i: nat, m: Db, d: DeviceId, newVersion: int,
                        newKey: VaultKey)
    requires Valid(db.ft) && MayRevoke(db, c, req)
    requires Between(WithoutGrant(db, req.vault, Revoked(db, req)), c, req, i, m) && |req.shares| <= i
    requires BelongsTo(db, d, c.user) && Reseals(db, req, d, newVersion, newKey)
    ensures d in m.devices && HoldsAt(m, d, req.vault, newVersion, newKey)
  {
    var db1, list := WithoutGrant(db, req.vault, Revoked(db, req)), StoreShares(req.shares, req.vault);
    assert list[..|list|] == list;
    InsertedShares(db1.shares, list);
    var at :| 0 <= at < |req.shares| && ToStore(req.shares[at], req.vault).Key() == ShareKey(req.vault, d, newVersion);
    assert list[at].Key() in Keys(list);
  }

  /** Whatever live file a device of the caller could open, it can open at every point. */
  lemma CallerCanAlwaysOpen(db: Db, c: Caller, req: RevokeCall, i: nat, m: Db, d: DeviceId, k: FileKey,
                            newVersion: int, newKey: VaultKey)
    requires Valid(db.ft) && MayRevoke(db, c, req)
    requires Between(WithoutGrant(db, req.vault, Revoked(db, req)), c, req, i, m) && k.vault == req.vault
    requires Revoked(db, req) != c.user && BelongsTo(db, d, c.user) && Reseals(db, req, d, newVersion, newKey)
    requires CanOpen(db, d, k)
    ensures CanOpen(m, d, k)
  {
    FilesGrowByOne(db, c, req, i, m, k);
    var pushes := Pushes(req.files, req.vault, c);
    if LogOf(m.ft, k) == LogOf(db.ft, k) {
      var key :| Holds(db, d, k.vault, key) && DecryptBlob(key, LogOf(db.ft, k)[|LogOf(db.ft, k)| - 1].blob).Some?;
      OldSharesStay(db, c, req, i, m, d, key);
    } else {
      var j :| 0 <= j < FilesIn(req, i) <= |pushes| && pushes[j].key == k
               && LogOf(m.ft, k) == LogOf(db.ft, k) + [pushes[j].Row()];
      NewShareIsThere(db, c, req, i, m, d, newVersion, newKey);
      assert Holds(m, d, k.vault, newKey);
      assert pushes[j].Row().blob == req.files[j].blob;
    }
  }

  /** At every point of a revocation of another user, finished or not: the target has no grant, and no
      share but what the request brings; any file is as it was or one version longer by a row of the
      request; and a device of the caller's can open it if it could before. */
  lemma EveryPointOfARevocation(db: Db, c: Caller, req: RevokeCall, ids: nat -> FileId, i: nat, d: DeviceId,
                                newVersion: int, newKey: VaultKey, k: FileKey)
    requires Revoking(db, c, req, ids) && i <= RevokeReach(db, c, req, ids)
    requires Revoked(db, req) != c.user && BelongsTo(db, d, c.user) && Reseals(db, req, d, newVersion, newKey)
    requires forall j :: 0 <= j < |req.shares| ==>
      req.shares[j].vault.None? && BelongsTo(db, req.shares[j].device, c.user)
    ensures var m, t := RevokeState(db, c, req, ids, i), Revoked(db, req);
      && GrantKey(req.vault, t) !in m.grants && !HasShare(m, req.vault, t)
      && Valid(m.ft) && LogOf(db.ft, k) <= LogOf(m.ft, k) && |LogOf(m.ft, k)| <= |LogOf(db.ft, k)| + 1
      && (k.vault != req.vault ==> LogOf(m.ft, k) == LogOf(db.ft, k))
      && (k.vault == req.vault && CanOpen(db, d, k) ==> CanOpen(m, d, k))
  {
    PointOfRotation(WithoutGrant(db, req.vault, Revoked(db, req)), c, req, ids, i);
    var m := RevokeState(db, c, req, ids, i);
    TargetIsOut(db, c, req, i, m);
    FilesGrowByOne(db, c, req, i, m, k);
    if k.vault == req.vault && CanOpen(db, d, k) {
      CallerCanAlwaysOpen(db, c, req, i, m, d, k, newVersion, newKey);
    }
  }

  // ---------------------------------------------------------------- when a revocation goes through

  /** Each push is of a file that is there, on top of its latest version, and no file is pushed twice. */
  ghost predicate OnLatest(t: FileTables, pushes: seq<PushArgs>)
    requires Valid(t)
  {
    DistinctKeysPushed(pushes) &&
    forall i :: 0 <= i < |pushes| ==> pushes[i].key in t.files && pushes[i].base == |LogOf(t, pushes[i].key)|
  }

  lemma LatestIsLength(t: FileTables, k: FileKey)
    requires Valid(t)
    ensures Latest(t, k) == |LogOf(t, k)| && (k in t.files <==> LogOf(t, k) != [])
  {
    assert k in t.files ==> Numbered(t.files[k], t.versions);
  }

  lemma StillOnLatest(t: FileTables, t': FileTables, pushes: seq<PushArgs>, n: nat)
    requires Valid(t) && Valid(t') && OnLatest(t, pushes) && n < |pushes| && Grown(t, t', pushes, n)
    ensures pushes[n].key in t'.files && pushes[n].base == Latest(t', pushes[n].key)
  {
    assert pushes[n].key !in KeysPushed(pushes, n);
    LatestIsLength(t, pushes[n].key);
    LatestIsLength(t', pushes[n].key);
  }

  lemma NextGoes(db: Db, pushes: seq<PushArgs>, ids: nat -> FileId, n: nat, t': FileTables)
    requires Valid(db.ft) && OnLatest(db.ft, pushes) && n < |pushes| && t' == Pushed(db, pushes, ids, n)
    requires FileStore.Referable(db, pushes[n]) && Valid(t') && Grown(db.ft, t', pushes, n)
    ensures Goes(db, pushes, ids, n)
  {
    StillOnLatest(db.ft, t', pushes, n);
  }

  lemma {:induction false} ReachStops(db: Db, pushes: seq<PushArgs>, ids: nat -> FileId, n: nat)
    requires n <= |pushes|
    ensures var r := Reach(db, pushes, ids, n); r < |pushes| ==> !Goes(db, pushes, ids, r)
    decreases |pushes| - n
  {
    if n < |pushes| && Goes(db, pushes, ids, n) {
      ReachStops(db, pushes, ids, n + 1);
    }
  }

  /** With all pushes on the latest versions the last of them is reached. */
  lemma ReachesAll(db: Db, pushes: seq<PushArgs>, ids: nat -> FileId)
    requires Valid(db.ft) && OnLatest(db.ft, pushes)
    requires forall i :: 0 <= i < |pushes| ==> FileStore.Referable(db, pushes[i])
    ensures Reach(db, pushes, ids, 0) == |pushes|
  {
    var r := Reach(db, pushes, ids, 0);
    PushedSoFar(db, pushes, ids, r);
    ReachStops(db, pushes, ids, 0);
    if r < |pushes| {
      NextGoes(db, pushes, ids, r, Pushed(db, pushes, ids, r));
    }
  }

  /** The request's shares are for devices that exist, and its files are on the latest versions. */
  ghost predicate UpToDate(db: Db, c: Caller, req: RevokeCall)
    requires Valid(db.ft)
  {
    && (forall i :: 0 <= i < |req.shares| ==> req.shares[i].vault.None? && req.shares[i].device in db.devices)
    && OnLatest(db.ft, Pushes(req.files, req.vault, c))
  }

  /** Such a request goes through, whatever ids come up for new files. */
  lemma UpToDateCompletes(db: Db, c: Caller, req: RevokeCall, ids: nat -> FileId)
    requires Valid(db.ft) && MayRevoke(db, c, req) && UpToDate(db, c, req)
    ensures RevokeCompletes(db, c, req, ids)
  {
    var db1, list := WithoutGrant(db, req.vault, Revoked(db, req)), StoreShares(req.shares, req.vault);
    PrefixOfReferable(db1, list, |list|);
    ReachesAll(Shared(db1, list, |list|), Pushes(req.files, req.vault, c), ids);
  }
}
