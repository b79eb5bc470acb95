/** What a key rotation means for who can read what: in its middle, when it is done, and where a caller
    does what the client does not keep anyone from doing. */
module KeyRotation {
  import opened Common
  import opened Crypto
  import opened Schema
  import opened Lookup
  import opened FileStore
  import opened VaultStore
  import opened Directory
  import opened VaultHandlers
  import opened VaultClient
  import opened Server
  import opened Cascade
  import opened Revocation
  import opened KeyProtocol

  /** Every active device of the user has a share of this version. */
  ghost predicate AllHaveShares(db: Db, u: UserId, shares: Shares, v: VaultId, kv: int) {
    forall d :: BelongsTo(db, d, u) && db.devices[d].status == ActiveDevice ==> ShareKey(v, d, kv) in shares
  }

  lemma AllGetShares(db1: Db, m: Db, ses: Session, newKey: VaultKey, req: RevokeCall, i: nat, kv: int)
    requires Valid(db1.ft) && Between(db1, ses.caller, req, i, m) && i >= |req.shares|
    requires SealsToActive(db1, ses.caller.user, newKey, kv, req.shares)
    ensures AllHaveShares(db1, ses.caller.user, m.shares, req.vault, kv)
  {
    forall d | BelongsTo(db1, d, ses.caller.user) && db1.devices[d].status == ActiveDevice
      ensures ShareKey(req.vault, d, kv) in m.shares
    {
      ShareArrives(db1, req.shares, req.vault, kv, ses.caller.user, newKey, d);
    }
  }

  /** Another session of the same user, on an active device. */
  predicate Fellow(db: Db, ses: Session, ses': Session) {
    OwnBox(db, ses') && ActiveAuthed(db, ses'.caller) && ses'.caller.user == ses.caller.user
  }

  lemma NoHigherShare(m: Db, keys: KeyBook, keys': KeyBook, v: VaultId, ses': Session, next: int, newKey: VaultKey)
    requires KeyInv(m, keys') && OwnBox(m, ses') && keys' == keys[KeyName(v, next) := newKey]
    requires IsTop(keys, v, next - 1)
    requires ShareKey(v, ses'.caller.device, next) in m.shares
    ensures Held(m.shares, v, ses') == Some(HeldKey(next, newKey))
  {
    HeldIsTheKey(m, keys', v, ses');
  }

  /** A fellow session is not touched by the revocation of another user. */
  lemma FellowStays(db: Db, m: Db, v: VaultId, t: UserId, ses: Session, ses': Session)
    requires SameBut(db, m) && m.grants == db.grants - {GrantKey(v, t)}
    requires Fellow(db, ses, ses') && HasAccess(db, v, ses.caller.user) && t != ses.caller.user
    ensures OwnBox(m, ses') && Fetched(m, v, ses') == Held(m.shares, v, ses')
  {
  }

  /** A state of a rotation in which all shares are in. */
  ghost predicate Mid(db: Db, keys: KeyBook, ses: Session, newKey: VaultKey, req: RevokeCall, i: nat, m: Db)
    requires Valid(db.ft) && Fetched(db, req.vault, ses).Some? && MayRevoke(db, ses.caller, req)
  {
    && KeyInv(m, NextKeys(db, keys, ses, newKey, req.vault))
    && SameBut(db, m) && m.grants == db.grants - {GrantKey(req.vault, Revoked(db, req))}
    && AllHaveShares(db, ses.caller.user, m.shares, req.vault, NextVersion(db, ses, req.vault))
    && FilesBetween(db.ft, m.ft, ses.caller, req, i)
  }

  lemma MidFromBetween(db: Db, keys: KeyBook, ses: Session, newKey: VaultKey, req: RevokeCall, i: nat, m: Db)
    requires Valid(db.ft) && Fetched(db, req.vault, ses).Some? && MayRevoke(db, ses.caller, req)
    requires KeyInv(m, NextKeys(db, keys, ses, newKey, req.vault)) && i >= |req.shares|
    requires Between(WithoutGrant(db, req.vault, Revoked(db, req)), ses.caller, req, i, m)
    requires SealsToActive(db, ses.caller.user, newKey, NextVersion(db, ses, req.vault), req.shares)
    ensures Mid(db, keys, ses, newKey, req, i, m)
  {
    var db1 := WithoutGrant(db, req.vault, Revoked(db, req));
    AllGetShares(db1, m, ses, newKey, req, i, NextVersion(db, ses, req.vault));
    assert forall d :: BelongsTo(db, d, ses.caller.user) ==> BelongsTo(db1, d, ses.caller.user);
  }

  lemma MidOfRotation(db: Db, keys: KeyBook, ses: Session, newKey: VaultKey, req: RevokeCall, ids: nat -> FileId,
                      i: nat)
    requires ProperRotation(db, keys, ses, newKey, req) && |req.shares| <= i <= RevokeReach(db, ses.caller, req, ids)
    ensures Mid(db, keys, ses, newKey, req, i, RevokeState(db, ses.caller, req, ids, i))
  {
    ProperIsFree(db, keys, ses, newKey, req);
    RotatingKeepsKeys(db, keys, ses, newKey, req, ids, i);
    ReEncryptedRowsOk(db, keys, ses, newKey, req);
    PointOfRotation(WithoutGrant(db, req.vault, Revoked(db, req)), ses.caller, req, ids, i);
    MidFromBetween(db, keys, ses, newKey, req, i, RevokeState(db, ses.caller, req, ids, i));
  }

  /** Once the new shares are in, every active device of the caller fetches the new key. */
  lemma CallersFetchTheNewKey(db: Db, keys: KeyBook, ses: Session, newKey: VaultKey, req: RevokeCall, i: nat, m: Db,
                              ses': Session)
    requires ProperRotation(db, keys, ses, newKey, req) && Mid(db, keys, ses, newKey, req, i, m)
    requires Fellow(db, ses, ses')
    ensures Fetched(m, req.vault, ses') == Some(HeldKey(NextVersion(db, ses, req.vault), newKey))
  {
    FellowStays(db, m, req.vault, Revoked(db, req), ses, ses');
    assert BelongsTo(db, ses'.caller.device, ses.caller.user);
    NoHigherShare(m, keys, NextKeys(db, keys, ses, newKey, req.vault), req.vault, ses', NextVersion(db, ses,
                  req.vault), newKey);
  }

  predicate PathIn(files: seq<FilePush>, n: nat, path: string)
    requires n <= |files|
  {
    exists j :: 0 <= j < n && files[j].path == path
  }

  /** The log of a file between: longer by its re-encryption, or as it was. */
  lemma LogBetween(t: FileTables, t': FileTables, c: Caller, req: RevokeCall, i: nat, path: string)
    requires Valid(t) && FilesBetween(t, t', c, req, i)
    ensures var k := FileKey(req.vault, path);
      if PathIn(req.files, FilesIn(req, i), path) then
        exists j :: 0 <= j < FilesIn(req, i) && req.files[j].path == path
                    && LogOf(t', k) == LogOf(t, k) + [Pushes(req.files, req.vault, c)[j].Row()]
      else LogOf(t', k) == LogOf(t, k)
  {
    var pushes, k := Pushes(req.files, req.vault, c), FileKey(req.vault, path);
    if PathIn(req.files, FilesIn(req, i), path) {
      var j :| 0 <= j < FilesIn(req, i) && req.files[j].path == path;
      assert LogOf(t', pushes[j].key) == LogOf(t, pushes[j].key) + [pushes[j].Row()];
    } else {
      assert k !in KeysPushed(pushes, FilesIn(req, i));
    }
  }

  lemma RebuiltCovers(t: FileTables, v: VaultId, oldKey: VaultKey, newKey: VaultKey, kv: int, files: seq<FilePush>,
                      path: string)
    requires Valid(t) && Rebuilt(t, v, oldKey, newKey, kv, files) && Live(LogOf(t, FileKey(v, path)))
    ensures PathIn(files, |files|, path)
    ensures forall j :: 0 <= j < |files| && files[j].path == path ==> ReEncrypts(t, v, oldKey, newKey, kv, files[j])
  {
  }

  /** Pulling in two states, when it gets as far as the file's log in both. */
  lemma PullsCompared(db: Db, m: Db, v: VaultId, ses: Session, ses': Session, path: string, held: HeldKey,
                      held': HeldKey, same: bool)
    requires Valid(db.ft) && Fetched(db, v, ses) == Some(held) && Valid(m.ft) && Fetched(m, v, ses') == Some(held')
    requires path != ""
    requires var log, log' := LogOf(db.ft, FileKey(v, path)), LogOf(m.ft, FileKey(v, path));
      && Live(log) && Live(log') && DecryptBlob(held.key, log[|log| - 1].blob).Some?
      && DecryptBlob(held'.key, log'[|log'| - 1].blob) ==
          if same then DecryptBlob(held.key, log[|log| - 1].blob) else None
    ensures PullAction(db, v, ses, path).Some?
    ensures PullAction(m, v, ses', path) == if same then PullAction(db, v, ses, path) else None
  {
  }

  lemma LatestIsNotUnderTheNewKey(keys: KeyBook, newKey: VaultKey, v: VaultId, log: Log)
    requires LogOk(keys, v, log) && IsNew(keys, newKey) && log != []
    ensures DecryptBlob(newKey, log[|log| - 1].blob).None?
  {
    assert RowOk(keys, v, log[|log| - 1]);
  }

  /** The end of the log of a file between, and whether the new key opens it. */
  lemma LatestBetween(t: FileTables, t': FileTables, c: Caller, req: RevokeCall, i: nat, oldKey: VaultKey,
                      newKey: VaultKey, kv: int, path: string)
    requires Valid(t) && FilesBetween(t, t', c, req, i) && Rebuilt(t, req.vault, oldKey, newKey, kv, req.files)
    requires var log := LogOf(t, FileKey(req.vault, path)); Live(log) && DecryptBlob(newKey, log[|log| - 1].blob).None?
    ensures var log, log' := LogOf(t, FileKey(req.vault, path)), LogOf(t', FileKey(req.vault, path));
      && path != "" && Live(log') && DecryptBlob(oldKey, log[|log| - 1].blob).Some?
      && DecryptBlob(newKey, log'[|log'| - 1].blob) ==
          if PathIn(req.files, FilesIn(req, i), path) then DecryptBlob(oldKey, log[|log| - 1].blob) else None
  {
    RebuiltCovers(t, req.vault, oldKey, newKey, kv, req.files, path);
    assert exists at ::
      && 0 <= at < |req.files| && req.files[at].path == path
      && ReEncrypts(t, req.vault, oldKey, newKey, kv, req.files[at]);
    LogBetween(t, t', c, req, i, path);
  }

  lemma PullBetween(db: Db, m: Db, keys: KeyBook, ses: Session, ses': Session, req: RevokeCall, i: nat,
                    held: HeldKey, held': HeldKey, path: string)
    requires Valid(db.ft) && FilesBetween(db.ft, m.ft, ses.caller, req, i)
    requires Rebuilt(db.ft, req.vault, held.key, held'.key, held'.version, req.files)
    requires Fetched(db, req.vault, ses) == Some(held) && Fetched(m, req.vault, ses') == Some(held')
    requires IsNew(keys, held'.key) && LogOk(keys, req.vault, LogOf(db.ft, FileKey(req.vault, path)))
    requires Live(LogOf(db.ft, FileKey(req.vault, path)))
    ensures PullAction(db, req.vault, ses, path).Some?
    ensures PullAction(m, req.vault, ses', path) ==
      if PathIn(req.files, FilesIn(req, i), path) then PullAction(db, req.vault, ses, path) else None
  {
    LatestIsNotUnderTheNewKey(keys, held'.key, req.vault, LogOf(db.ft, FileKey(req.vault, path)));
    LatestBetween(db.ft, m.ft, ses.caller, req, i, held.key, held'.key, held'.version, path);
    PullsCompared(db, m, req.vault, ses, ses', path, held, held', PathIn(req.files, FilesIn(req, i), path));
  }

  /** In the middle of a rotation, with the shares in, the caller's devices pull exactly the files that
      have been pushed already, with the plaintext they had before; the others are stranded until they
      are pushed too, since only the newest key is tried. */
  lemma PullInMidRotation(db: Db, keys: KeyBook, ses: Session, newKey: VaultKey, req: RevokeCall, i: nat, m: Db,
                          ses': Session, path: string)
    requires ProperRotation(db, keys, ses, newKey, req) && Mid(db, keys, ses, newKey, req, i, m)
    requires Fellow(db, ses, ses')
    requires Live(LogOf(db.ft, FileKey(req.vault, path)))
    ensures Valid(m.ft) && FilesIn(req, i) <= |req.files| && PullAction(db, req.vault, ses, path).Some?
    ensures PullAction(m, req.vault, ses', path) ==
      if PathIn(req.files, FilesIn(req, i), path) then PullAction(db, req.vault, ses, path) else None
  {
    CallersFetchTheNewKey(db, keys, ses, newKey, req, i, m, ses');
    assert LogOk(keys, FileKey(req.vault, path).vault, LogOf(db.ft, FileKey(req.vault, path)));
    PullBetween(db, m, keys, ses, ses', req, i, Fetched(db, req.vault, ses).value, HeldKey(NextVersion(db, ses,
                req.vault), newKey), path);
  }

  lemma AuditIsNotRead(m: Db, db': Db, v: VaultId, ses: Session, path: string)
    requires SameButAudit(m, db') && Valid(m.ft)
    ensures PullAction(db', v, ses, path) == PullAction(m, v, ses, path)
  {
  }

  lemma CompletedLog(t: FileTables, t': FileTables, c: Caller, req: RevokeCall, oldKey: VaultKey, newKey: VaultKey,
                     kv: int, path: string)
    requires Valid(t) && FilesBetween(t, t', c, req, |req.shares| + |req.files|)
    requires Rebuilt(t, req.vault, oldKey, newKey, kv, req.files)
    requires Live(LogOf(t, FileKey(req.vault, path)))
    ensures PathIn(req.files, |req.files|, path)
    ensures var log' := LogOf(t', FileKey(req.vault, path));
      Live(log') && |log'| == |LogOf(t, FileKey(req.vault, path))| + 1
  {
    RebuiltCovers(t, req.vault, oldKey, newKey, kv, req.files, path);
    LogBetween(t, t', c, req, |req.shares| + |req.files|, path);
  }

  lemma CompletedFile(db: Db, keys: KeyBook, ses: Session, newKey: VaultKey, req: RevokeCall, m: Db, path: string)
    requires ProperRotation(db, keys, ses, newKey, req)
    requires Mid(db, keys, ses, newKey, req, |req.shares| + |req.files|, m)
    requires Live(LogOf(db.ft, FileKey(req.vault, path)))
    ensures PathIn(req.files, |req.files|, path)
    ensures var log' := LogOf(m.ft, FileKey(req.vault, path));
      Live(log') && |log'| == |LogOf(db.ft, FileKey(req.vault, path))| + 1
  {
    CompletedLog(db.ft, m.ft, ses.caller, req, Fetched(db, req.vault, ses).value.key, newKey, NextVersion(db, ses,
                 req.vault), path);
  }

  lemma CompletedPull(db: Db, keys: KeyBook, ses: Session, newKey: VaultKey, req: RevokeCall, m: Db, ses': Session,
                      path: string)
    requires ProperRotation(db, keys, ses, newKey, req)
    requires Mid(db, keys, ses, newKey, req, |req.shares| + |req.files|, m)
    requires Fellow(db, ses, ses') && Live(LogOf(db.ft, FileKey(req.vault, path)))
    requires PathIn(req.files, |req.files|, path)
    ensures PullAction(db, req.vault, ses, path).Some?
    ensures PullAction(m, req.vault, ses', path) == PullAction(db, req.vault, ses, path)
  {
    PullInMidRotation(db, keys, ses, newKey, req, |req.shares| + |req.files|, m, ses', path);
  }

  lemma LastState(db: Db, keys: KeyBook, ses: Session, newKey: VaultKey, req: RevokeCall,
                  ids: nat -> FileId) returns (m: Db)
    requires ProperRotation(db, keys, ses, newKey, req) && RevokeCompletes(db, ses.caller, req, ids)
    ensures m == RevokeState(db, ses.caller, req, ids, RevokeReach(db, ses.caller, req, ids))
    ensures Mid(db, keys, ses, newKey, req, |req.shares| + |req.files|, m)
  {
    m := RevokeState(db, ses.caller, req, ids, RevokeReach(db, ses.caller, req, ids));
    MidOfRotation(db, keys, ses, newKey, req, ids, RevokeReach(db, ses.caller, req, ids));
  }

  lemma CompletedIsMid(db: Db, keys: KeyBook, ses: Session, newKey: VaultKey, req: RevokeCall, ids: nat -> FileId,
                       at: int, db': Db) returns (m: Db)
    requires ProperRotation(db, keys, ses, newKey, req) && RevokeCompletes(db, ses.caller, req, ids)
    requires db' == RevokeRequest(db, ses.caller, req, ids, at).db
    ensures Mid(db, keys, ses, newKey, req, |req.shares| + |req.files|, m) && SameButAudit(m, db')
  {
    m := LastState(db, keys, ses, newKey, req, ids);
    RevokedLast(db, ses.caller, req, ids, at);
  }

  /** The revocation of another user by a device with the vault's highest version goes through, and every
      file that was live is live, one version longer, and every active device of the caller's pulls the
      plaintext of its latest version, whatever ids come up. */
  lemma RotationKeepsPlaintexts(db: Db, keys: KeyBook, ses: Session, newKey: VaultKey, req: RevokeCall,
                                ids: nat -> FileId, at: int, ses': Session, path: string)
    requires ProperRotation(db, keys, ses, newKey, req)
    requires Fellow(db, ses, ses') && Live(LogOf(db.ft, FileKey(req.vault, path)))
    ensures var reply, k := RevokeRequest(db, ses.caller, req, ids, at), FileKey(req.vault, path);
      && reply.answer.Some?
      && Valid(reply.db.ft) && Live(LogOf(reply.db.ft, k)) && |LogOf(reply.db.ft, k)| == |LogOf(db.ft, k)| + 1
      && PullAction(db, req.vault, ses, path).Some?
      && PullAction(reply.db, req.vault, ses', path) == PullAction(db, req.vault, ses, path)
  {
    var db' := RevokeRequest(db, ses.caller, req, ids, at).db;
    RotationGoesThroughIff(db, ses, req.vault, req.username, req.team, newKey, req, ids, at);
    var m := CompletedIsMid(db, keys, ses, newKey, req, ids, at, db');
    CompletedFile(db, keys, ses, newKey, req, m, path);
    CompletedPull(db, keys, ses, newKey, req, m, ses', path);
    AuditIsNotRead(m, db', req.vault, ses', path);
  }

  lemma NoRowAboveTop(keys: KeyBook, v: VaultId, log: Log, top: int)
    requires LogOk(keys, v, log) && IsTop(keys, v, top)
    ensures forall i :: 0 <= i < |log| ==> log[i].keyVersion <= top
  {
    assert forall i :: 0 <= i < |log| ==> RowOk(keys, v, log[i]);
  }

  lemma OtherVersionFails(m: Db, keys: KeyBook, v: VaultId, ses: Session, path: string, version: int, held: HeldKey)
    requires KeyInv(m, keys) && OwnBox(m, ses) && Fetched(m, v, ses) == Some(held)
    requires var log := LogOf(m.ft, FileKey(v, path));
      1 <= version <= |log| && log[version - 1].keyVersion != held.version
    ensures CheckoutAction(m, v, ses, path, version) == None
  {
    if path != "" {
      CheckoutDecryptsIff(m, keys, v, ses, path, version);
    }
  }

  /** With a rotation's shares in, no version stored before it can be checked out by the caller's devices. */
  lemma EarlierCheckoutsFail(db: Db, keys: KeyBook, ses: Session, newKey: VaultKey, req: RevokeCall, i: nat, m: Db,
                             ses': Session, path: string, version: int)
    requires ProperRotation(db, keys, ses, newKey, req) && Mid(db, keys, ses, newKey, req, i, m)
    requires Fellow(db, ses, ses')
    requires 1 <= version <= |LogOf(db.ft, FileKey(req.vault, path))|
    ensures Valid(m.ft) && CheckoutAction(m, req.vault, ses', path, version) == None
  {
    var v, next, log := req.vault, NextVersion(db, ses, req.vault), LogOf(db.ft, FileKey(req.vault, path));
    CallersFetchTheNewKey(db, keys, ses, newKey, req, i, m, ses');
    assert LogOk(keys, FileKey(v, path).vault, log);
    NoRowAboveTop(keys, v, log, Fetched(db, v, ses).value.version);
    LogBetween(db.ft, m.ft, ses.caller, req, i, path);
    assert log[version - 1].keyVersion < next;
    OtherVersionFails(m, NextKeys(db, keys, ses, newKey, v), v, ses', path, version, HeldKey(next, newKey));
  }

  /** The request a client builds seals and encrypts as Revocation asks of it. */
  lemma ClientReseals(db: Db, keys: KeyBook, ses: Session, newKey: VaultKey, req: RevokeCall, d: DeviceId)
    requires ProperRotation(db, keys, ses, newKey, req) && BelongsTo(db, d, ses.caller.user)
    requires db.devices[d].status == ActiveDevice
    ensures Reseals(db, req, d, NextVersion(db, ses, req.vault), newKey)
    ensures forall j :: 0 <= j < |req.shares| ==>
      req.shares[j].vault.None? && BelongsTo(db, req.shares[j].device, ses.caller.user)
  {
    var next := NextVersion(db, ses, req.vault);
    NextKeysAreDistinct(db, keys, ses, newKey, req);
    assert ShareKey(req.vault, d, next) in db.shares ==>
      ShareOk(db.devices, db.grants, keys, ShareKey(req.vault, d, next), db.shares[ShareKey(req.vault, d, next)]);
    assert forall j :: 0 <= j < |req.shares| ==> SealsTo(db, ses.caller.user, newKey, next, req.shares[j]);
    var at :| 0 <= at < |req.shares| && req.shares[at].device == d;
    assert ToStore(req.shares[at], req.vault).Key() == ShareKey(req.vault, d, next);
    forall j | 0 <= j < |req.files|
      ensures DecryptBlob(newKey, req.files[j].blob).Some?
    {
      assert ReEncrypts(db.ft, req.vault, Fetched(db, req.vault, ses).value.key, newKey, next, req.files[j]);
    }
  }

  /** At every point of a rotation, finished or not: the target has no grant and no share, any file is as
      it was or one version longer, and every active device of the caller's has a share for any file it
      had one for before. */
  lemma RotationAtEveryPoint(db: Db, keys: KeyBook, ses: Session, newKey: VaultKey, req: RevokeCall,
                             ids: nat -> FileId, i: nat, d: DeviceId, k: FileKey)
    requires ProperRotation(db, keys, ses, newKey, req) && i <= RevokeReach(db, ses.caller, req, ids)
    requires BelongsTo(db, d, ses.caller.user) && db.devices[d].status == ActiveDevice
    ensures var m, t := RevokeState(db, ses.caller, req, ids, i), Revoked(db, req);
      && GrantKey(req.vault, t) !in m.grants && !HasShare(m, req.vault, t)
      && Valid(m.ft) && LogOf(db.ft, k) <= LogOf(m.ft, k) && |LogOf(m.ft, k)| <= |LogOf(db.ft, k)| + 1
      && (k.vault == req.vault && CanOpen(db, d, k) ==> CanOpen(m, d, k))
  {
    ClientReseals(db, keys, ses, newKey, req, d);
    ReEncryptedRowsOk(db, keys, ses, newKey, req);
    EveryPointOfARevocation(db, ses.caller, req, ids, i, d, NextVersion(db, ses, req.vault), newKey, k);
  }

  // ---------------------------------------------------------------- where the protocol does not hold

  /** Every share is of a device whose owner has a grant. */
  ghost predicate SharesHaveGrants(db: Db) {
    forall k :: k in db.shares ==> k.device in db.devices && GrantKey(k.vault, db.devices[k.device].user) in db.grants
  }

  lemma AllAreGranted(db: Db, keys: KeyBook)
    requires SharesOk(db, keys)
    ensures SharesHaveGrants(db)
  {
    assert forall k :: k in db.shares ==> ShareOk(db.devices, db.grants, keys, k, db.shares[k]);
  }

  /** Shares of granted users' devices, without those of one user, and with some of another's. */
  lemma GrantsBetween(db: Db, m: Db, v: VaultId, t: UserId, u: UserId, list: seq<WireShare>, n: nat)
    requires SharesHaveGrants(db) && n <= |list| && GrantKey(v, u) in db.grants && t != u
    requires forall i :: 0 <= i < |list| ==> list[i].vault.None? && BelongsTo(db, list[i].device, u)
    requires SameBut(db, m) && m.grants == WithoutGrant(db, v, t).grants
    requires m.shares == InsertShares(WithoutGrant(db, v, t).shares, StoreShares(list, v)[..n])
    ensures SharesHaveGrants(m)
  {
    var stored := StoreShares(list, v)[..n];
    InsertedShares(WithoutGrant(db, v, t).shares, stored);
    forall k | k in m.shares
      ensures k.device in m.devices && GrantKey(k.vault, m.devices[k.device].user) in m.grants
    {
      if k !in WithoutGrant(db, v, t).shares {
        var i :| 0 <= i < |stored| && stored[i].Key() == k;
        assert BelongsTo(db, list[i].device, u) && list[i].vault.None?;
      }
    }
  }

  /** Of a user without a grant, one active device with a share is one too many. */
  lemma ShareWithoutGrant(db1: Db, m: Db, ses: Session, newKey: VaultKey, req: RevokeCall, i: nat, kv: int)
    requires Valid(db1.ft) && Between(db1, ses.caller, req, i, m) && i >= |req.shares|
    requires SealsToActive(db1, ses.caller.user, newKey, kv, req.shares) && ActiveAuthed(db1, ses.caller)
    requires GrantKey(req.vault, ses.caller.user) !in db1.grants
    ensures !SharesHaveGrants(m)
  {
    AllGetShares(db1, m, ses, newKey, req, i, kv);
    assert BelongsTo(db1, ses.caller.device, ses.caller.user);
  }

  lemma GrantedBetween(db: Db, keys: KeyBook, ses: Session, newKey: VaultKey, req: RevokeCall, i: nat, m: Db, next: int)
    requires Valid(db.ft) && SharesOk(db, keys) && MayRevoke(db, ses.caller, req)
    requires HasAccess(db, req.vault, ses.caller.user)
    requires SealsToActive(db, ses.caller.user, newKey, next, req.shares)
    requires Between(WithoutGrant(db, req.vault, Revoked(db, req)), ses.caller, req, i, m) && i >= |req.shares|
    ensures SharesHaveGrants(m) <==> Revoked(db, req) != ses.caller.user
  {
    var t, u := Revoked(db, req), ses.caller.user;
    if t != u {
      AllAreGranted(db, keys);
      assert forall j :: 0 <= j < |req.shares| ==> SealsTo(db, u, newKey, next, req.shares[j]);
      GrantsBetween(db, m, req.vault, t, u, req.shares, SharesIn(req, i));
    } else {
      ShareWithoutGrant(WithoutGrant(db, req.vault, t), m, ses, newKey, req, i, next);
    }
  }

  /** A rotation leaves every share with a granted owner if and only if the caller revokes someone else:
      revoking oneself ends with new shares for one's own devices and no grant. */
  lemma SelfRevocationIff(db: Db, keys: KeyBook, ses: Session, newKey: VaultKey, req: RevokeCall, ids: nat -> FileId,
                          i: nat)
    requires SharesOk(db, keys) && Rotating(db, ses, req.vault, req.username, req.team, newKey, req)
    requires MayRevoke(db, ses.caller, req)
    requires |req.shares| <= i <= RevokeReach(db, ses.caller, req, ids)
    ensures SharesHaveGrants(RevokeState(db, ses.caller, req, ids, i)) <==> Revoked(db, req) != ses.caller.user
  {
    PointOfRotation(WithoutGrant(db, req.vault, Revoked(db, req)), ses.caller, req, ids, i);
    GrantedBetween(db, keys, ses, newKey, req, i, RevokeState(db, ses.caller, req, ids, i), NextVersion(db, ses,
                   req.vault));
  }

  /** All shares of a vault and version seal the same key. */
  ghost predicate OneKeyPerVersion(shares: Shares) {
    forall k, k' :: k in shares && k' in shares && k.vault == k'.vault && k.keyVersion == k'.keyVersion ==>
      shares[k].SealedBox? && shares[k'].SealedBox? ==> shares[k].key == shares[k'].key
  }

  lemma OneKeyBefore(db: Db, keys: KeyBook, newKey: VaultKey)
    requires SharesOk(db, keys) && IsNew(keys, newKey)
    ensures OneKeyPerVersion(db.shares)
    ensures forall k :: k in db.shares ==> db.shares[k].SealedBox? && db.shares[k].key != newKey
  {
    assert forall k :: k in db.shares ==> ShareOk(db.devices, db.grants, keys, k, db.shares[k]);
  }

  lemma NewSharesSealTheKey(shares: Shares, db1: Db, u: UserId, newKey: VaultKey, v: VaultId, kv: int,
                            list: seq<WireShare>, n: nat)
    requires n <= |list| && forall j :: 0 <= j < |list| ==> SealsTo(db1, u, newKey, kv, list[j])
    ensures var shares' := InsertShares(shares, StoreShares(list, v)[..n]);
      && (forall k :: k in shares ==> k in shares' && shares'[k] == shares[k])
      && (forall k :: k in shares' && k !in shares ==>
            k.vault == v && k.keyVersion == kv && shares'[k].SealedBox? && shares'[k].key == newKey)
  {
    var stored := StoreShares(list, v)[..n];
    InsertedShares(shares, stored);
    forall k | k in InsertShares(shares, stored) && k !in shares
      ensures k.vault == v && k.keyVersion == kv
      ensures InsertShares(shares, stored)[k] == SealVaultKey(newKey, db1.devices[k.device].boxPub)
    {
      var j :| 0 <= j < |stored| && stored[j].Key() == k && stored[j].sealed == InsertShares(shares, stored)[k];
      assert SealsTo(db1, u, newKey, kv, list[j]);
    }
  }

  /** Adding a share under a key no other share seals keeps one key per version if the version is unused. */
  lemma OneKeyWithNewShares(shares: Shares, shares': Shares, newKey: VaultKey, v: VaultId, kv: int, k0: ShareKey)
    requires OneKeyPerVersion(shares)
    requires forall k :: k in shares ==>
      shares[k].SealedBox? && shares[k].key != newKey && k in shares' && shares'[k] == shares[k]
    requires forall k :: k in shares' && k !in shares ==>
      k.vault == v && k.keyVersion == kv && shares'[k].SealedBox? && shares'[k].key == newKey
    requires k0 in shares' && k0 !in shares
    ensures OneKeyPerVersion(shares') <==> Unused(shares, v, kv)
  {
  }

  lemma OneKeyBetween(db1: Db, keys: KeyBook, ses: Session, newKey: VaultKey, req: RevokeCall, i: nat, m: Db, next: int)
    requires Valid(db1.ft) && SharesOk(db1, keys) && IsNew(keys, newKey) && i >= |req.shares|
    requires SealsToActive(db1, ses.caller.user, newKey, next, req.shares) && ActiveAuthed(db1, ses.caller)
    requires ShareKey(req.vault, ses.caller.device, next) !in db1.shares && Between(db1, ses.caller, req, i, m)
    ensures OneKeyPerVersion(m.shares) <==> Unused(db1.shares, req.vault, next)
  {
    OneKeyBefore(db1, keys, newKey);
    AllGetShares(db1, m, ses, newKey, req, i, next);
    assert BelongsTo(db1, ses.caller.device, ses.caller.user);
    NewSharesSealTheKey(db1.shares, db1, ses.caller.user, newKey, req.vault, next, req.shares, SharesIn(req, i));
    OneKeyWithNewShares(db1.shares, m.shares, newKey, req.vault, next, ShareKey(req.vault, ses.caller.device, next));
  }

  lemma NextShareIsMissing(db: Db, keys: KeyBook, v: VaultId, ses: Session)
    requires KeyInv(db, keys) && OwnBox(db, ses) && Fetched(db, v, ses).Some?
    ensures ShareKey(v, ses.caller.device, NextVersion(db, ses, v)) !in db.shares
  {
    HeldIsTheKey(db, keys, v, ses);
  }

  lemma OneKeyInRevocation(db: Db, keys: KeyBook, ses: Session, newKey: VaultKey, req: RevokeCall, i: nat, m: Db)
    requires KeyInv(db, keys) && OwnBox(db, ses) && IsNew(keys, newKey) && Fetched(db, req.vault, ses).Some?
    requires SealsToActive(db, ses.caller.user, newKey, NextVersion(db, ses, req.vault), req.shares)
    requires MayRevoke(db, ses.caller, req)
    requires Between(WithoutGrant(db, req.vault, Revoked(db, req)), ses.caller, req, i, m) && i >= |req.shares|
    ensures OneKeyPerVersion(m.shares) <==>
      Unused(WithoutGrant(db, req.vault, Revoked(db, req)).shares, req.vault, NextVersion(db, ses, req.vault))
  {
    NextShareIsMissing(db, keys, req.vault, ses);
    RevokedSharesOk(db, keys, keys, req.vault, Revoked(db, req));
    OneKeyBetween(WithoutGrant(db, req.vault, Revoked(db, req)), keys, ses, newKey, req, i, m, NextVersion(db, ses,
                  req.vault));
  }

  /** Of the shares alone: after a rotation each version names one key if and only if no share of the
      version after the device's highest is left when the target's are gone. */
  lemma RotationKeepsOneKeyPerVersionIff(db: Db, keys: KeyBook, ses: Session, newKey: VaultKey, req: RevokeCall,
                                         ids: nat -> FileId, i: nat)
    requires KeyInv(db, keys) && OwnBox(db, ses) && IsNew(keys, newKey)
    requires Rotating(db, ses, req.vault, req.username, req.team, newKey, req) && MayRevoke(db, ses.caller, req)
    requires |req.shares| <= i <= RevokeReach(db, ses.caller, req, ids)
    ensures OneKeyPerVersion(RevokeState(db, ses.caller, req, ids, i).shares) <==>
      Unused(WithoutGrant(db, req.vault, Revoked(db, req)).shares, req.vault, NextVersion(db, ses, req.vault))
  {
    PointOfRotation(WithoutGrant(db, req.vault, Revoked(db, req)), ses.caller, req, ids, i);
    OneKeyInRevocation(db, keys, ses, newKey, req, i, RevokeState(db, ses.caller, req, ids, i));
  }

  // ---------------------------------------------------------------- when a rotation keeps one key per version

  /** The two books agree on a name, as a share says that both have. */
  lemma ShareFixesItsKey(db: Db, m: Db, keys: KeyBook, keys': KeyBook, k: ShareKey)
    requires SharesOk(db, keys) && SharesOk(m, keys')
    requires k in db.shares && k in m.shares && m.shares[k] == db.shares[k]
    ensures var n := KeyName(k.vault, k.keyVersion); n in keys && n in keys' && keys'[n] == keys[n]
  {
    assert ShareOk(db.devices, db.grants, keys, k, db.shares[k]);
    assert ShareOk(m.devices, m.grants, keys', k, m.shares[k]);
  }

  /** So they do as a stored version says. */
  lemma RowFixesItsKey(t: FileTables, t': FileTables, keys: KeyBook, keys': KeyBook, k: FileKey, i: nat)
    requires FilesOk(t, keys) && FilesOk(t', keys') && LogOf(t, k) <= LogOf(t', k) && i < |LogOf(t, k)|
    ensures var n := KeyName(k.vault, LogOf(t, k)[i].keyVersion); n in keys && n in keys' && keys'[n] == keys[n]
  {
    assert LogOk(keys, k.vault, LogOf(t, k)) && RowOk(keys, k.vault, LogOf(t, k)[i]);
    assert LogOk(keys', k.vault, LogOf(t', k)) && RowOk(keys', k.vault, LogOf(t', k)[i]);
  }

  /** Whichever book fits once a share of the request is in, it has the new key under the next version,
      and the caller still has a grant. */
  lemma NewKeyIsNamed(db1: Db, m: Db, keys': KeyBook, u: UserId, newKey: VaultKey, v: VaultId, next: int,
                      list: seq<WireShare>, n: nat, k: ShareKey)
    requires n <= |list| && forall j :: 0 <= j < |list| ==> SealsTo(db1, u, newKey, next, list[j])
    requires m.shares == InsertShares(db1.shares, StoreShares(list, v)[..n]) && m.devices == db1.devices
    requires SharesOk(m, keys') && k in m.shares && k !in db1.shares
    ensures KeyName(v, next) in keys' && keys'[KeyName(v, next)] == newKey && GrantKey(v, u) in m.grants
  {
    var stored := StoreShares(list, v)[..n];
    InsertedShares(db1.shares, stored);
    var j :| 0 <= j < |stored| && stored[j].Key() == k && stored[j].sealed == m.shares[k];
    assert SealsTo(db1, u, newKey, next, list[j]);
    assert ShareOk(m.devices, m.grants, keys', k, m.shares[k]);
  }

  lemma NoShareIsLeft(db1: Db, m: Db, keys: KeyBook, keys': KeyBook, newKey: VaultKey, v: VaultId, next: int)
    requires SharesOk(db1, keys) && SharesOk(m, keys') && IsNew(keys, newKey)
    requires forall k :: k in db1.shares ==> k in m.shares && m.shares[k] == db1.shares[k]
    requires KeyName(v, next) in keys' && keys'[KeyName(v, next)] == newKey
    ensures Unused(db1.shares, v, next)
  {
    forall k | k in db1.shares
      ensures !(k.vault == v && k.keyVersion == next)
    {
      ShareFixesItsKey(db1, m, keys, keys', k);
    }
  }

  lemma NoRowIsLeft(t: FileTables, t': FileTables, keys: KeyBook, keys': KeyBook, newKey: VaultKey, v: VaultId,
                    next: int)
    requires FilesOk(t, keys) && FilesOk(t', keys') && IsNew(keys, newKey)
    requires forall k :: LogOf(t, k) <= LogOf(t', k)
    requires KeyName(v, next) in keys' && keys'[KeyName(v, next)] == newKey
    ensures NoRowUnder(t, v, next)
  {
    forall k: FileKey, i | k.vault == v && 0 <= i < |LogOf(t, k)|
      ensures LogOf(t, k)[i].keyVersion != next
    {
      RowFixesItsKey(t, t', keys, keys', k, i);
    }
  }

  lemma LogsOnlyGrow(db: Db, c: Caller, req: RevokeCall, i: nat, m: Db)
    requires Valid(db.ft) && MayRevoke(db, c, req) && Between(TargetGone(db, req), c, req, i, m)
    ensures Valid(m.ft) && forall k :: LogOf(db.ft, k) <= LogOf(m.ft, k)
  {
    forall k
      ensures LogOf(db.ft, k) <= LogOf(m.ft, k)
    {
      FilesGrowByOne(db, c, req, i, m, k);
    }
  }

  /** The caller's own device gets a share it did not have. */
  lemma OwnShareIsNew(db: Db, keys: KeyBook, ses: Session, newKey: VaultKey, req: RevokeCall, i: nat, m: Db, next: int)
    requires AnyRotation(db, keys, ses, newKey, req) && next == NextVersion(db, ses, req.vault)
    requires Between(TargetGone(db, req), ses.caller, req, i, m) && i >= |req.shares|
    ensures m.shares != TargetGone(db, req).shares
  {
    var db1, k := TargetGone(db, req), ShareKey(req.vault, ses.caller.device, next);
    NextShareIsMissing(db, keys, req.vault, ses);
    AllGetShares(db1, m, ses, newKey, req, i, next);
    assert BelongsTo(db1, ses.caller.device, ses.caller.user);
    assert k in m.shares && k !in db1.shares;
  }

  lemma SomeShareIsNew(db1: Db, m: Db, list: seq<KeyShare>) returns (k: ShareKey)
    requires m.shares == InsertShares(db1.shares, list) && m.shares != db1.shares
    ensures k in m.shares && k !in db1.shares
  {
    InsertedShares(db1.shares, list);
    assert !(m.shares.Keys <= db1.shares.Keys);
    k :| k in m.shares && k !in db1.shares;
  }

  /** If some book fits with a share of the request in, then someone else was revoked and the version was
      free. */
  lemma FittingBookNeedsFreeVersion(db: Db, keys: KeyBook, ses: Session, newKey: VaultKey, req: RevokeCall, i: nat,
                                    m: Db, keys': KeyBook, next: int)
    requires AnyRotation(db, keys, ses, newKey, req) && next == NextVersion(db, ses, req.vault)
    requires Between(TargetGone(db, req), ses.caller, req, i, m) && m.shares != TargetGone(db, req).shares
    requires KeyInv(m, keys')
    ensures NextIsFree(db, ses, req)
  {
    var db1, u, n := TargetGone(db, req), ses.caller.user, SharesIn(req, i);
    RevokedSharesOk(db, keys, keys, req.vault, Revoked(db, req));
    var k := SomeShareIsNew(db1, m, StoreShares(req.shares, req.vault)[..n]);
    assert forall j :: 0 <= j < |req.shares| ==> SealsTo(db, u, newKey, next, req.shares[j]);
    NewKeyIsNamed(db1, m, keys', u, newKey, req.vault, next, req.shares, n, k);
    NewSharesSealTheKey(db1.shares, db1, u, newKey, req.vault, next, req.shares, n);
    NoShareIsLeft(db1, m, keys, keys', newKey, req.vault, next);
    LogsOnlyGrow(db, ses.caller, req, i, m);
    NoRowIsLeft(db.ft, m.ft, keys, keys', newKey, req.vault, next);
  }

  /** As long as no share of the request is in, the old book fits. */
  lemma OldBookFits(db: Db, keys: KeyBook, ses: Session, newKey: VaultKey, req: RevokeCall, i: nat, m: Db)
    requires AnyRotation(db, keys, ses, newKey, req)
    requires Between(TargetGone(db, req), ses.caller, req, i, m) && m.shares == TargetGone(db, req).shares
    ensures KeyInv(m, keys)
  {
    var db1 := TargetGone(db, req);
    if i >= |req.shares| {
      OwnShareIsNew(db, keys, ses, newKey, req, i, m, NextVersion(db, ses, req.vault));
    }
    RevokedSharesOk(db, keys, keys, req.vault, Revoked(db, req));
    SharesStayOk(db1, m, keys, keys);
    FilesStayOk(db.ft, m.ft, keys, keys);
  }

  /** Some book of keys fits: a version names one key for shares and stored versions alike. */
  ghost predicate HasBook(db: Db) {
    exists keys :: KeyInv(db, keys)
  }

  lemma AuditHasNoKeys(m: Db, db': Db)
    requires SameButAudit(m, db')
    ensures HasBook(db') <==> HasBook(m)
  {
    assert forall keys :: KeyInv(m, keys) ==> KeyInv(db', keys);
    assert forall keys :: KeyInv(db', keys) ==> KeyInv(m, keys);
  }

  lemma HasBookIff(db: Db, keys: KeyBook, ses: Session, newKey: VaultKey, req: RevokeCall, i: nat, m: Db, next: int)
    requires AnyRotation(db, keys, ses, newKey, req) && next == NextVersion(db, ses, req.vault)
    requires Between(TargetGone(db, req), ses.caller, req, i, m)
    ensures HasBook(m) <==> m.shares == TargetGone(db, req).shares || NextIsFree(db, ses, req)
  {
    if m.shares == TargetGone(db, req).shares {
      OldBookFits(db, keys, ses, newKey, req, i, m);
    } else if HasBook(m) {
      var keys' :| KeyInv(m, keys');
      FittingBookNeedsFreeVersion(db, keys, ses, newKey, req, i, m, keys', next);
    }
    if NextIsFree(db, ses, req) {
      FreeVersionKeepsKeys(db, keys, ses, newKey, req, i, m);
    }
  }

  /** A rotation by a device without the vault's highest version can reuse a version that names another
      key.  At any point of it some book of keys fits if and only if no new share is in yet, or someone
      else is revoked, no share of the version after the device's highest is left when the target's are
      gone, and no stored version is under it.  Once all shares are in, some of them are new. */
  lemma RotationKeepsKeysIff(db: Db, keys: KeyBook, ses: Session, newKey: VaultKey, req: RevokeCall,
                             ids: nat -> FileId, i: nat)
    requires AnyRotation(db, keys, ses, newKey, req) && i <= RevokeReach(db, ses.caller, req, ids)
    ensures var m := RevokeState(db, ses.caller, req, ids, i);
      && (HasBook(m) <==> m.shares == TargetGone(db, req).shares || NextIsFree(db, ses, req))
      && (i >= |req.shares| ==> m.shares != TargetGone(db, req).shares)
  {
    var m, next := RevokeState(db, ses.caller, req, ids, i), NextVersion(db, ses, req.vault);
    PointOfRotation(TargetGone(db, req), ses.caller, req, ids, i);
    HasBookIff(db, keys, ses, newKey, req, i, m, next);
    if i >= |req.shares| {
      OwnShareIsNew(db, keys, ses, newKey, req, i, m, next);
    }
  }

  /** A completed rotation leaves a book that fits exactly if the version was free. */
  lemma CompletedKeepsKeysIff(db: Db, keys: KeyBook, ses: Session, newKey: VaultKey, req: RevokeCall,
                              ids: nat -> FileId, at: int)
    requires AnyRotation(db, keys, ses, newKey, req)
    requires RevokeRequest(db, ses.caller, req, ids, at).answer.Some?
    ensures HasBook(RevokeRequest(db, ses.caller, req, ids, at).db) <==> NextIsFree(db, ses, req)
  {
    var n := RevokeReach(db, ses.caller, req, ids);
    RevokedLast(db, ses.caller, req, ids, at);
    RotationKeepsKeysIff(db, keys, ses, newKey, req, ids, n);
    AuditHasNoKeys(RevokeState(db, ses.caller, req, ids, n), RevokeRequest(db, ses.caller, req, ids, at).db);
  }
}
