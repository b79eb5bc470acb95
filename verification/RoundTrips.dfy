/** What users get back of what they put in: pushes, removals, grants and rotations followed by pulls and
    checkouts, in any state and over runs. */
module RoundTrips {
  import opened Common
  import opened Crypto
  import opened Schema
  import opened Lookup
  import opened Guards
  import opened FileStore
  import opened VaultStore
  import opened Directory
  import opened VaultHandlers
  import opened VaultClient
  import opened Revocation
  import opened KeyProtocol
  import opened KeyRotation
  import Server
  import ServerRuns

  // ---------------------------------------------------------------- one push

  /** Nothing but one more version of one file, and the log of requests, has changed. */
  ghost predicate OneMore(db: Db, db': Db, k: FileKey, row: VersionRow)
    requires Valid(db.ft)
  {
    && db'.users == db.users && db'.devices == db.devices && db'.vaults == db.vaults && db'.grants == db.grants
    && db'.shares == db.shares && Valid(db'.ft)
    && LogOf(db'.ft, k) == LogOf(db.ft, k) + [row]
    && forall k' :: k' != k ==> LogOf(db'.ft, k') == LogOf(db.ft, k')
  }

  lemma PushRequestStores(db: Db, c: Caller, v: VaultId, f: FilePush, newId: FileId, at: int)
    requires Valid(db.ft) && PushRequest(db, c, v, f, newId, at).answer.Some?
    ensures var reply, row := PushRequest(db, c, v, f, newId, at),
                              VersionRow(f.keyVersion, f.blob, Size(f.blob), Some(c.device), f.deleted);
      && OneMore(db, reply.db, FileKey(v, f.path), row)
      && reply.answer.value == |LogOf(db.ft, FileKey(v, f.path))| + 1 && f.base == |LogOf(db.ft, FileKey(v, f.path))|
  {
    var a := f.Args(v, c);
    LatestIsLength(db.ft, a.key);
    OnePush(db, db.ft, a, newId);
  }

  /** An accepted push adds one version that is not deleted and encloses the plaintext, under the key the
      session holds. */
  lemma PushStores(db: Db, v: VaultId, ses: Session, path: string, plain: Bytes, nonce: nat, newId: FileId, at: int)
    returns (row: VersionRow)
    requires Valid(db.ft) && PushAction(db, v, ses, path, plain, nonce, newId, at).answer.Some?
    ensures OneMore(db, PushAction(db, v, ses, path, plain, nonce, newId, at).db, FileKey(v, path), row)
    ensures !row.deleted && row.blob.SecretBox? && row.blob.plain == plain && row.author == Some(ses.caller.device)
    ensures Fetched(db, v, ses) == Some(HeldKey(row.keyVersion, row.blob.key))
  {
    var held, log := Fetched(db, v, ses).value, LogOf(db.ft, FileKey(v, path));
    var f := FilePush(path, held.version, |log|, SecretBox(held.key, nonce, plain), false);
    PushRequestStores(db, ses.caller, v, f, newId, at);
    row := VersionRow(held.version, f.blob, Size(f.blob), Some(ses.caller.device), false);
  }

  lemma SameFetched(db: Db, db': Db, v: VaultId, ses: Session)
    requires db'.users == db.users && db'.devices == db.devices && db'.vaults == db.vaults && db'.grants == db.grants
    requires db'.shares == db.shares
    ensures Fetched(db', v, ses) == Fetched(db, v, ses)
    ensures FromHolder(db', ses.caller, v) <==> FromHolder(db, ses.caller, v)
  {
  }

  lemma PulledLatest(db: Db, v: VaultId, ses: Session, path: string, log: Log, row: VersionRow)
    requires Valid(db.ft) && FromHolder(db, ses.caller, v) && path != ""
      && LogOf(db.ft, FileKey(v, path)) == log + [row]
    ensures PulledRow(db, v, ses, path, 0) == Some(row)
  {
  }

  /** After an accepted push every session that holds the same key pulls exactly what was pushed. */
  lemma PushPullRoundTrip(db: Db, keys: KeyBook, v: VaultId, ses: Session, path: string, plain: Bytes, nonce: nat,
                          newId: FileId, at: int, ses': Session)
    requires KeyInv(db, keys) && OwnBox(db, ses) && OwnBox(db, ses')
    requires PushAction(db, v, ses, path, plain, nonce, newId, at).answer.Some?
    requires Fetched(db, v, ses').Some? && Fetched(db, v, ses').value.version == Fetched(db, v, ses).value.version
    ensures var db' := PushAction(db, v, ses, path, plain, nonce, newId, at).db;
      Valid(db'.ft) && PullAction(db', v, ses', path) == Some(plain)
  {
    var db' := PushAction(db, v, ses, path, plain, nonce, newId, at).db;
    var row := PushStores(db, v, ses, path, plain, nonce, newId, at);
    FetchesIff(db, keys, v, ses);
    FetchesIff(db, keys, v, ses');
    SameFetched(db, db', v, ses');
    PulledLatest(db', v, ses', path, LogOf(db.ft, FileKey(v, path)), row);
  }

  // ---------------------------------------------------------------- one removal

  /** An accepted removal adds one version that is deleted and encloses nothing. */
  lemma RmStores(db: Db, v: VaultId, ses: Session, path: string, nonce: nat, newId: FileId, at: int)
    returns (row: VersionRow)
    requires Valid(db.ft) && RmAction(db, v, ses, path, nonce, newId, at).answer.Some?
    ensures OneMore(db, RmAction(db, v, ses, path, nonce, newId, at).db, FileKey(v, path), row)
    ensures row.deleted && row.blob.SecretBox? && row.blob.plain == [] && row.author == Some(ses.caller.device)
    ensures Fetched(db, v, ses) == Some(HeldKey(row.keyVersion, row.blob.key))
  {
    var held, log := Fetched(db, v, ses).value, LogOf(db.ft, FileKey(v, path));
    var f := FilePush(path, held.version, |log|, SecretBox(held.key, nonce, []), true);
    PushRequestStores(db, ses.caller, v, f, newId, at);
    row := VersionRow(held.version, f.blob, Size(f.blob), Some(ses.caller.device), true);
  }

  lemma SameRow(db: Db, db': Db, v: VaultId, ses: Session, path: string, n: nat, row: VersionRow)
    requires Valid(db.ft) && OneMore(db, db', FileKey(v, path), row) && 1 <= n <= |LogOf(db.ft, FileKey(v, path))|
    ensures PulledRow(db', v, ses, path, n) == PulledRow(db, v, ses, path, n)
  {
  }

  /** After an accepted removal nobody pulls the file, and every earlier version is checked out as before. */
  lemma RemovalHidesTheFile(db: Db, v: VaultId, ses: Session, path: string, nonce: nat, newId: FileId, at: int,
                            ses': Session, n: nat)
    requires Valid(db.ft) && RmAction(db, v, ses, path, nonce, newId, at).answer.Some?
    ensures var db', k := RmAction(db, v, ses, path, nonce, newId, at).db, FileKey(v, path);
      && Valid(db'.ft) && !Live(LogOf(db'.ft, k)) && |LogOf(db'.ft, k)| == |LogOf(db.ft, k)| + 1
      && LogOf(db.ft, k) <= LogOf(db'.ft, k) && PullAction(db', v, ses', path) == None
      && (1 <= n <= |LogOf(db.ft, k)| ==> CheckoutAction(db', v, ses', path, n) == CheckoutAction(db, v, ses', path, n))
  {
    var db', k := RmAction(db, v, ses, path, nonce, newId, at).db, FileKey(v, path);
    var row := RmStores(db, v, ses, path, nonce, newId, at);
    SameFetched(db, db', v, ses');
    if FromHolder(db', ses'.caller, v) && path != "" {
      PulledLatest(db', v, ses', path, LogOf(db.ft, k), row);
    }
    if 1 <= n <= |LogOf(db.ft, k)| {
      SameRow(db, db', v, ses', path, n, row);
    }
  }

  // ---------------------------------------------------------------- grants

  /** Two sessions that fetch the same key pull the same from the same log. */
  lemma SameKeySamePull(db: Db, db': Db, v: VaultId, ses: Session, ses': Session, path: string)
    requires Valid(db.ft) && db'.ft == db.ft && Fetched(db', v, ses') == Fetched(db, v, ses)
    requires Fetched(db, v, ses).Some?
    ensures PullAction(db', v, ses', path) == PullAction(db, v, ses, path)
  {
  }

  /** In any state of any run: once an admin with the vault's highest key version has granted the vault to a
      user, every active device of the user's pulls every file as the admin's does. */
  lemma GrantSharesEveryFile(db0: Db, keys0: KeyBook, steps: seq<Timed>, db: Db, keys: KeyBook, ses: Session,
                             team: string, v: VaultId, username: string, list: seq<WireShare>, at: int, ses': Session,
                             path: string)
    requires KeyInv(db0, keys0) && Run(db0, keys0, steps, db, keys)
    requires KeyInv(db, keys) && OwnBox(db, ses) && Granting(db, ses, v, username, list)
    requires IsTop(keys, v, Fetched(db, v, ses).value.version)
    requires TeamAdminAuthed(db, ses.caller, team) && username != ""
    requires OwnBox(db, ses') && ActiveAuthed(db, ses'.caller) && ses'.caller.user == UserNamed(db, username).value
    ensures var reply := GrantRequest(db, ses.caller, team, v, username, list, at);
      reply.answer.Some? && Valid(reply.db.ft) && PullAction(reply.db, v, ses', path) == PullAction(db, v, ses, path)
  {
    var reply := GrantRequest(db, ses.caller, team, v, username, list, at);
    GrantReachesEveryDevice(db0, keys0, steps, db, keys, ses, team, v, username, list, at, ses');
    Server.GrantingFrame(db, ses.caller, team, v, username, list, at);
    SameKeySamePull(db, reply.db, v, ses, ses', path);
  }

  // ---------------------------------------------------------------- a rotation and the grants after it

  lemma NewTop(db: Db, keys: KeyBook, ses: Session, newKey: VaultKey, req: RevokeCall)
    requires ProperRotation(db, keys, ses, newKey, req)
    ensures IsTop(NextKeys(db, keys, ses, newKey, req.vault), req.vault, NextVersion(db, ses, req.vault))
  {
  }

  lemma SettledRotation(db: Db, keys: KeyBook, ses: Session, newKey: VaultKey, req: RevokeCall, m: Db, db': Db)
    requires ProperRotation(db, keys, ses, newKey, req) && SameButAudit(m, db')
    requires Mid(db, keys, ses, newKey, req, |req.shares| + |req.files|, m)
    ensures Fetched(db', req.vault, ses) == Some(HeldKey(NextVersion(db, ses, req.vault), newKey))
    ensures db'.users == db.users && db'.devices == db.devices && db'.vaults == db.vaults
    ensures db'.grants == db.grants - {GrantKey(req.vault, Revoked(db, req))}
  {
    CallersFetchTheNewKey(db, keys, ses, newKey, req, |req.shares| + |req.files|, m, ses);
    SameFetched(m, db', req.vault, ses);
  }

  lemma RotationKeepsOrder(db: Db, keys: KeyBook, ses: Session, newKey: VaultKey, req: RevokeCall, ids: nat -> FileId,
                           at: int)
    requires ProperRotation(db, keys, ses, newKey, req)
    ensures KeyInv(RevokeRequest(db, ses.caller, req, ids, at).db, NextKeys(db, keys, ses, newKey, req.vault))
  {
    ProperIsFree(db, keys, ses, newKey, req);
    RevokingKeepsKeys(db, keys, ses, newKey, req, ids, at);
  }

  /** The state after a rotation by a device with the highest version: the keys are in order, the caller's
      device holds the new one, which is the vault's highest, and the target's grant is gone. */
  lemma AfterRotation(db: Db, keys: KeyBook, ses: Session, newKey: VaultKey, req: RevokeCall, ids: nat -> FileId,
                      at: int, db': Db, keys': KeyBook)
    requires ProperRotation(db, keys, ses, newKey, req)
    requires db' == RevokeRequest(db, ses.caller, req, ids, at).db
    requires keys' == NextKeys(db, keys, ses, newKey, req.vault)
    ensures RevokeRequest(db, ses.caller, req, ids, at).answer.Some? && KeyInv(db', keys')
    ensures IsTop(keys', req.vault, NextVersion(db, ses, req.vault))
    ensures Fetched(db', req.vault, ses) == Some(HeldKey(NextVersion(db, ses, req.vault), newKey))
    ensures db'.users == db.users && db'.devices == db.devices && db'.vaults == db.vaults
    ensures db'.grants == db.grants - {GrantKey(req.vault, Revoked(db, req))}
  {
    RotationGoesThroughIff(db, ses, req.vault, req.username, req.team, newKey, req, ids, at);
    RotationKeepsOrder(db, keys, ses, newKey, req, ids, at);
    NewTop(db, keys, ses, newKey, req);
    var m := CompletedIsMid(db, keys, ses, newKey, req, ids, at, db');
    SettledRotation(db, keys, ses, newKey, req, m, db');
  }

  /** Others lose sight of the files by a rotation, for want of the new key; a grant gives it to them, though
      they have a grant already, and they pull what the files had before the rotation. */
  lemma RegrantRestoresPlaintexts(db: Db, keys: KeyBook, ses: Session, newKey: VaultKey, req: RevokeCall,
                                  ids: nat -> FileId, at: int, db': Db, team: string, username: string,
                                  list: seq<WireShare>, at': int, ses': Session, path: string)
    requires ProperRotation(db, keys, ses, newKey, req) && Live(LogOf(db.ft, FileKey(req.vault, path)))
    requires db' == RevokeRequest(db, ses.caller, req, ids, at).db
    requires Granting(db', ses, req.vault, username, list) && username != "" && TeamAdminAuthed(db', ses.caller, team)
    requires OwnBox(db', ses') && ActiveAuthed(db', ses'.caller) && ses'.caller.user == UserNamed(db', username).value
    ensures var reply := GrantRequest(db', ses.caller, team, req.vault, username, list, at');
      && reply.answer.Some? && Valid(reply.db.ft)
      && PullAction(db, req.vault, ses, path).Some?
      && PullAction(reply.db, req.vault, ses', path) == PullAction(db, req.vault, ses, path)
  {
    var keys' := NextKeys(db, keys, ses, newKey, req.vault);
    AfterRotation(db, keys, ses, newKey, req, ids, at, db', keys');
    RotationKeepsPlaintexts(db, keys, ses, newKey, req, ids, at, ses, path);
    assert Run(db', keys', [], db', keys');
    GrantSharesEveryFile(db', keys', [], db', keys', ses, team, req.vault, username, list, at', ses', path);
  }

  // ---------------------------------------------------------------- over runs of the server

  lemma AcceptedRow(states: seq<Db>, reqs: seq<ServerRuns.Timed>, i: nat, c: Caller, v: VaultId, f: FilePush,
                    newId: FileId, n: nat)
    requires ServerRuns.Run(states, reqs) && i < |reqs| && reqs[i].request == Server.Pushing(c, v, f, newId)
    requires PushRequest(states[i], c, v, f, newId, reqs[i].at).answer == Some(n)
    ensures Valid(states[i + 1].ft) && n >= 1
    ensures var log := LogOf(states[i + 1].ft, FileKey(v, f.path));
      |log| == n && log[n - 1] == VersionRow(f.keyVersion, f.blob, Size(f.blob), Some(c.device), f.deleted)
  {
    ServerRuns.RunKeepsServerInv(states, reqs, i);
    assert ServerRuns.Follows(states, reqs, i);
    PushRequestStores(states[i], c, v, f, newId, reqs[i].at);
  }

  lemma StillStored(t: FileTables, t': FileTables, k: FileKey, n: nat, row: VersionRow)
    requires Valid(t) && Valid(t') && ServerRuns.ExtendsIn(LogsOf(t), LogsOf(t'), k.vault)
    requires 1 <= n <= |LogOf(t, k)| && LogOf(t, k)[n - 1] == row
    ensures VersionOf(LogOf(t', k), n) == Some(row) && IsStored(t', k, n, Some(row))
  {
    LatestIsLength(t, k);
    assert k in LogsOf(t);
    assert LogOf(t, k) <= LogOf(t', k);
    VersionIsStored(t', k, n);
  }

  lemma ServedToHolders(db: Db, v: VaultId, ses: Session, path: string, n: nat, row: VersionRow)
    requires Valid(db.ft) && VersionOf(LogOf(db.ft, FileKey(v, path)), n) == Some(row)
    requires FromHolder(db, ses.caller, v) && path != ""
    ensures PulledRow(db, v, ses, path, n) == Some(row)
  {
  }

  lemma StoredStays(states: seq<Db>, reqs: seq<ServerRuns.Timed>, i: nat, j: nat, k: FileKey, n: nat, row: VersionRow)
    requires ServerRuns.Run(states, reqs) && i <= j <= |reqs| && ServerRuns.VaultStays(states, i, j, k.vault)
    requires Valid(states[i].ft) && 1 <= n <= |LogOf(states[i].ft, k)| && LogOf(states[i].ft, k)[n - 1] == row
    ensures Valid(states[j].ft) && VersionOf(LogOf(states[j].ft, k), n) == Some(row)
    ensures IsStored(states[j].ft, k, n, Some(row))
  {
    ServerRuns.StoredVersionsStayWithTheirVault(states, reqs, i, j, k.vault);
    StillStored(states[i].ft, states[j].ft, k, n, row);
  }

  /** What a push was accepted with as version n is what is stored as version n of the file, and sent to
      whoever may ask for it, at any later time at which the vault is still there. */
  lemma AcceptedVersionIsServed(states: seq<Db>, reqs: seq<ServerRuns.Timed>, i: nat, j: nat, c: Caller, v: VaultId,
                                f: FilePush, newId: FileId, n: nat, row: VersionRow, ses: Session)
    requires ServerRuns.Run(states, reqs) && i < j <= |reqs| && ServerRuns.VaultStays(states, i + 1, j, v)
    requires reqs[i].request == Server.Pushing(c, v, f, newId)
    requires PushRequest(states[i], c, v, f, newId, reqs[i].at).answer == Some(n)
    requires row == VersionRow(f.keyVersion, f.blob, Size(f.blob), Some(c.device), f.deleted)
    ensures Valid(states[j].ft) && IsStored(states[j].ft, FileKey(v, f.path), n, Some(row))
    ensures FromHolder(states[j], ses.caller, v) && f.path != "" ==>
      PulledRow(states[j], v, ses, f.path, n) == Some(row)
  {
    AcceptedRow(states, reqs, i, c, v, f, newId, n);
    StoredStays(states, reqs, i + 1, j, FileKey(v, f.path), n, row);
    if FromHolder(states[j], ses.caller, v) && f.path != "" {
      ServedToHolders(states[j], v, ses, f.path, n, row);
    }
  }

  /** A version pushed with a plaintext is checked out with that plaintext at any later time, by every session
      whose highest key version is the one it was pushed under. */
  lemma CheckoutReturnsWhatWasPushed(states: seq<Db>, reqs: seq<ServerRuns.Timed>, i: nat, j: nat, c: Caller,
                                     v: VaultId, f: FilePush, newId: FileId, n: nat, keys: KeyBook, ses: Session)
    requires ServerRuns.Run(states, reqs) && i < j <= |reqs| && ServerRuns.VaultStays(states, i + 1, j, v)
    requires reqs[i].request == Server.Pushing(c, v, f, newId) && f.path != ""
    requires PushRequest(states[i], c, v, f, newId, reqs[i].at).answer == Some(n)
    requires KeyInv(states[j], keys) && OwnBox(states[j], ses)
    requires Fetched(states[j], v, ses).Some? && Fetched(states[j], v, ses).value.version == f.keyVersion
    ensures f.blob.SecretBox? && CheckoutAction(states[j], v, ses, f.path, n) == Some(f.blob.plain)
  {
    var row := VersionRow(f.keyVersion, f.blob, Size(f.blob), Some(c.device), f.deleted);
    AcceptedVersionIsServed(states, reqs, i, j, c, v, f, newId, n, row, ses);
    FetchesIff(states[j], keys, v, ses);
    assert LogOk(keys, v, LogOf(states[j].ft, FileKey(v, f.path)));
    PickedRowIsOk(keys, v, LogOf(states[j].ft, FileKey(v, f.path)), n);
  }
}
