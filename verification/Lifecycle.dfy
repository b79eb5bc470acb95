/** Client actions one after the other, as the end-to-end test of internal/server/http runs them, for any
    state, session and content: what the second action shows of the first. */
module Lifecycle {
  import opened Common
  import opened Crypto
  import opened Schema
  import opened Lookup
  import opened Guards
  import opened FileStore
  import opened VaultStore
  import opened Directory
  import opened VaultHandlers
  import opened VaultClient
  import opened Revocation
  import opened KeyProtocol
  import opened KeyRotation
  import opened RoundTrips

  /** The plaintext of the latest version of a live file. */
  ghost function Content(t: FileTables, k: FileKey): Bytes
    requires Valid(t) && Live(LogOf(t, k)) && LogOf(t, k)[|LogOf(t, k)| - 1].blob.SecretBox?
  {
    LogOf(t, k)[|LogOf(t, k)| - 1].blob.plain
  }

  /** The file is live, and the session can read its latest version. */
  ghost predicate Reads(db: Db, v: VaultId, ses: Session, path: string) {
    && Valid(db.ft) && FromHolder(db, ses.caller, v) && path != "" && Fetched(db, v, ses).Some?
    && var log := LogOf(db.ft, FileKey(v, path));
       Live(log) && log[|log| - 1].blob.SecretBox? && log[|log| - 1].keyVersion == Fetched(db, v, ses).value.version
  }

  lemma ReadsItsContent(db: Db, keys: KeyBook, v: VaultId, ses: Session, path: string)
    requires KeyInv(db, keys) && OwnBox(db, ses) && Reads(db, v, ses, path)
    ensures PullAction(db, v, ses, path) == Some(Content(db.ft, FileKey(v, path)))
  {
    PullDecryptsIff(db, keys, v, ses, path);
  }

  /** Whoever pushes pulls what was pushed; so does everybody else with the same key. */
  method PushAndPull(s: Store, ghost keys: KeyBook, v: VaultId, ses: Session, path: string, plain: Bytes, nonce: nat,
                     newId: FileId, at: int, ses': Session)
    returns (r: Option<nat>, pulled: Option<Bytes>)
    requires KeyInv(s.db, keys) && OwnBox(s.db, ses) && OwnBox(s.db, ses')
    requires forall k :: k in s.db.ft.files ==> k.vault in s.db.vaults
    requires Fetched(s.db, v, ses') == Fetched(s.db, v, ses)
    modifies s
    ensures r.Some? <==>
      && path != "" && |plain| <= 0x10_0000 - 40 && Fetched(old(s.db), v, ses).Some?
      && (FileKey(v, path) in old(s.db).ft.files || !HasId(old(s.db).ft.files, newId))
    ensures r.Some? ==> r.value == |LogOf(old(s.db).ft, FileKey(v, path))| + 1 && pulled == Some(plain)
  {
    ghost var db := s.db;
    r := Push(s, v, ses, path, plain, nonce, newId, at);
    if r.Some? {
      ghost var _ := PushStores(db, v, ses, path, plain, nonce, newId, at);
      PushAcceptedIff(db, v, ses, path, plain, nonce, newId, at);
      PushPullRoundTrip(db, keys, v, ses, path, plain, nonce, newId, at, ses');
      pulled := Pull(s.db, v, ses', path);
    } else {
      pulled := None;
    }
  }

  /** Once a file is removed nobody pulls it. */
  method RemoveAndPull(s: Store, v: VaultId, ses: Session, path: string, nonce: nat, newId: FileId, at: int,
                       ses': Session)
    returns (r: Option<nat>, pulled: Option<Bytes>)
    requires Valid(s.db.ft) && forall k :: k in s.db.ft.files ==> k.vault in s.db.vaults
    modifies s
    ensures r.Some? <==> Fetched(old(s.db), v, ses).Some? && FileKey(v, path) in old(s.db).ft.files && path != ""
    ensures r.Some? ==> pulled == None
  {
    ghost var db := s.db;
    r := Rm(s, v, ses, path, nonce, newId, at);
    pulled := None;
    if r.Some? {
      RemovalHidesTheFile(db, v, ses, path, nonce, newId, at, ses', 0);
      pulled := Pull(s.db, v, ses', path);
    }
  }

  /** An admin with the vault's highest key version grants it to a user with an active device, who pulls
      every file the admin can read. */
  method GrantAndPull(s: Store, ghost keys: KeyBook, ses: Session, team: string, v: VaultId, username: string, at: int,
                      ses': Session, path: string)
    returns (r: Option<()>, pulled: Option<Bytes>)
    requires UniqueNames(s.db) && KeyInv(s.db, keys) && OwnBox(s.db, ses) && OwnBox(s.db, ses')
    requires Reads(s.db, v, ses, path) && IsTop(keys, v, Fetched(s.db, v, ses).value.version)
    requires FromActiveDevice(s.db, ses'.caller) && s.db.users[ses'.caller.user].username == username != ""
    modifies s
    ensures r.Some? <==> TeamAdminAuthed(old(s.db), ses.caller, team)
    ensures r.Some? ==> pulled == Some(Content(old(s.db).ft, FileKey(v, path)))
  {
    ghost var db := s.db;
    NamedUser(db, ses'.caller.user, username);
    ghost var sent;
    r, sent := VaultClient.Grant(s, ses, team, v, username, at);
    pulled := None;
    if r.Some? {
      ReadsItsContent(db, keys, v, ses, path);
      assert Run(db, keys, [], db, keys);
      GrantSharesEveryFile(db, keys, [], db, keys, ses, team, v, username, sent.value, at, ses', path);
      pulled := Pull(s.db, v, ses', path);
    }
  }

  /** A device with the vault's highest key version revokes another user.  If the request is not longer than
      the server reads it goes through, the user has no grant any more, and every device of the caller's
      pulls every live file as it was. */
  method RevokeAndPull(s: Store, ghost keys: KeyBook, ses: Session, v: VaultId, username: string, team: string,
                       newKey: VaultKey, nonces: string -> nat, size: RevokeCall -> nat, ids: nat -> FileId, at: int,
                       ses': Session, path: string)
    returns (r: Option<()>, ghost sent: Option<RevokeCall>, pulled: Option<Bytes>)
    requires UniqueNames(s.db) && KeyInv(s.db, keys) && OwnBox(s.db, ses) && IsNew(keys, newKey)
    requires Reads(s.db, v, ses, path) && IsTop(keys, v, Fetched(s.db, v, ses).value.version)
    requires Rebuildable(s.db.ft, v, Fetched(s.db, v, ses).value.key)
    requires TeamAdminAuthed(s.db, ses.caller, team) && username != ""
    requires UserNamed(s.db, username).Some? && UserNamed(s.db, username).value != ses.caller.user
    requires Fellow(s.db, ses, ses')
    modifies s
    ensures sent.Some? && (r.Some? <==> size(sent.value) <= 2 * 1024 * 1024)
    ensures r.Some? ==>
      && GrantKey(v, UserNamed(old(s.db), username).value) !in s.db.grants
      && pulled == Some(Content(old(s.db).ft, FileKey(v, path)))
    ensures r.None? ==> s.db == old(s.db)
  {
    ghost var db := s.db;
    r, sent := Revoke(s, ses, v, username, team, newKey, nonces, size, ids, at);
    pulled := None;
    if r.Some? {
      ReadsItsContent(db, keys, v, ses, path);
      AfterRotation(db, keys, ses, newKey, sent.value, ids, at, s.db, NextKeys(db, keys, ses, newKey, v));
      RotationKeepsPlaintexts(db, keys, ses, newKey, sent.value, ids, at, ses', path);
      pulled := Pull(s.db, v, ses', path);
    }
  }
}
