/** Requests on vaults and files: handlers_vaults.go and handlers_files.go of internal/server/http.
    A request names its vault by the id its unique name stands for. */
module VaultHandlers {
  import opened Common
  import opened Crypto
  import opened Schema
  import opened Lookup
  import opened FileStore
  import opened VaultStore
  import opened Directory

  const MAX_CIPHERTEXT := 0x10_0000

  /** Of a longer body the server reads the beginning only, whose hash is not what the client signed. */
  const MAX_BODY := 0x20_0000

  /** A share as clients send it; one without a vault is for the vault of the request. */
  datatype WireShare = WireShare(vault: Option<VaultId>, device: DeviceId, keyVersion: int, sealed: Sealed)

  function ToStore(sh: WireShare, v: VaultId): KeyShare {
    KeyShare(if sh.vault.Some? then sh.vault.value else v, sh.device, sh.keyVersion, sh.sealed)
  }

  function StoreShares(list: seq<WireShare>, v: VaultId): seq<KeyShare> {
    seq(|list|, i requires 0 <= i < |list| => ToStore(list[i], v))
  }

  method ToStoreShares(list: seq<WireShare>, v: VaultId) returns (out: seq<KeyShare>)
    ensures out == StoreShares(list, v)
  {
    out := [];
    for i := 0 to |list|
      invariant out == StoreShares(list[..i], v)
    {
      var vault := v;
      if list[i].vault.Some? {
        vault := list[i].vault.value;
      }
      out := out + [KeyShare(vault, list[i].device, list[i].keyVersion, list[i].sealed)];
    }
    assert list[..|list|] == list;
  }

  predicate HasAccess(db: Db, v: VaultId, u: UserId) {
    v in db.vaults && GrantKey(v, u) in db.grants
  }

  // ---------------------------------------------------------------- create and grant

  ghost function CreateVaultRequest(db: Db, c: Caller, team: string, name: string, list: seq<WireShare>,
                                    newId: VaultId, at: int): Reply<VaultId> {
    if !TeamAdminAuthed(db, c, team) || name == "" || |name| > 255 || |team| > 255 then Refuse(db)
    else
      var created := VaultInserted(db, newId, TeamNamed(db, team).value, name, StoreShares(list, newId));
      if created.None? then Refuse(db)
      else
        var db1 := created.value.(grants := created.value.grants + {GrantKey(newId, c.user)});
        Reply(Logged(db1, c, Some(newId), VaultCreated, Name(name), at), Some(newId))
  }

  method HandleCreateVault(s: Store, c: Caller, team: string, name: string, list: seq<WireShare>, newId: VaultId,
                           at: int)
    returns (r: Option<VaultId>)
    requires UniqueNames(s.db) && forall k :: k in s.db.shares ==> k.vault != newId
    modifies s
    ensures var reply := CreateVaultRequest(old(s.db), c, team, name, list, newId, at);
      s.db == reply.db && r == reply.answer
  {
    var t := GetTeamByName(s.db, team);
    if !ActiveAuthed(s.db, c) || t.None? || !IsTeamAdmin(s.db, t.value, c.user)
       || team == "" || name == "" || |name| > 255 || |team| > 255 {
      return None;
    }
    var shares := ToStoreShares(list, newId);
    var ok := CreateVault(s, newId, t.value, name, shares);
    if !ok {
      return None;
    }
    ghost var created := s.db;
    var _ := VaultStore.Grant(s, newId, c.user, []);
    assert InsertShares(created.shares, InVault(newId, [])) == created.shares;
    s.db := Logged(s.db, c, Some(newId), VaultCreated, Name(name), at);
    r := Some(newId);
  }

  ghost function GrantRequest(db: Db, c: Caller, team: string, v: VaultId, username: string, list: seq<WireShare>,
                              at: int): Reply<()> {
    if !TeamAdminAuthed(db, c, team) || username == "" || !HasAccess(db, v, c.user)
       || UserNamed(db, username).None?
    then Refuse(db)
    else
      var granted := GrantInserted(db, v, UserNamed(db, username).value, StoreShares(list, v));
      if granted.None? then Refuse(db)
      else Reply(Logged(granted.value, c, Some(v), Granted, Name(username), at), Some(()))
  }

  method HandleGrant(s: Store, c: Caller, team: string, v: VaultId, username: string, list: seq<WireShare>,
                     at: int) returns (r: Option<()>)
    requires UniqueNames(s.db)
    modifies s
    ensures var reply := GrantRequest(old(s.db), c, team, v, username, list, at);
      s.db == reply.db && r == reply.answer
  {
    var t := GetTeamByName(s.db, team);
    if !ActiveAuthed(s.db, c) || t.None? || !IsTeamAdmin(s.db, t.value, c.user)
       || team == "" || username == "" || !HasAccess(s.db, v, c.user) {
      return None;
    }
    var grantee := GetUserByUsername(s.db, username);
    if grantee.None? {
      return None;
    }
    var shares := ToStoreShares(list, v);
    var ok := VaultStore.Grant(s, v, grantee.value, shares);
    if !ok {
      return None;
    }
    s.db := Logged(s.db, c, Some(v), Granted, Name(username), at);
    r := Some(());
  }

  // ---------------------------------------------------------------- push

  datatype FilePush = FilePush(path: string, keyVersion: int, base: int, blob: Blob, deleted: bool)
  {
    function Args(v: VaultId, c: Caller): PushArgs {
      PushArgs(FileKey(v, path), keyVersion, base, blob, c.device, deleted)
    }
  }

  function PushRequest(db: Db, c: Caller, v: VaultId, f: FilePush, newId: FileId, at: int): Reply<nat> {
    if !ActiveAuthed(db, c) || f.path == "" || Size(f.blob) > MAX_CIPHERTEXT || !HasAccess(db, v, c.user)
    then Refuse(db)
    else
      var a := f.Args(v, c);
      var r := PushOutcome(db, db.ft, a, newId);
      if r.Accepted? then
        Reply(Logged(db.(ft := AfterPush(db, db.ft, a, newId)), c, Some(v),
                     if f.deleted then FileDeleted else FilePushed, Name(f.path), at),
              Some(r.version))
      else Refuse(db)
  }

  method HandlePush(s: Store, c: Caller, v: VaultId, f: FilePush, newId: FileId, at: int) returns (r: Option<nat>)
    requires Valid(s.db.ft) && forall k :: k in s.db.ft.files ==> k.vault in s.db.vaults
    modifies s
    ensures var reply := PushRequest(old(s.db), c, v, f, newId, at);
      s.db == reply.db && r == reply.answer
  {
    if !ActiveAuthed(s.db, c) || f.path == "" || Size(f.blob) > MAX_CIPHERTEXT || !HasAccess(s.db, v, c.user) {
      return None;
    }
    var pushed := PushFile(s, f.Args(v, c), newId);
    if !pushed.Accepted? {
      return None;
    }
    s.db := Logged(s.db, c, Some(v), if f.deleted then FileDeleted else FilePushed, Name(f.path), at);
    r := Some(pushed.version);
  }

  // ---------------------------------------------------------------- revoke, a sequence of transactions

  datatype RevokeCall = RevokeCall(vault: VaultId, username: string, team: string, shares: seq<WireShare>,
                                   files: seq<FilePush>)

  function Pushes(files: seq<FilePush>, v: VaultId, c: Caller): seq<PushArgs> {
    seq(|files|, i requires 0 <= i < |files| => files[i].(deleted := false).Args(v, c))
  }

  ghost predicate MayRevoke(db: Db, c: Caller, req: RevokeCall) {
    TeamAdminAuthed(db, c, req.team) && req.username != "" && req.vault in db.vaults
      && UserNamed(db, req.username).Some?
  }

  /** The file tables after the first n pushes. */
  function Pushed(db: Db, pushes: seq<PushArgs>, ids: nat -> FileId, n: nat): FileTables
    requires n <= |pushes|
  {
    if n == 0 then db.ft else AfterPush(db, Pushed(db, pushes, ids, n - 1), pushes[n - 1], ids(n - 1))
  }

  /** The n-th push is accepted after those before it. */
  predicate Goes(db: Db, pushes: seq<PushArgs>, ids: nat -> FileId, n: nat)
    requires n < |pushes|
  {
    PushOutcome(db, Pushed(db, pushes, ids, n), pushes[n], ids(n)).Accepted?
  }

  /** How many pushes are accepted, from the n-th on, until the first that is not. */
  function Reach(db: Db, pushes: seq<PushArgs>, ids: nat -> FileId, n: nat): (r: nat)
    requires n <= |pushes|
    ensures n <= r <= |pushes|
    ensures forall i :: n <= i < r ==> Goes(db, pushes, ids, i)
    decreases |pushes| - n
  {
    if n == |pushes| || !Goes(db, pushes, ids, n) then n else Reach(db, pushes, ids, n + 1)
  }

  function Refiled(db: Db, pushes: seq<PushArgs>, ids: nat -> FileId, n: nat): Db
    requires n <= |pushes|
  {
    db.(ft := Pushed(db, pushes, ids, n))
  }

  /** The database after a share list has gone in up to its n-th share. */
  function Shared(db: Db, list: seq<KeyShare>, n: nat): Db
    requires n <= |list|
  {
    db.(shares := InsertShares(db.shares, list[..n]))
  }

  /** How many shares and how many files have gone in when i transactions after the first have committed. */
  function SharesIn(req: RevokeCall, i: nat): nat {
    if i <= |req.shares| then i else |req.shares|
  }

  function FilesIn(req: RevokeCall, i: nat): nat {
    if i <= |req.shares| then 0 else i - |req.shares|
  }

  /** The database when i more transactions have committed after the one that leads to db1: one for
      each share, then one for each file. */
  function RotateState(db1: Db, c: Caller, req: RevokeCall, ids: nat -> FileId, i: nat): Db
    requires i <= |req.shares| + |req.files|
  {
    Refiled(Shared(db1, StoreShares(req.shares, req.vault), SharesIn(req, i)), Pushes(req.files, req.vault, c), ids,
            FilesIn(req, i))
  }

  /** How many of these transactions commit; the first that fails is the last tried. */
  function RotateReach(db1: Db, c: Caller, req: RevokeCall, ids: nat -> FileId): (n: nat)
    ensures n <= |req.shares| + |req.files|
  {
    var list := StoreShares(req.shares, req.vault);
    var n := ReferablePrefix(db1, list);
    if n < |list| then n else n + Reach(Shared(db1, list, n), Pushes(req.files, req.vault, c), ids, 0)
  }

  /** The database when the grant is removed and i more transactions of a revocation have committed. */
  ghost function RevokeState(db: Db, c: Caller, req: RevokeCall, ids: nat -> FileId, i: nat): Db
    requires MayRevoke(db, c, req) && i <= |req.shares| + |req.files|
  {
    RotateState(WithoutGrant(db, req.vault, UserNamed(db, req.username).value), c, req, ids, i)
  }

  ghost function RevokeReach(db: Db, c: Caller, req: RevokeCall, ids: nat -> FileId): (n: nat)
    requires MayRevoke(db, c, req)
    ensures n <= |req.shares| + |req.files|
  {
    RotateReach(WithoutGrant(db, req.vault, UserNamed(db, req.username).value), c, req, ids)
  }

  ghost predicate RevokeCompletes(db: Db, c: Caller, req: RevokeCall, ids: nat -> FileId)
    requires MayRevoke(db, c, req)
  {
    RevokeReach(db, c, req, ids) == |req.shares| + |req.files|
  }

  ghost function RevokeRequest(db: Db, c: Caller, req: RevokeCall, ids: nat -> FileId, at: int): Reply<()>
  {
    if !MayRevoke(db, c, req) then Refuse(db)
    else
      var last := RevokeState(db, c, req, ids, RevokeReach(db, c, req, ids));
      if RevokeCompletes(db, c, req, ids) then
        Reply(Logged(last, c, Some(req.vault), GrantRevoked, Name(req.username), at), Some(()))
      else Refuse(last)
  }

  lemma SameReferences(db: Db, db': Db, t: FileTables, a: PushArgs, newId: FileId)
    requires db'.vaults == db.vaults && db'.devices == db.devices
    ensures PushOutcome(db', t, a, newId) == PushOutcome(db, t, a, newId)
    ensures AfterPush(db', t, a, newId) == AfterPush(db, t, a, newId)
  {
  }

  method PushAt(s: Store, ghost db: Db, pushes: seq<PushArgs>, ids: nat -> FileId, i: nat) returns (ok: bool)
    requires i < |pushes| && pushes[i].key.vault in db.vaults
    requires s.db == Refiled(db, pushes, ids, i) && Valid(s.db.ft)
    modifies s
    ensures ok <==> Goes(db, pushes, ids, i)
    ensures s.db == (if ok then Refiled(db, pushes, ids, i + 1) else old(s.db)) && Valid(s.db.ft)
  {
    PushIsCas(db, s.db.ft, pushes[i], ids(i));
    SameReferences(db, s.db, s.db.ft, pushes[i], ids(i));
    var r := PushFile(s, pushes[i], ids(i));
    ok := r.Accepted?;
  }

  method PushFiles(s: Store, pushes: seq<PushArgs>, ids: nat -> FileId) returns (ok: bool)
    requires Valid(s.db.ft)
    requires forall i :: 0 <= i < |pushes| ==> pushes[i].key.vault in s.db.vaults
    modifies s
    ensures s.db == Refiled(old(s.db), pushes, ids, Reach(old(s.db), pushes, ids, 0))
    ensures ok <==> Reach(old(s.db), pushes, ids, 0) == |pushes|
  {
    ghost var db := s.db;
    for i := 0 to |pushes|
      invariant s.db == Refiled(db, pushes, ids, i) && Valid(s.db.ft)
      invariant Reach(db, pushes, ids, 0) == Reach(db, pushes, ids, i)
    {
      ok := PushAt(s, db, pushes, ids, i);
      if !ok {
        return;
      }
    }
    ok := true;
  }

  method AddRequestShares(s: Store, shares: seq<KeyShare>) returns (ok: bool)
    modifies s
    ensures s.db == Shared(old(s.db), shares, ReferablePrefix(old(s.db), shares))
    ensures ok <==> ReferablePrefix(old(s.db), shares) == |shares|
  {
    ok := true;
    if |shares| > 0 {
      ok := AddKeyShares(s, shares);
    }
  }

  /** Remove the grant, add the shares, push the files; each step commits on its own. */
  method RevokeSteps(s: Store, c: Caller, req: RevokeCall, target: UserId, ids: nat -> FileId) returns (ok: bool)
    requires Valid(s.db.ft)
    requires MayRevoke(s.db, c, req) && target == UserNamed(s.db, req.username).value
    modifies s
    ensures s.db == RevokeState(old(s.db), c, req, ids, RevokeReach(old(s.db), c, req, ids))
    ensures ok <==> RevokeCompletes(old(s.db), c, req, ids)
  {
    RevokeGrant(s, req.vault, target);
    var shares := ToStoreShares(req.shares, req.vault);
    ok := AddRequestShares(s, shares);
    if !ok {
      return;
    }
    ok := PushFiles(s, Pushes(req.files, req.vault, c), ids);
  }

  method HandleRevoke(s: Store, c: Caller, req: RevokeCall, ids: nat -> FileId, at: int) returns (r: Option<()>)
    requires UniqueNames(s.db) && Valid(s.db.ft)
    modifies s
    ensures var reply := RevokeRequest(old(s.db), c, req, ids, at);
      s.db == reply.db && r == reply.answer
  {
    var t := GetTeamByName(s.db, req.team);
    if !ActiveAuthed(s.db, c) || t.None? || !IsTeamAdmin(s.db, t.value, c.user)
       || req.team == "" || req.username == "" || req.vault !in s.db.vaults {
      return None;
    }
    var target := GetUserByUsername(s.db, req.username);
    if target.None? {
      return None;
    }
    var ok := RevokeSteps(s, c, req, target.value, ids);
    if !ok {
      return None;
    }
    s.db := Logged(s.db, c, Some(req.vault), GrantRevoked, Name(req.username), at);
    r := Some(());
  }
}
