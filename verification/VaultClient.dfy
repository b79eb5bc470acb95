/** The client actions on vaults and files: common.go, files.go and vaults.go of internal/client/actions.
    Every request is a call of the server's handler; new keys and nonces are random and come in as
    arguments.  A Reply is the database the action leaves behind and what it tells its user. */
module VaultClient {
  import opened Common
  import opened Crypto
  import opened Schema
  import opened Lookup
  import opened Guards
  import opened FileStore
  import opened VaultStore
  import opened Directory
  import opened VaultHandlers
  import opened Revocation

  const MAX_PLAINTEXT := 0x10_0000

  /** The unlocked key pair of a device, and whom the server takes its signature for. */
  datatype Session = Session(caller: Caller, box: BoxKey)

  datatype HeldKey = HeldKey(version: int, key: VaultKey)

  // ---------------------------------------------------------------- the vault key

  function Opened(shares: Shares, v: VaultId, ses: Session, kv: int): Option<VaultKey> {
    var k := ShareKey(v, ses.caller.device, kv);
    if k in shares then OpenVaultKey(shares[k], ses.box) else None
  }

  /** h is the key of highest version, above -1, among the shares the session can open. */
  ghost predicate IsHeld(shares: Shares, v: VaultId, ses: Session, h: Option<HeldKey>) {
    match h
    case Some(held) =>
      && held.version >= 0 && Opened(shares, v, ses, held.version) == Some(held.key)
      && forall kv :: Opened(shares, v, ses, kv).Some? ==> kv <= held.version
    case None => forall kv :: kv >= 0 ==> Opened(shares, v, ses, kv).None?
  }

  lemma HeldIsUnique(shares: Shares, v: VaultId, ses: Session, h: Option<HeldKey>, h': Option<HeldKey>)
    requires IsHeld(shares, v, ses, h) && IsHeld(shares, v, ses, h')
    ensures h == h'
  {
  }

  ghost function Highest(s: set<ShareKey>): (top: ShareKey)
    requires s != {}
    ensures top in s && forall k :: k in s ==> k.keyVersion <= top.keyVersion
  {
    var k :| k in s;
    assert s == s - {k} + {k};
    if s == {k} then k
    else
      var rest := Highest(s - {k});
      if rest.keyVersion > k.keyVersion then rest else k
  }

  lemma HeldExists(shares: Shares, v: VaultId, ses: Session)
    ensures exists h :: IsHeld(shares, v, ses, h)
  {
    var good := set k | k in shares && k == ShareKey(v, ses.caller.device, k.keyVersion) && k.keyVersion >= 0
                              && Opened(shares, v, ses, k.keyVersion).Some?;
    assert forall kv :: kv >= 0 && Opened(shares, v, ses, kv).Some? ==> ShareKey(v, ses.caller.device, kv) in good;
    if good == {} {
      assert IsHeld(shares, v, ses, None);
    } else {
      var top := Highest(good).keyVersion;
      assert IsHeld(shares, v, ses, Some(HeldKey(top, Opened(shares, v, ses, top).value)));
    }
  }

  ghost function Held(shares: Shares, v: VaultId, ses: Session): (h: Option<HeldKey>)
    ensures IsHeld(shares, v, ses, h)
  {
    HeldExists(shares, v, ses);
    var h :| IsHeld(shares, v, ses, h);
    h
  }

  /** What fetchVaultKey gets in the given state. */
  ghost function Fetched(db: Db, v: VaultId, ses: Session): Option<HeldKey> {
    if ActiveAuthed(db, ses.caller) && HasAccess(db, v, ses.caller.user) then Held(db.shares, v, ses) else None
  }

  /** The loop of fetchVaultKey over the shares the server sends. */
  method PickHighest(ghost shares: Shares, v: VaultId, ses: Session, list: seq<KeyShare>) returns (h: Option<HeldKey>)
    requires DeviceShares(shares, v, ses.caller.device, list)
    ensures h == Held(shares, v, ses)
  {
    var best, bestKey := -1, 0;
    for i := 0 to |list|
      invariant best >= -1 && (best >= 0 ==> Opened(shares, v, ses, best) == Some(bestKey))
      invariant forall j :: 0 <= j < i && Opened(shares, v, ses, list[j].keyVersion).Some? ==>
        list[j].keyVersion <= best
    {
      var sh := list[i];
      assert sh.Key() in shares && sh.sealed == shares[sh.Key()];
      var vk := OpenVaultKey(sh.sealed, ses.box);
      if vk.Some? {
        if sh.keyVersion > best {
          best, bestKey := sh.keyVersion, vk.value;
        }
      }
    }
    h := if best < 0 then None else Some(HeldKey(best, bestKey));
    assert forall kv :: Opened(shares, v, ses, kv).Some? ==> ShareKey(v, ses.caller.device, kv) in shares;
    HeldIsUnique(shares, v, ses, h, Held(shares, v, ses));
  }

  method FetchVaultKey(db: Db, v: VaultId, ses: Session) returns (h: Option<HeldKey>)
    ensures h == Fetched(db, v, ses)
    ensures if FromHolder(db, ses.caller, v) then IsHeld(db.shares, v, ses, h) else h == None
  {
    if !ActiveAuthed(db, ses.caller) || !HasAccess(db, v, ses.caller.user) {
      return None;
    }
    var list := GetKeySharesForDevice(db.shares, v, ses.caller.device);
    h := PickHighest(db.shares, v, ses, list);
  }

  // ---------------------------------------------------------------- sealing to devices

  datatype DeviceInfo = DeviceInfo(id: DeviceId, box: BoxKey, status: DeviceStatus)

  predicate IsDeviceOf(db: Db, u: UserId, d: DeviceInfo) {
    BelongsTo(db, d.id, u) && d.box == db.devices[d.id].boxPub && d.status == db.devices[d.id].status
  }

  /** list has each device of the user once. */
  ghost predicate ListsDevices(db: Db, u: UserId, list: seq<DeviceInfo>) {
    && (forall i :: 0 <= i < |list| ==> IsDeviceOf(db, u, list[i]))
    && (forall i, j :: 0 <= i < j < |list| ==> list[i].id != list[j].id)
    && (forall d :: BelongsTo(db, d, u) ==> exists i :: 0 <= i < |list| && list[i].id == d)
  }

  method ListDevices(db: Db, u: UserId) returns (list: seq<DeviceInfo>)
    ensures ListsDevices(db, u, list)
  {
    list := [];
    var rows := set d | d in db.devices && db.devices[d].user == u;
    while rows != {}
      invariant rows <= db.devices.Keys && forall d :: d in rows ==> BelongsTo(db, d, u)
      invariant forall i :: 0 <= i < |list| ==> IsDeviceOf(db, u, list[i]) && list[i].id !in rows
      invariant forall i, j :: 0 <= i < j < |list| ==> list[i].id != list[j].id
      invariant forall d :: BelongsTo(db, d, u) ==> d in rows || exists i :: 0 <= i < |list| && list[i].id == d
      decreases |rows|
    {
      var d :| d in rows;
      var longer := list + [DeviceInfo(d, db.devices[d].boxPub, db.devices[d].status)];
      assert forall i :: 0 <= i < |list| ==> longer[i] == list[i];
      assert longer[|list|].id == d;
      list, rows := longer, rows - {d};
    }
  }

  /** One share for each active device of the user, and nothing else. */
  ghost predicate SealsToActive(db: Db, u: UserId, key: VaultKey, kv: int, shares: seq<WireShare>) {
    && (forall i :: 0 <= i < |shares| ==> SealsTo(db, u, key, kv, shares[i]))
    && (forall i, j :: 0 <= i < j < |shares| ==> shares[i].device != shares[j].device)
    && (forall d :: BelongsTo(db, d, u) && db.devices[d].status == ActiveDevice ==>
          exists i :: 0 <= i < |shares| && shares[i].device == d)
  }

  predicate SealsTo(db: Db, u: UserId, key: VaultKey, kv: int, sh: WireShare) {
    && BelongsTo(db, sh.device, u) && db.devices[sh.device].status == ActiveDevice
    && sh == WireShare(None, sh.device, kv, SealVaultKey(key, db.devices[sh.device].boxPub))
  }

  function Seals(key: VaultKey, kv: int, devices: seq<DeviceInfo>): seq<WireShare> {
    if devices == [] then []
    else
      var init, d := Seals(key, kv, devices[..|devices| - 1]), devices[|devices| - 1];
      if d.status == ActiveDevice then init + [WireShare(None, d.id, kv, SealVaultKey(key, d.box))] else init
  }

  function IdsOf(devices: seq<DeviceInfo>): set<DeviceId> {
    set i | 0 <= i < |devices| :: devices[i].id
  }

  lemma {:induction false} SealsOfPrefix(db: Db, u: UserId, key: VaultKey, kv: int, devices: seq<DeviceInfo>)
    requires forall i :: 0 <= i < |devices| ==> IsDeviceOf(db, u, devices[i])
    requires forall i, j :: 0 <= i < j < |devices| ==> devices[i].id != devices[j].id
    ensures var shares := Seals(key, kv, devices);
      && (forall i :: 0 <= i < |shares| ==> SealsTo(db, u, key, kv, shares[i]) && shares[i].device in IdsOf(devices))
      && (forall i, j :: 0 <= i < j < |shares| ==> shares[i].device != shares[j].device)
      && (forall d :: d in IdsOf(devices) && BelongsTo(db, d, u) && db.devices[d].status == ActiveDevice ==>
            exists i :: 0 <= i < |shares| && shares[i].device == d)
    decreases |devices|
  {
    if devices != [] {
      var init, d := devices[..|devices| - 1], devices[|devices| - 1];
      SealsOfPrefix(db, u, key, kv, init);
      assert IdsOf(devices) == IdsOf(init) + {d.id} by {
        assert forall i :: 0 <= i < |init| ==> init[i] == devices[i];
        assert devices[|devices| - 1].id == d.id;
      }
      assert d.id !in IdsOf(init);
      var before, shares := Seals(key, kv, init), Seals(key, kv, devices);
      assert forall i :: 0 <= i < |before| ==> shares[i] == before[i];
      assert d.status == ActiveDevice ==> shares[|before|].device == d.id;
    }
  }

  method SealToDevices(ghost db: Db, ghost u: UserId, key: VaultKey, kv: int, devices: seq<DeviceInfo>)
    returns (shares: seq<WireShare>)
    requires ListsDevices(db, u, devices)
    ensures SealsToActive(db, u, key, kv, shares)
  {
    shares := [];
    assert devices[..0] == [];
    for i := 0 to |devices|
      invariant shares == Seals(key, kv, devices[..i])
    {
      var d := devices[i];
      assert devices[..i + 1][..i] == devices[..i];
      if d.status != ActiveDevice {
        continue;
      }
      shares := shares + [WireShare(None, d.id, kv, SealVaultKey(key, d.box))];
    }
    assert devices[..|devices|] == devices;
    SealsOfPrefix(db, u, key, kv, devices);
  }

  // ---------------------------------------------------------------- push, pull, checkout, remove

  method CurrentVersion(db: Db, v: VaultId, ses: Session, path: string) returns (r: Option<nat>)
    requires Valid(db.ft)
    ensures r == if Authed(db, ses.caller) && HasAccess(db, v, ses.caller.user)
                 then Some(|LogOf(db.ft, FileKey(v, path))|) else None
  {
    if !Authed(db, ses.caller) || !HasAccess(db, v, ses.caller.user) {
      return None;
    }
    var files := ListFiles(db.ft, v);
    for i := 0 to |files|
      invariant forall j :: 0 <= j < i ==> files[j].path != path
    {
      if files[i].path == path {
        assert Describes(files[i], LogsOf(db.ft), v);
        return Some(files[i].latest);
      }
    }
    NotListed(files, LogsOf(db.ft), v, path);
    r := Some(0);
  }

  lemma NotListed(files: seq<FileMeta>, logs: Logs, v: VaultId, path: string)
    requires Lists(files, logs, v) && forall j :: 0 <= j < |files| ==> files[j].path != path
    ensures FileKey(v, path) !in logs
  {
    assert FileKey(v, path) !in KeysOf(files, v);
  }

  /** Push: encrypt under the highest key held, on top of the version the listing shows. */
  ghost function PushAction(db: Db, v: VaultId, ses: Session, path: string, plain: Bytes, nonce: nat, newId: FileId,
                            at: int): Reply<nat>
    requires Valid(db.ft)
  {
    var held := Fetched(db, v, ses);
    if |plain| > MAX_PLAINTEXT || held.None? then Refuse(db)
    else
      var f := FilePush(path, held.value.version, |LogOf(db.ft, FileKey(v, path))|,
                        SecretBox(held.value.key, nonce, plain), false);
      PushRequest(db, ses.caller, v, f, newId, at)
  }

  method Push(s: Store, v: VaultId, ses: Session, path: string, plain: Bytes, nonce: nat, newId: FileId,
              at: int) returns (r: Option<nat>)
    requires Valid(s.db.ft) && forall k :: k in s.db.ft.files ==> k.vault in s.db.vaults
    modifies s
    ensures var reply := PushAction(old(s.db), v, ses, path, plain, nonce, newId, at);
      s.db == reply.db && r == reply.answer
    ensures r.Some? <==>
      && path != "" && |plain| <= 0x10_0000 - 40 && Fetched(old(s.db), v, ses).Some?
      && (FileKey(v, path) in old(s.db).ft.files || !HasId(old(s.db).ft.files, newId))
  {
    if |plain| > MAX_PLAINTEXT {
      return None;
    }
    var held := FetchVaultKey(s.db, v, ses);
    if held.None? {
      return None;
    }
    var blob := EncryptBlob(held.value.key, nonce, plain);
    var base := CurrentVersion(s.db, v, ses, path);
    if base.None? {
      return None;
    }
    r := HandlePush(s, ses.caller, v, FilePush(path, held.value.version, base.value, blob, false), newId, at);
  }

  /** The client lets plaintexts of 2^20 bytes through, the server ciphertexts of 2^20 bytes: a push of a
      file whose row can be stored is accepted if and only if the plaintext is at least 40 bytes shorter. */
  lemma PushAcceptedIff(db: Db, v: VaultId, ses: Session, path: string, plain: Bytes, nonce: nat, newId: FileId,
                        at: int)
    requires Valid(db.ft) && Fetched(db, v, ses).Some?
    requires var k := FileKey(v, path); k in db.ft.files || !HasId(db.ft.files, newId)
    ensures var r, log := PushAction(db, v, ses, path, plain, nonce, newId, at), LogOf(db.ft, FileKey(v, path));
      && (r.answer.Some? <==> path != "" && |plain| <= 0x10_0000 - 40)
      && (r.answer.Some? ==> r.answer.value == |log| + 1)
  {
  }

  /** A file of the size the client allows is never accepted. */
  lemma FullSizePushFails(db: Db, v: VaultId, ses: Session, path: string, plain: Bytes, nonce: nat, newId: FileId,
                          at: int)
    requires Valid(db.ft) && |plain| == 0x10_0000
    ensures PushAction(db, v, ses, path, plain, nonce, newId, at) == Refuse(db)
  {
    var held := Fetched(db, v, ses);
    if held.Some? {
      assert Size(SecretBox(held.value.key, nonce, plain)) == MAX_PLAINTEXT + 40;
    }
  }

  /** What a GET of a file version sends. */
  ghost function PulledRow(db: Db, v: VaultId, ses: Session, path: string, version: int): Option<VersionRow>
    requires Valid(db.ft)
  {
    if !ActiveAuthed(db, ses.caller) || !HasAccess(db, v, ses.caller.user) || path == "" then None
    else VersionOf(LogOf(db.ft, FileKey(v, path)), version)
  }

  method GetPull(db: Db, v: VaultId, ses: Session, path: string, version: int) returns (r: Option<VersionRow>)
    requires Valid(db.ft)
    ensures r == PulledRow(db, v, ses, path, version)
    ensures if FromHolder(db, ses.caller, v) && path != "" then IsStored(db.ft, FileKey(v, path), version, r)
      else r == None
  {
    if !ActiveAuthed(db, ses.caller) || !HasAccess(db, v, ses.caller.user) || path == "" {
      return None;
    }
    r := GetFileVersion(db.ft, FileKey(v, path), version);
  }

  ghost function PullAction(db: Db, v: VaultId, ses: Session, path: string): Option<Bytes>
    requires Valid(db.ft)
  {
    var held, row := Fetched(db, v, ses), PulledRow(db, v, ses, path, 0);
    if held.None? || row.None? || row.value.deleted then None else DecryptBlob(held.value.key, row.value.blob)
  }

  method Pull(db: Db, v: VaultId, ses: Session, path: string) returns (r: Option<Bytes>)
    requires Valid(db.ft)
    ensures r == PullAction(db, v, ses, path)
  {
    var held := FetchVaultKey(db, v, ses);
    if held.None? {
      return None;
    }
    var row := GetPull(db, v, ses, path, 0);
    if row.None? || row.value.deleted {
      return None;
    }
    r := DecryptBlob(held.value.key, row.value.blob);
  }

  ghost function CheckoutAction(db: Db, v: VaultId, ses: Session, path: string, version: int): Option<Bytes>
    requires Valid(db.ft)
  {
    var held, row := Fetched(db, v, ses), PulledRow(db, v, ses, path, version);
    if held.None? || row.None? then None else DecryptBlob(held.value.key, row.value.blob)
  }

  method Checkout(db: Db, v: VaultId, ses: Session, path: string, version: int) returns (r: Option<Bytes>)
    requires Valid(db.ft)
    ensures r == CheckoutAction(db, v, ses, path, version)
  {
    var held := FetchVaultKey(db, v, ses);
    if held.None? {
      return None;
    }
    var row := GetPull(db, v, ses, path, version);
    if row.None? {
      return None;
    }
    r := DecryptBlob(held.value.key, row.value.blob);
  }

  /** Rm: push an empty version with the deleted flag. */
  ghost function RmAction(db: Db, v: VaultId, ses: Session, path: string, nonce: nat, newId: FileId,
                          at: int): Reply<nat>
    requires Valid(db.ft)
  {
    var held, log := Fetched(db, v, ses), LogOf(db.ft, FileKey(v, path));
    if held.None? || log == [] then Refuse(db)
    else PushRequest(db, ses.caller, v,
                     FilePush(path, held.value.version, |log|, SecretBox(held.value.key, nonce, []), true), newId, at)
  }

  method Rm(s: Store, v: VaultId, ses: Session, path: string, nonce: nat, newId: FileId,
            at: int) returns (r: Option<nat>)
    requires Valid(s.db.ft) && forall k :: k in s.db.ft.files ==> k.vault in s.db.vaults
    modifies s
    ensures var reply := RmAction(old(s.db), v, ses, path, nonce, newId, at);
      s.db == reply.db && r == reply.answer
    ensures r.Some? <==> Fetched(old(s.db), v, ses).Some? && FileKey(v, path) in old(s.db).ft.files && path != ""
  {
    var held := FetchVaultKey(s.db, v, ses);
    if held.None? {
      return None;
    }
    var base := CurrentVersion(s.db, v, ses, path);
    LatestIsLength(s.db.ft, FileKey(v, path));
    if base.None? || base.value == 0 {
      return None;
    }
    var blob := EncryptBlob(held.value.key, nonce, []);
    r := HandlePush(s, ses.caller, v, FilePush(path, held.value.version, base.value, blob, true), newId, at);
  }

  // ---------------------------------------------------------------- create and grant

  /** The user has a device to seal to. */
  predicate HasActiveDevice(db: Db, u: UserId) {
    exists d :: d in db.devices && db.devices[d].user == u && db.devices[d].status == ActiveDevice
  }

  lemma SealsToSomeone(db: Db, u: UserId, key: VaultKey, kv: int, shares: seq<WireShare>)
    requires SealsToActive(db, u, key, kv, shares)
    ensures shares != [] <==> HasActiveDevice(db, u)
  {
    if shares != [] {
      assert SealsTo(db, u, key, kv, shares[0]);
    }
    if d :| d in db.devices && db.devices[d].user == u && db.devices[d].status == ActiveDevice {
      assert BelongsTo(db, d, u);
    }
  }

  /** Shares a client seals are for devices that exist, each once. */
  lemma SealsAreStorable(db: Db, db1: Db, u: UserId, key: VaultKey, kv: int, shares: seq<WireShare>, v: VaultId)
    requires SealsToActive(db, u, key, kv, shares) && v in db1.vaults && db1.devices == db.devices
    ensures var list := InVault(v, StoreShares(shares, v)); ReferablePrefix(db1, list) == |list| && DistinctKeys(list)
  {
    var list := InVault(v, StoreShares(shares, v));
    forall i | 0 <= i < |list|
      ensures VaultStore.Referable(db1, list[i])
    {
      assert SealsTo(db, u, key, kv, shares[i]);
    }
    PrefixOfReferable(db1, list, |list|);
  }

  /** The server takes a client's request for a new vault if an admin of the team asks and nothing is wrong
      with the names. */
  lemma CreateGoesThroughIff(db: Db, ses: Session, team: string, name: string, newKey: VaultKey,
                             shares: seq<WireShare>, newId: VaultId, at: int)
    requires SealsToActive(db, ses.caller.user, newKey, 1, shares)
    ensures CreateVaultRequest(db, ses.caller, team, name, shares, newId, at).answer.Some? <==>
      && TeamAdminAuthed(db, ses.caller, team) && 0 < |name| <= 255 && |team| <= 255
      && forall v :: v in db.vaults ==> db.vaults[v].name != name
  {
    if TeamAdminAuthed(db, ses.caller, team) {
      var db1 := db.(vaults := db.vaults[newId := VaultRow(TeamNamed(db, team).value, name)]);
      SealsAreStorable(db, db1, ses.caller.user, newKey, 1, shares, newId);
    }
  }

  method CreateVault(s: Store, ses: Session, team: string, name: string, newKey: VaultKey, newId: VaultId, at: int)
    returns (r: Option<VaultId>, ghost sent: Option<seq<WireShare>>)
    requires UniqueNames(s.db) && forall k :: k in s.db.shares ==> k.vault != newId
    modifies s
    ensures sent.Some? <==> FromOwnDevice(old(s.db), ses.caller) && HasActiveDevice(old(s.db), ses.caller.user)
    ensures sent.None? ==> s.db == old(s.db) && r.None?
    ensures sent.Some? ==>
      && SealsToActive(old(s.db), ses.caller.user, newKey, 1, sent.value)
      && var reply := CreateVaultRequest(old(s.db), ses.caller, team, name, sent.value, newId, at);
         s.db == reply.db && r == reply.answer
    ensures r.Some? <==>
      && TeamAdminAuthed(old(s.db), ses.caller, team) && 0 < |name| <= 255 && |team| <= 255
      && forall v :: v in old(s.db).vaults ==> old(s.db).vaults[v].name != name
  {
    if !Authed(s.db, ses.caller) {
      return None, None;
    }
    var devices := ListDevices(s.db, ses.caller.user);
    var shares := SealToDevices(s.db, ses.caller.user, newKey, 1, devices);
    SealsToSomeone(s.db, ses.caller.user, newKey, 1, shares);
    if shares == [] {
      return None, None;
    }
    CreateGoesThroughIff(s.db, ses, team, name, newKey, shares, newId, at);
    r := HandleCreateVault(s, ses.caller, team, name, shares, newId, at);
    sent := Some(shares);
  }

  /** The shares are those a grant by this session sends. */
  ghost predicate Granting(db: Db, ses: Session, v: VaultId, username: string, shares: seq<WireShare>) {
    var held, grantee := Fetched(db, v, ses), UserNamed(db, username);
    held.Some? && grantee.Some? && SealsToActive(db, grantee.value, held.value.key, held.value.version, shares)
      && shares != []
  }

  /** The server takes a client's grant if an admin of the team asks, whether or not the user has one. */
  lemma GrantGoesThroughIff(db: Db, ses: Session, team: string, v: VaultId, username: string, shares: seq<WireShare>,
                            at: int)
    requires Granting(db, ses, v, username, shares)
    ensures GrantRequest(db, ses.caller, team, v, username, shares, at).answer.Some? <==>
      TeamAdminAuthed(db, ses.caller, team) && username != ""
  {
    var held := Fetched(db, v, ses).value;
    SealsAreStorable(db, db, UserNamed(db, username).value, held.key, held.version, shares, v);
  }

  /** Grant: seal the highest key held to each active device of the grantee. */
  method Grant(s: Store, ses: Session, team: string, v: VaultId, username: string, at: int)
    returns (r: Option<()>, ghost sent: Option<seq<WireShare>>)
    requires UniqueNames(s.db)
    modifies s
    ensures sent.Some? <==>
      && Fetched(old(s.db), v, ses).Some?
      && exists u :: u in old(s.db).users && old(s.db).users[u].username == username && HasActiveDevice(old(s.db), u)
    ensures sent.None? ==> s.db == old(s.db) && r.None?
    ensures sent.Some? ==>
      && Granting(old(s.db), ses, v, username, sent.value)
      && var reply := GrantRequest(old(s.db), ses.caller, team, v, username, sent.value, at);
         s.db == reply.db && r == reply.answer
    ensures r.Some? <==> sent.Some? && TeamAdminAuthed(old(s.db), ses.caller, team) && username != ""
  {
    var held := FetchVaultKey(s.db, v, ses);
    if held.None? {
      return None, None;
    }
    var grantee := GetUserByUsername(s.db, username);
    if grantee.None? {
      return None, None;
    }
    var devices := ListDevices(s.db, grantee.value);
    var shares := SealToDevices(s.db, grantee.value, held.value.key, held.value.version, devices);
    SealsToSomeone(s.db, grantee.value, held.value.key, held.value.version, shares);
    if shares == [] {
      return None, None;
    }
    GrantGoesThroughIff(s.db, ses, team, v, username, shares, at);
    r := HandleGrant(s, ses.caller, team, v, username, shares, at);
    sent := Some(shares);
  }

  // ---------------------------------------------------------------- revoke

  /** The push re-encrypts the latest version of a live file. */
  ghost predicate ReEncrypts(t: FileTables, v: VaultId, oldKey: VaultKey, newKey: VaultKey, newVersion: int,
                             f: FilePush)
    requires Valid(t)
  {
    var log := LogOf(t, FileKey(v, f.path));
    && Live(log) && f.path != "" && f.keyVersion == newVersion && f.base == |log| && !f.deleted
    && DecryptBlob(oldKey, log[|log| - 1].blob).Some?
    && DecryptBlob(newKey, f.blob) == DecryptBlob(oldKey, log[|log| - 1].blob)
  }

  /** The pushes re-encrypt each live file of the vault once. */
  ghost predicate Rebuilt(t: FileTables, v: VaultId, oldKey: VaultKey, newKey: VaultKey, newVersion: int,
                          files: seq<FilePush>)
    requires Valid(t)
  {
    && (forall i :: 0 <= i < |files| ==> ReEncrypts(t, v, oldKey, newKey, newVersion, files[i]))
    && (forall i, j :: 0 <= i < j < |files| ==> files[i].path != files[j].path)
    && (forall path :: Live(LogOf(t, FileKey(v, path))) ==> exists i :: 0 <= i < |files| && files[i].path == path)
  }

  /** The rebuilding gets through: every live file has a name to ask for and opens with the key. */
  ghost predicate Rebuildable(t: FileTables, v: VaultId, key: VaultKey)
    requires Valid(t)
  {
    forall path :: Live(LogOf(t, FileKey(v, path))) ==>
      path != "" && DecryptBlob(key, LogOf(t, FileKey(v, path))[|LogOf(t, FileKey(v, path))| - 1].blob).Some?
  }

  /** Pull one live file and encrypt it again. */
  method RebuildFile(db: Db, v: VaultId, ses: Session, oldKey: VaultKey, newKey: VaultKey, newVersion: int,
                     f: FileMeta, nonce: nat)
    returns (r: Option<FilePush>)
    requires Valid(db.ft) && ActiveAuthed(db, ses.caller) && HasAccess(db, v, ses.caller.user)
    requires Describes(f, LogsOf(db.ft), v) && !f.deleted
    ensures var log := LogOf(db.ft, FileKey(v, f.path));
      Live(log) && (r.Some? <==> f.path != "" && DecryptBlob(oldKey, log[|log| - 1].blob).Some?)
    ensures r.Some? ==> r.value.path == f.path && ReEncrypts(db.ft, v, oldKey, newKey, newVersion, r.value)
  {
    var row := GetPull(db, v, ses, f.path, 0);
    if row.None? {
      return None;
    }
    var plain := DecryptBlob(oldKey, row.value.blob);
    if plain.None? {
      return None;
    }
    r := Some(FilePush(f.path, newVersion, f.latest, EncryptBlob(newKey, nonce, plain.value), false));
  }

  method Rebuild(db: Db, v: VaultId, ses: Session, oldKey: VaultKey, newKey: VaultKey, newVersion: int,
                 nonces: string -> nat)
    returns (r: Option<seq<FilePush>>)
    requires Valid(db.ft) && ActiveAuthed(db, ses.caller) && HasAccess(db, v, ses.caller.user)
    ensures r.Some? <==> Rebuildable(db.ft, v, oldKey)
    ensures r.Some? ==> Rebuilt(db.ft, v, oldKey, newKey, newVersion, r.value)
  {
    var list := ListFiles(db.ft, v);
    r := RebuildFiles(db, v, ses, oldKey, newKey, newVersion, nonces, list);
    if r.Some? {
      RebuiltFromList(db.ft, v, list, r.value);
    }
  }

  method RebuildFiles(db: Db, v: VaultId, ses: Session, oldKey: VaultKey, newKey: VaultKey, newVersion: int,
                      nonces: string -> nat, list: seq<FileMeta>)
    returns (r: Option<seq<FilePush>>)
    requires Valid(db.ft) && ActiveAuthed(db, ses.caller) && HasAccess(db, v, ses.caller.user)
    requires Lists(list, LogsOf(db.ft), v)
    ensures r.None? ==> !Rebuildable(db.ft, v, oldKey)
    ensures r.Some? ==> Picked(list, r.value, |list|) && AllReEncrypt(db.ft, v, oldKey, newKey, newVersion, r.value)
  {
    var files: seq<FilePush> := [];
    for i := 0 to |list|
      invariant Picked(list, files, i)
      invariant AllReEncrypt(db.ft, v, oldKey, newKey, newVersion, files)
    {
      if list[i].deleted {
        PickedSkip(list, files, i);
        continue;
      }
      var f := RebuildFile(db, v, ses, oldKey, newKey, newVersion, list[i], nonces(list[i].path));
      if f.None? {
        return None;
      }
      PickedAdd(list, files, i, f.value);
      AllReEncryptStep(db.ft, v, oldKey, newKey, newVersion, files, f.value);
      files := files + [f.value];
    }
    r := Some(files);
  }

  function PathsOf(files: seq<FilePush>): set<string> {
    set i | 0 <= i < |files| :: files[i].path
  }

  function LivePaths(list: seq<FileMeta>, n: nat): set<string>
    requires n <= |list|
  {
    set i | 0 <= i < n && !list[i].deleted :: list[i].path
  }

  /** files has one entry for each of the first n files that is not deleted. */
  ghost predicate Picked(list: seq<FileMeta>, files: seq<FilePush>, n: nat)
    requires n <= |list|
  {
    PathsOf(files) == LivePaths(list, n) && forall i, j :: 0 <= i < j < |files| ==> files[i].path != files[j].path
  }

  lemma PickedSkip(list: seq<FileMeta>, files: seq<FilePush>, n: nat)
    requires n < |list| && Picked(list, files, n) && list[n].deleted
    ensures Picked(list, files, n + 1)
  {
    assert LivePaths(list, n + 1) == LivePaths(list, n);
  }

  lemma PickedAdd(list: seq<FileMeta>, files: seq<FilePush>, n: nat, f: FilePush)
    requires n < |list| && Picked(list, files, n) && !list[n].deleted && f.path == list[n].path
    requires forall i, j :: 0 <= i < j < |list| ==> list[i].path != list[j].path
    ensures Picked(list, files + [f], n + 1)
  {
    var longer := files + [f];
    assert LivePaths(list, n + 1) == LivePaths(list, n) + {f.path};
    assert forall i :: 0 <= i < |files| ==> files[i].path in PathsOf(files) && longer[i] == files[i];
    assert longer[|files|] == f;
    assert PathsOf(longer) == PathsOf(files) + {f.path};
  }

  ghost predicate AllReEncrypt(t: FileTables, v: VaultId, oldKey: VaultKey, newKey: VaultKey, newVersion: int,
                               files: seq<FilePush>)
    requires Valid(t)
  {
    forall i :: 0 <= i < |files| ==> ReEncrypts(t, v, oldKey, newKey, newVersion, files[i])
  }

  lemma AllReEncryptStep(t: FileTables, v: VaultId, oldKey: VaultKey, newKey: VaultKey, newVersion: int,
                         files: seq<FilePush>, f: FilePush)
    requires Valid(t) && AllReEncrypt(t, v, oldKey, newKey, newVersion, files)
    requires ReEncrypts(t, v, oldKey, newKey, newVersion, f)
    ensures AllReEncrypt(t, v, oldKey, newKey, newVersion, files + [f])
  {
  }

  lemma RebuiltFromList(t: FileTables, v: VaultId, list: seq<FileMeta>, files: seq<FilePush>)
    requires Valid(t) && Lists(list, LogsOf(t), v) && Picked(list, files, |list|)
    ensures forall path :: Live(LogOf(t, FileKey(v, path))) ==> exists i :: 0 <= i < |files| && files[i].path == path
  {
    forall path | Live(LogOf(t, FileKey(v, path)))
      ensures exists i :: 0 <= i < |files| && files[i].path == path
    {
      assert FileKey(v, path) in KeysOf(list, v);
      var j :| 0 <= j < |list| && FileKey(v, list[j].path) == FileKey(v, path);
      assert Describes(list[j], LogsOf(t), v);
      assert path in LivePaths(list, |list|);
    }
  }

  /** The request is one this session sends to revoke a user and rotate to the new key. */
  ghost predicate Rotating(db: Db, ses: Session, v: VaultId, username: string, team: string, newKey: VaultKey,
                           req: RevokeCall) {
    var held := Fetched(db, v, ses);
    && Valid(db.ft) && held.Some?
    && req.vault == v && req.username == username && req.team == team
    && SealsToActive(db, ses.caller.user, newKey, held.value.version + 1, req.shares)
    && Rebuilt(db.ft, v, held.value.key, newKey, held.value.version + 1, req.files)
  }

  lemma RotatingIsUpToDate(db: Db, ses: Session, v: VaultId, username: string, team: string, newKey: VaultKey,
                           req: RevokeCall)
    requires Rotating(db, ses, v, username, team, newKey, req)
    ensures UpToDate(db, ses.caller, req)
  {
    var held := Fetched(db, v, ses).value;
    forall i | 0 <= i < |req.shares|
      ensures req.shares[i].vault.None? && req.shares[i].device in db.devices
    {
      assert SealsTo(db, ses.caller.user, newKey, held.version + 1, req.shares[i]);
    }
    forall i | 0 <= i < |req.files|
      ensures FileKey(v, req.files[i].path) in db.ft.files
      ensures req.files[i].base == |LogOf(db.ft, FileKey(v, req.files[i].path))|
    {
      assert ReEncrypts(db.ft, v, held.key, newKey, held.version + 1, req.files[i]);
    }
  }

  /** A rotation whose request reaches the server as it was built goes through if an admin of some team asks
      to revoke a user: nothing can stop it between its transactions but others. */
  lemma RotationGoesThroughIff(db: Db, ses: Session, v: VaultId, username: string, team: string, newKey: VaultKey,
                               req: RevokeCall, ids: nat -> FileId, at: int)
    requires Rotating(db, ses, v, username, team, newKey, req)
    ensures RevokeRequest(db, ses.caller, req, ids, at).answer.Some? <==> MayRevoke(db, ses.caller, req)
    ensures MayRevoke(db, ses.caller, req) ==> RevokeCompletes(db, ses.caller, req, ids)
  {
    if MayRevoke(db, ses.caller, req) {
      RotatingIsUpToDate(db, ses, v, username, team, newKey, req);
      UpToDateCompletes(db, ses.caller, req, ids);
    }
  }

  /** Revoke: rotate to a new key and send everything in one request; size is the length of its body. */
  method Revoke(s: Store, ses: Session, v: VaultId, username: string, team: string, newKey: VaultKey,
                nonces: string -> nat, size: RevokeCall -> nat, ids: nat -> FileId, at: int)
    returns (r: Option<()>, ghost sent: Option<RevokeCall>)
    requires UniqueNames(s.db) && Valid(s.db.ft)
    modifies s
    ensures sent.Some? <==>
      && Fetched(old(s.db), v, ses).Some?
      && Rebuildable(old(s.db).ft, v, Fetched(old(s.db), v, ses).value.key)
    ensures sent.Some? ==> Rotating(old(s.db), ses, v, username, team, newKey, sent.value)
    ensures sent.None? || size(sent.value) > 2 * 1024 * 1024 ==> s.db == old(s.db) && r.None?
    ensures sent.Some? && size(sent.value) <= 2 * 1024 * 1024 ==>
      var reply := RevokeRequest(old(s.db), ses.caller, sent.value, ids, at);
      s.db == reply.db && r == reply.answer
    ensures r.Some? <==>
      sent.Some? && size(sent.value) <= 2 * 1024 * 1024 && MayRevoke(old(s.db), ses.caller, sent.value)
  {
    var held := FetchVaultKey(s.db, v, ses);
    if held.None? {
      return None, None;
    }
    var again := FetchVaultKey(s.db, v, ses);
    var newVersion := again.value.version + 1;
    var devices := ListDevices(s.db, ses.caller.user);
    var shares := SealToDevices(s.db, ses.caller.user, newKey, newVersion, devices);
    assert BelongsTo(s.db, ses.caller.device, ses.caller.user);
    if shares == [] {
      return None, None;
    }
    var files := Rebuild(s.db, v, ses, held.value.key, newKey, newVersion, nonces);
    if files.None? {
      return None, None;
    }
    var req := RevokeCall(v, username, team, shares, files.value);
    sent := Some(req);
    if size(req) > MAX_BODY {
      return None, sent;
    }
    RotationGoesThroughIff(s.db, ses, v, username, team, newKey, req, ids, at);
    r := HandleRevoke(s, ses.caller, req, ids, at);
  }
}
