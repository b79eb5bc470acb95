/** Grants and sealed key shares: internal/server/store/vaults.go. */
module VaultStore {
  import opened Common
  import opened Crypto
  import opened Schema

  type Shares = map<ShareKey, Sealed>

  datatype KeyShare = KeyShare(vault: VaultId, device: DeviceId, keyVersion: int, sealed: Sealed)
  {
    function Key(): ShareKey {
      ShareKey(vault, device, keyVersion)
    }
  }

  /** INSERT ... ON CONFLICT DO NOTHING. */
  function InsertShare(shares: Shares, sh: KeyShare): Shares {
    if sh.Key() in shares then shares else shares[sh.Key() := sh.sealed]
  }

  function InsertShares(shares: Shares, list: seq<KeyShare>): Shares {
    if list == [] then shares
    else InsertShare(InsertShares(shares, list[..|list| - 1]), list[|list| - 1])
  }

  function Keys(list: seq<KeyShare>): set<ShareKey> {
    set i | 0 <= i < |list| :: list[i].Key()
  }

  /** Stored shares stay as they are; each new key gets a share of the list. */
  lemma {:induction false} InsertedShares(shares: Shares, list: seq<KeyShare>)
    ensures var shares' := InsertShares(shares, list);
      && shares'.Keys == shares.Keys + Keys(list)
      && (forall k :: k in shares ==> shares'[k] == shares[k])
      && (forall k :: k in shares' && k !in shares ==>
            exists i :: 0 <= i < |list| && list[i].Key() == k && list[i].sealed == shares'[k])
    decreases |list|
  {
    if list != [] {
      var init, last := list[..|list| - 1], list[|list| - 1];
      InsertedShares(shares, init);
      assert Keys(list) == Keys(init) + {last.Key()} by {
        assert forall i :: 0 <= i < |init| ==> init[i] == list[i];
        assert list[|list| - 1].Key() == last.Key();
      }
      var before, after := InsertShares(shares, init), InsertShares(shares, list);
      forall k | k in after && k !in shares
        ensures exists i :: 0 <= i < |list| && list[i].Key() == k && list[i].sealed == after[k]
      {
        if k in before {
          var i :| 0 <= i < |init| && init[i].Key() == k && init[i].sealed == before[k];
          assert list[i].Key() == k;
        } else {
          assert list[|list| - 1].Key() == k;
        }
      }
    }
  }

  /** Both rows a share refers to exist. */
  predicate Referable(db: Db, sh: KeyShare) {
    sh.vault in db.vaults && sh.device in db.devices
  }

  /** How many shares go in before the first that refers to nothing. */
  function ReferablePrefix(db: Db, list: seq<KeyShare>): (n: nat)
    ensures n <= |list| && forall i :: 0 <= i < n ==> Referable(db, list[i])
    ensures n < |list| ==> !Referable(db, list[n])
  {
    if list == [] || !Referable(db, list[0]) then 0 else 1 + ReferablePrefix(db, list[1..])
  }

  lemma PrefixOfReferable(db: Db, list: seq<KeyShare>, n: nat)
    requires n <= |list| && forall i :: 0 <= i < n ==> Referable(db, list[i])
    requires n == |list| || !Referable(db, list[n])
    ensures ReferablePrefix(db, list) == n
  {
  }

  /** One statement per share, each committed on its own. */
  method AddKeyShares(s: Store, list: seq<KeyShare>) returns (ok: bool)
    modifies s
    ensures ok <==> ReferablePrefix(old(s.db), list) == |list|
    ensures s.db == old(s.db).(shares := InsertShares(old(s.db).shares, list[..ReferablePrefix(old(s.db), list)]))
  {
    assert list[..0] == [];
    for i := 0 to |list|
      invariant s.db == old(s.db).(shares := InsertShares(old(s.db).shares, list[..i]))
      invariant forall j :: 0 <= j < i ==> Referable(old(s.db), list[j])
    {
      if !Referable(s.db, list[i]) {
        PrefixOfReferable(old(s.db), list, i);
        return false;
      }
      assert list[..i + 1][..i] == list[..i];
      s.db := s.db.(shares := InsertShare(s.db.shares, list[i]));
    }
    PrefixOfReferable(old(s.db), list, |list|);
    ok := true;
  }

  function InVault(v: VaultId, list: seq<KeyShare>): seq<KeyShare> {
    seq(|list|, i requires 0 <= i < |list| => list[i].(vault := v))
  }

  /** The grant row and all shares, or nothing. */
  function GrantInserted(db: Db, v: VaultId, u: UserId, list: seq<KeyShare>): Option<Db> {
    if v !in db.vaults || u !in db.users || ReferablePrefix(db, InVault(v, list)) < |list| then None
    else Some(db.(grants := db.grants + {GrantKey(v, u)}, shares := InsertShares(db.shares, InVault(v, list))))
  }

  method Grant(s: Store, v: VaultId, u: UserId, list: seq<KeyShare>) returns (ok: bool)
    modifies s
    ensures ok <==> GrantInserted(old(s.db), v, u, list).Some?
    ensures s.db == if ok then GrantInserted(old(s.db), v, u, list).value else old(s.db)
  {
    if v !in s.db.vaults || u !in s.db.users {
      return false;
    }
    var tx := s.db.(grants := s.db.grants + {GrantKey(v, u)});
    ghost var inVault := InVault(v, list);
    assert inVault[..0] == [];
    for i := 0 to |list|
      invariant tx == s.db.(grants := s.db.grants + {GrantKey(v, u)}, shares := InsertShares(s.db.shares, inVault[..i]))
      invariant s.db == old(s.db)
      invariant forall j :: 0 <= j < i ==> Referable(s.db, inVault[j])
    {
      var sh := list[i].(vault := v);
      if !Referable(tx, sh) {
        PrefixOfReferable(s.db, inVault, i);
        return false;
      }
      assert inVault[..i + 1][..i] == inVault[..i];
      tx := tx.(shares := InsertShare(tx.shares, sh));
    }
    PrefixOfReferable(s.db, inVault, |list|);
    assert inVault[..|list|] == inVault;
    s.db := tx;
    ok := true;
  }

  predicate BelongsTo(db: Db, d: DeviceId, u: UserId) {
    d in db.devices && db.devices[d].user == u
  }

  /** Without the user's grant and the shares of the user's devices in the vault. */
  function WithoutGrant(db: Db, v: VaultId, u: UserId): Db {
    db.(grants := db.grants - {GrantKey(v, u)},
        shares := map k | k in db.shares && !(k.vault == v && BelongsTo(db, k.device, u)) :: db.shares[k])
  }

  method RevokeGrant(s: Store, v: VaultId, u: UserId)
    modifies s
    ensures s.db == WithoutGrant(old(s.db), v, u)
  {
    var tx := s.db.(grants := s.db.grants - {GrantKey(v, u)});
    tx := tx.(shares := map k | k in tx.shares && !(k.vault == v && BelongsTo(tx, k.device, u)) :: tx.shares[k]);
    s.db := tx;
  }

  predicate VaultNameTaken(db: Db, name: string) {
    exists v :: v in db.vaults && db.vaults[v].name == name
  }

  predicate DistinctKeys(list: seq<KeyShare>) {
    forall i, j :: 0 <= i < j < |list| ==> list[i].Key() != list[j].Key()
  }

  /** The vault row and its first shares, or nothing; here a second share for a key is an error. */
  function VaultInserted(db: Db, newId: VaultId, team: TeamId, name: string, list: seq<KeyShare>): Option<Db> {
    var db1 := db.(vaults := db.vaults[newId := VaultRow(team, name)]);
    if team !in db.teams || VaultNameTaken(db, name) || ReferablePrefix(db1, InVault(newId, list)) < |list|
       || !DistinctKeys(InVault(newId, list))
    then None
    else Some(db1.(shares := InsertShares(db1.shares, InVault(newId, list))))
  }

  /** Among shares of other vaults, a key is in the way exactly if the list had it before. */
  lemma RepeatedKey(shares: Shares, list: seq<KeyShare>, i: nat)
    requires i < |list| && list[i].Key() !in shares
    ensures list[i].Key() in InsertShares(shares, list[..i]) <==>
      exists j :: 0 <= j < i && list[j].Key() == list[i].Key()
  {
    var init := list[..i];
    InsertedShares(shares, init);
    if list[i].Key() in InsertShares(shares, init) {
      var j :| 0 <= j < |init| && init[j].Key() == list[i].Key();
      assert list[j].Key() == list[i].Key();
    }
    if j :| 0 <= j < i && list[j].Key() == list[i].Key() {
      assert init[j].Key() in Keys(init);
    }
  }

  method CreateVault(s: Store, newId: VaultId, team: TeamId, name: string, list: seq<KeyShare>) returns (ok: bool)
    requires forall k :: k in s.db.shares ==> k.vault != newId
    modifies s
    ensures ok <==> VaultInserted(old(s.db), newId, team, name, list).Some?
    ensures s.db == if ok then VaultInserted(old(s.db), newId, team, name, list).value else old(s.db)
  {
    if team !in s.db.teams || VaultNameTaken(s.db, name) {
      return false;
    }
    var tx := s.db.(vaults := s.db.vaults[newId := VaultRow(team, name)]);
    var shares := InsertFirstShares(tx, InVault(newId, list));
    if shares.None? {
      return false;
    }
    s.db := tx.(shares := shares.value);
    ok := true;
  }

  method InsertFirstShares(db: Db, list: seq<KeyShare>) returns (r: Option<Shares>)
    requires forall i :: 0 <= i < |list| ==> list[i].Key() !in db.shares
    ensures r == if ReferablePrefix(db, list) == |list| && DistinctKeys(list)
                 then Some(InsertShares(db.shares, list)) else None
  {
    var shares := db.shares;
    assert list[..0] == [];
    for i := 0 to |list|
      invariant shares == InsertShares(db.shares, list[..i])
      invariant forall j :: 0 <= j < i ==> Referable(db, list[j])
      invariant forall j, j' :: 0 <= j < j' < i ==> list[j].Key() != list[j'].Key()
    {
      RepeatedKey(db.shares, list, i);
      if !Referable(db, list[i]) {
        PrefixOfReferable(db, list, i);
        return None;
      }
      if list[i].Key() in shares {
        return None;
      }
      assert list[..i + 1][..i] == list[..i];
      shares := InsertShare(shares, list[i]);
    }
    PrefixOfReferable(db, list, |list|);
    assert list[..|list|] == list;
    r := Some(shares);
  }

  /** The device's shares in the vault, lowest key version first. */
  ghost predicate DeviceShares(shares: Shares, v: VaultId, d: DeviceId, out: seq<KeyShare>) {
    && (forall i :: 0 <= i < |out| ==>
          out[i].Key() in shares && out[i].sealed == shares[out[i].Key()] && out[i].vault == v && out[i].device == d)
    && (forall i, j :: 0 <= i < j < |out| ==> out[i].keyVersion < out[j].keyVersion)
    && (forall kv :: ShareKey(v, d, kv) in shares ==> exists i :: 0 <= i < |out| && out[i].keyVersion == kv)
  }

  /** out holds the shares of one device that are not in rows, all with lower versions than those. */
  ghost predicate Scanned(shares: Shares, v: VaultId, d: DeviceId, out: seq<KeyShare>, rows: set<ShareKey>) {
    && (forall i :: 0 <= i < |out| ==>
          out[i].Key() in shares && out[i].sealed == shares[out[i].Key()] && out[i].vault == v && out[i].device == d)
    && (forall i, j :: 0 <= i < j < |out| ==> out[i].keyVersion < out[j].keyVersion)
    && (forall i, k :: 0 <= i < |out| && k in rows ==> out[i].keyVersion < k.keyVersion)
    && (forall kv :: ShareKey(v, d, kv) in shares ==>
          ShareKey(v, d, kv) in rows || exists i :: 0 <= i < |out| && out[i].keyVersion == kv)
  }

  lemma ScanStep(shares: Shares, v: VaultId, d: DeviceId, out: seq<KeyShare>, rows: set<ShareKey>, k: ShareKey)
    requires Scanned(shares, v, d, out, rows) && k in rows && k in shares && k.vault == v && k.device == d
    requires forall k' :: k' in rows && k' != k ==> k.keyVersion < k'.keyVersion
    ensures Scanned(shares, v, d, out + [KeyShare(v, d, k.keyVersion, shares[k])], rows - {k})
  {
    var longer := out + [KeyShare(v, d, k.keyVersion, shares[k])];
    assert longer[|out|].keyVersion == k.keyVersion && longer[|out|].Key() == k;
    forall kv | ShareKey(v, d, kv) in shares && ShareKey(v, d, kv) !in rows - {k}
      ensures exists i :: 0 <= i < |longer| && longer[i].keyVersion == kv
    {
      if kv != k.keyVersion {
        var i :| 0 <= i < |out| && out[i].keyVersion == kv;
        assert longer[i].keyVersion == kv;
      }
    }
  }

  method GetKeySharesForDevice(shares: Shares, v: VaultId, d: DeviceId) returns (out: seq<KeyShare>)
    ensures DeviceShares(shares, v, d, out)
  {
    out := [];
    var rows := set k | k in shares && k.vault == v && k.device == d;
    while rows != {}
      invariant forall k :: k in rows ==> k in shares && k.vault == v && k.device == d
      invariant Scanned(shares, v, d, out, rows)
      decreases |rows|
    {
      var k := LowestVersion(rows);
      ScanStep(shares, v, d, out, rows, k);
      out := out + [KeyShare(k.vault, k.device, k.keyVersion, shares[k])];
      rows := rows - {k};
    }
  }

  method LowestVersion(rows: set<ShareKey>) returns (low: ShareKey)
    requires rows != {} && forall k, k' :: k in rows && k' in rows && k.keyVersion == k'.keyVersion ==> k == k'
    ensures low in rows && forall k :: k in rows && k != low ==> low.keyVersion < k.keyVersion
  {
    low :| low in rows;
    var rest := rows - {low};
    while rest != {}
      invariant rest <= rows && low in rows
      invariant forall k :: k in rows && k !in rest ==> low.keyVersion <= k.keyVersion
      decreases |rest|
    {
      var k :| k in rest;
      if k.keyVersion < low.keyVersion {
        low := k;
      }
      rest := rest - {k};
    }
  }
}
