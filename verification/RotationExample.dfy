/** One rotation in full, for which all the hypotheses of KeyRotation hold: ann, the admin of a team,
    revokes bob's access to a vault with one file. */
module RotationExample {
  import opened Common
  import opened Crypto
  import opened Schema
  import opened Lookup
  import opened FileStore
  import opened VaultStore
  import opened VaultHandlers
  import opened VaultClient
  import opened Revocation
  import opened KeyProtocol
  import opened KeyRotation

  const ROW := VersionRow(1, SecretBox(5, 0, [7]), 41, Some(0), false)
  const TABLES := FileTables(map[FileKey(0, "f") := FileRow(0, 1, false)], map[VersionKey(0, 1) := ROW])

  const BEFORE := Db(
    map[0 := UserRow("ann"), 1 := UserRow("bob")],
    map[0 := DeviceRow(0, "desk", 10, 20, HashOf(10), ActiveDevice),
        1 := DeviceRow(1, "lap", 11, 21, HashOf(11), ActiveDevice)],
    map[0 := TeamRow("t")],
    map[MemberKey(0, 0) := MemberRow(ActiveMember, Admin)],
    map[0 := VaultRow(0, "v")],
    {GrantKey(0, 0), GrantKey(0, 1)},
    map[ShareKey(0, 0, 1) := SealedBox(20, 5), ShareKey(0, 1, 1) := SealedBox(21, 5)],
    TABLES, map[], [])

  const KEYS: KeyBook := map[KeyName(0, 1) := 5]
  const ANN := Session(Caller(0, 0), 20)
  const CALL := RevokeCall(0, "bob", "t", [WireShare(None, 0, 2, SealedBox(20, 6))],
                           [FilePush("f", 2, 1, SecretBox(6, 0, [7]), false)])

  lemma TablesAreValid()
    ensures Valid(TABLES) && LogOf(TABLES, FileKey(0, "f")) == [ROW]
    ensures forall k :: k != FileKey(0, "f") ==> LogOf(TABLES, k) == []
  {
    assert TABLES.files[FileKey(0, "f")].id == 0;
    assert forall vk :: vk in TABLES.versions ==> HasId(TABLES.files, vk.file);
    LogIs(TABLES, FileKey(0, "f"));
  }

  lemma NamesResolve()
    ensures UserNamed(BEFORE, "bob") == Some(1) && TeamNamed(BEFORE, "t") == Some(0)
  {
    assert BEFORE.users[1].username == "bob" && BEFORE.users[0].username == "ann";
    assert BEFORE.teams[0].name == "t";
  }

  lemma KeysAreRight()
    ensures KeyInv(BEFORE, KEYS)
  {
    TablesAreValid();
    forall k: FileKey
      ensures LogOk(KEYS, k.vault, LogOf(TABLES, k))
    {
      assert k == FileKey(0, "f") || LogOf(TABLES, k) == [];
    }
  }

  lemma AnnHoldsTheKey()
    ensures Fetched(BEFORE, 0, ANN) == Some(HeldKey(1, 5))
  {
    HeldIsUnique(BEFORE.shares, 0, ANN, Some(HeldKey(1, 5)), Held(BEFORE.shares, 0, ANN));
  }

  lemma CallIsRebuilt()
    ensures Valid(TABLES) && Rebuilt(TABLES, 0, 5, 6, 2, CALL.files)
  {
    TablesAreValid();
    assert CALL.files[0].path == "f";
  }

  lemma CallSeals()
    ensures SealsToActive(BEFORE, 0, 6, 2, CALL.shares)
  {
    assert CALL.shares[0].device == 0;
  }

  /** The rotation meets its hypotheses, its file is live, and it goes through. */
  lemma HypothesesAreMet(ids: nat -> FileId)
    ensures ProperRotation(BEFORE, KEYS, ANN, 6, CALL) && Fellow(BEFORE, ANN, ANN)
    ensures Live(LogOf(BEFORE.ft, FileKey(CALL.vault, "f"))) && RevokeCompletes(BEFORE, ANN.caller, CALL, ids)
  {
    TablesAreValid();
    NamesResolve();
    KeysAreRight();
    AnnHoldsTheKey();
    CallIsRebuilt();
    CallSeals();
    GoesThrough(ids);
  }

  lemma GoesThrough(ids: nat -> FileId)
    ensures MayRevoke(BEFORE, ANN.caller, CALL) && RevokeCompletes(BEFORE, ANN.caller, CALL, ids)
  {
    NamesResolve();
    var db1, list, pushes := WithoutGrant(BEFORE, 0, 1), StoreShares(CALL.shares, 0), Pushes(CALL.files, 0, ANN.caller);
    PrefixOfReferable(db1, list, 1);
    assert Goes(Shared(db1, list, 1), pushes, ids, 0);
  }

  // ---------------------------------------------------------------- what can go wrong

  /** Before its file is pushed, ann's device cannot pull it, though it has shares of both keys. */
  lemma StrandedInTheMiddle(ids: nat -> FileId)
    ensures MayRevoke(BEFORE, ANN.caller, CALL) && Valid(BEFORE.ft) && PullAction(BEFORE, 0, ANN, "f") == Some([7])
    ensures var m := RevokeState(BEFORE, ANN.caller, CALL, ids, 1); Valid(m.ft) && PullAction(m, 0, ANN, "f") == None
  {
    HypothesesAreMet(ids);
    AnnHoldsTheKey();
    TablesAreValid();
    MidOfRotation(BEFORE, KEYS, ANN, 6, CALL, ids, 1);
    PullInMidRotation(BEFORE, KEYS, ANN, 6, CALL, 1, RevokeState(BEFORE, ANN.caller, CALL, ids, 1), ANN, "f");
  }

  const SELF_CALL := CALL.(username := "ann")

  lemma SelfCall()
    ensures UserNamed(BEFORE, "ann") == Some(0) && MayRevoke(BEFORE, ANN.caller, SELF_CALL)
    ensures Rotating(BEFORE, ANN, 0, "ann", "t", 6, SELF_CALL)
  {
    assert BEFORE.users[0].username == "ann" && BEFORE.users[1].username == "bob";
    NamesResolve();
    AnnHoldsTheKey();
    CallIsRebuilt();
    CallSeals();
  }

  /** ann revokes herself, and is left with a share and no grant. */
  lemma AnnRevokesHerself(ids: nat -> FileId)
    ensures MayRevoke(BEFORE, ANN.caller, SELF_CALL)
    ensures !SharesHaveGrants(RevokeState(BEFORE, ANN.caller, SELF_CALL, ids, 1))
  {
    SelfCall();
    KeysAreRight();
    PrefixOfReferable(WithoutGrant(BEFORE, 0, 0), StoreShares(SELF_CALL.shares, 0), 1);
    SelfRevocationIff(BEFORE, KEYS, ANN, 6, SELF_CALL, ids, 1);
  }
}
