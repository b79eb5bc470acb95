/** A run of client actions after which a device has missed a rotation, and what that device can do then:
    ann's, in a team with two admins, once bob has made version 2 of the key. */
module StaleDevice {
  import opened Common
  import opened Crypto
  import opened Schema
  import opened Lookup
  import opened FileStore
  import opened VaultStore
  import opened VaultHandlers
  import opened VaultClient
  import opened Revocation
  import opened KeyProtocol
  import opened KeyRotation

  const ANN := Session(Caller(0, 0), 20)
  const BOB := Session(Caller(1, 1), 21)
  const NO_FILES := FileTables(map[], map[])

  /** ann and bob are admins of a team without a vault; cat is a user. */
  const START := Db(
    map[0 := UserRow("ann"), 1 := UserRow("bob"), 2 := UserRow("cat")],
    map[0 := DeviceRow(0, "desk", 10, 20, HashOf(10), ActiveDevice),
        1 := DeviceRow(1, "lap", 11, 21, HashOf(11), ActiveDevice)],
    map[0 := TeamRow("t")],
    map[MemberKey(0, 0) := MemberRow(ActiveMember, Admin), MemberKey(0, 1) := MemberRow(ActiveMember, Admin)],
    map[], {}, map[], NO_FILES, map[], [])

  const ANNS := WireShare(None, 0, 1, SealedBox(20, 5))
  const BOBS := WireShare(None, 1, 1, SealedBox(21, 5))
  const BOBS_NEXT := WireShare(None, 1, 2, SealedBox(21, 9))
  const BOBS_CALL := RevokeCall(0, "cat", "t", [BOBS_NEXT], [])

  /** ann creates a vault and grants it to bob; bob revokes cat, which makes version 2, pushes a
      file and removes it. */
  const CREATE := DoCreate(ANN, "t", "v", 5, [ANNS], 0)
  const GRANT := DoGrant(ANN, "t", 0, "bob", [BOBS])
  const ROTATE := DoRevoke(BOB, 9, BOBS_CALL, _ => 0)
  const PUSH := DoPush(BOB, 0, "f", [7], 0, 0)
  const REMOVE := DoRemove(BOB, 0, "f", 1, 0)

  const CREATED := START.(
    vaults := map[0 := VaultRow(0, "v")],
    grants := {GrantKey(0, 0)},
    shares := map[ShareKey(0, 0, 1) := SealedBox(20, 5)],
    audit := [AuditRow(Some(0), Some(0), Some(0), VaultCreated, Name("v"), 0)])

  const GRANTED := CREATED.(
    grants := {GrantKey(0, 0), GrantKey(0, 1)},
    shares := map[ShareKey(0, 0, 1) := SealedBox(20, 5), ShareKey(0, 1, 1) := SealedBox(21, 5)],
    audit := CREATED.audit + [AuditRow(Some(0), Some(0), Some(0), Granted, Name("bob"), 0)])

  const ROTATED := GRANTED.(
    shares := map[ShareKey(0, 0, 1) := SealedBox(20, 5), ShareKey(0, 1, 1) := SealedBox(21, 5),
                  ShareKey(0, 1, 2) := SealedBox(21, 9)],
    audit := GRANTED.audit + [AuditRow(Some(1), Some(1), Some(0), GrantRevoked, Name("cat"), 0)])

  const PUSHED := ROTATED.(
    ft := FileTables(map[FileKey(0, "f") := FileRow(0, 1, false)],
                     map[VersionKey(0, 1) := VersionRow(2, SecretBox(9, 0, [7]), 41, Some(1), false)]),
    audit := ROTATED.audit + [AuditRow(Some(1), Some(1), Some(0), FilePushed, Name("f"), 0)])

  const REMOVED := PUSHED.(
    ft := FileTables(map[FileKey(0, "f") := FileRow(0, 2, true)],
                     map[VersionKey(0, 1) := VersionRow(2, SecretBox(9, 0, [7]), 41, Some(1), false),
                         VersionKey(0, 2) := VersionRow(2, SecretBox(9, 1, []), 40, Some(1), true)]),
    audit := PUSHED.audit + [AuditRow(Some(1), Some(1), Some(0), FileDeleted, Name("f"), 0)])

  const KEYS_CREATED: KeyBook := map[KeyName(0, 1) := 5]
  const KEYS_ROTATED: KeyBook := map[KeyName(0, 1) := 5, KeyName(0, 2) := 9]

  lemma Names(db: Db)
    requires db.users == START.users && db.teams == START.teams
    ensures UserNamed(db, "bob") == Some(1) && UserNamed(db, "cat") == Some(2) && TeamNamed(db, "t") == Some(0)
  {
    assert db.users[0].username == "ann" && db.users[1].username == "bob" && db.users[2].username == "cat";
    assert db.teams[0].name == "t";
  }

  lemma NoFiles()
    ensures Valid(NO_FILES) && forall k :: LogOf(NO_FILES, k) == []
  {
  }

  lemma Fetches(db: Db, ses: Session, held: HeldKey)
    requires ActiveAuthed(db, ses.caller) && HasAccess(db, 0, ses.caller.user) && IsHeld(db.shares, 0, ses, Some(held))
    ensures Fetched(db, 0, ses) == Some(held)
  {
    HeldIsUnique(db.shares, 0, ses, Some(held), Held(db.shares, 0, ses));
  }

  /** Inserting a list of one share that can be stored. */
  lemma OneShare(db: Db, sh: WireShare)
    requires 0 in db.vaults && sh.device in db.devices && sh.vault.None?
    ensures InVault(0, StoreShares([sh], 0)) == StoreShares([sh], 0) == [ToStore(sh, 0)]
    ensures ReferablePrefix(db, StoreShares([sh], 0)) == 1
    ensures var k := ToStore(sh, 0).Key();
      InsertShares(db.shares, StoreShares([sh], 0)) == if k in db.shares then db.shares else db.shares[k := sh.sealed]
  {
    var list := StoreShares([sh], 0);
    assert list == [ToStore(sh, 0)] && InVault(0, list) == list && list[..0] == [];
    PrefixOfReferable(db, list, 1);
  }

  lemma SealsToOne(db: Db, u: UserId, d: DeviceId, key: VaultKey, kv: int, sh: WireShare)
    requires SealsTo(db, u, key, kv, sh) && sh.device == d && forall d' :: BelongsTo(db, d', u) ==> d' == d
    ensures SealsToActive(db, u, key, kv, [sh])
  {
    assert [sh][0].device == d;
  }

  // ---------------------------------------------------------------- the run

  lemma CreateGoesThrough()
    ensures After(START, CREATE, 0) == CREATED
    ensures CreateVaultRequest(START, ANN.caller, "t", "v", [ANNS], 0, 0).answer.Some?
  {
    Names(START);
    OneShare(START.(vaults := map[0 := VaultRow(0, "v")]), ANNS);
  }

  lemma Creates()
    ensures Allowed(START, map[], CREATE)
    ensures After(START, CREATE, 0) == CREATED && KeysAfter(START, map[], CREATE, 0) == KEYS_CREATED
  {
    SealsToOne(START, 0, 0, 5, 1, ANNS);
    CreateGoesThrough();
  }

  lemma GrantIsAllowed()
    ensures Allowed(CREATED, KEYS_CREATED, GRANT)
  {
    Names(CREATED);
    Fetches(CREATED, ANN, HeldKey(1, 5));
    SealsToOne(CREATED, 1, 1, 5, 1, BOBS);
  }

  lemma Grants()
    ensures After(CREATED, GRANT, 0) == GRANTED
  {
    Names(CREATED);
    OneShare(CREATED, BOBS);
  }

  lemma BobHolds()
    ensures Fetched(GRANTED, 0, BOB) == Some(HeldKey(1, 5)) && SealsToActive(GRANTED, 1, 9, 2, [BOBS_NEXT])
  {
    Fetches(GRANTED, BOB, HeldKey(1, 5));
    SealsToOne(GRANTED, 1, 1, 9, 2, BOBS_NEXT);
  }

  lemma VersionTwoIsFree()
    ensures UserNamed(GRANTED, "cat") == Some(2) && Unused(TargetGone(GRANTED, BOBS_CALL).shares, 0, 2)
    ensures Valid(GRANTED.ft) && NoRowUnder(GRANTED.ft, 0, 2)
  {
    Names(GRANTED);
    NoFiles();
  }

  lemma BobsCallIsBuilt()
    ensures Rotating(GRANTED, BOB, 0, "cat", "t", 9, BOBS_CALL) && Fetched(GRANTED, 0, BOB) == Some(HeldKey(1, 5))
  {
    NoFiles();
    BobHolds();
  }

  lemma BobsCallIsAny()
    requires KeyInv(GRANTED, KEYS_CREATED)
    ensures AnyRotation(GRANTED, KEYS_CREATED, BOB, 9, BOBS_CALL)
  {
    Names(GRANTED);
    BobsCallIsBuilt();
  }

  lemma BobsVersionIsFree()
    ensures Valid(GRANTED.ft) && Fetched(GRANTED, 0, BOB) == Some(HeldKey(1, 5)) && UserNamed(GRANTED, "cat").Some?
    ensures NextIsFree(GRANTED, BOB, BOBS_CALL)
  {
    BobHolds();
    VersionTwoIsFree();
  }

  lemma BobMayRotate()
    requires KeyInv(GRANTED, KEYS_CREATED)
    ensures Allowed(GRANTED, KEYS_CREATED, ROTATE) && KeysAfter(GRANTED, KEYS_CREATED, ROTATE, 0) == KEYS_ROTATED
  {
    BobsCallIsAny();
    BobsVersionIsFree();
  }

  lemma CatHasNothing()
    ensures var db1 := WithoutGrant(GRANTED, 0, 2); db1.grants == GRANTED.grants && db1.shares == GRANTED.shares
  {
  }

  lemma Rotates()
    ensures After(GRANTED, ROTATE, 0) == ROTATED
  {
    Names(GRANTED);
    CatHasNothing();
    var list := StoreShares([BOBS_NEXT], 0);
    OneShare(WithoutGrant(GRANTED, 0, 2), BOBS_NEXT);
    assert list[..1] == list;
  }

  lemma PushIsAllowed()
    ensures Allowed(ROTATED, KEYS_ROTATED, PUSH) && After(ROTATED, PUSH, 0) == PUSHED
  {
    NoFiles();
    Fetches(ROTATED, BOB, HeldKey(2, 9));
  }

  lemma BobsLog()
    requires Valid(PUSHED.ft)
    ensures LogOf(PUSHED.ft, FileKey(0, "f")) == [PUSHED.ft.versions[VersionKey(0, 1)]]
  {
    LogIs(PUSHED.ft, FileKey(0, "f"));
  }

  const REMOVAL := FilePush("f", 2, 1, SecretBox(9, 1, []), true)

  lemma RemovalIsStored()
    ensures PushOutcome(PUSHED, PUSHED.ft, REMOVAL.Args(0, BOB.caller), 0) == Accepted(2)
    ensures AfterPush(PUSHED, PUSHED.ft, REMOVAL.Args(0, BOB.caller), 0) == REMOVED.ft
  {
  }

  lemma RemovalIsHandled()
    ensures PushRequest(PUSHED, BOB.caller, 0, REMOVAL, 0, 0).db == REMOVED
  {
    RemovalIsStored();
  }

  lemma RemoveIsAllowed()
    requires Valid(PUSHED.ft)
    ensures Allowed(PUSHED, KEYS_ROTATED, REMOVE) && After(PUSHED, REMOVE, 0) == REMOVED
  {
    BobsLog();
    Fetches(PUSHED, BOB, HeldKey(2, 9));
    RemovalIsHandled();
  }

  /** The invariant along the way. */
  lemma GrantedIsInOrder()
    ensures KeyInv(START, map[]) && KeyInv(CREATED, KEYS_CREATED) && KeyInv(GRANTED, KEYS_CREATED)
  {
    NoKeysAtFirst(START);
    Creates();
    StepKeepsKeys(START, map[], CREATE, 0);
    GrantIsAllowed();
    Grants();
    StepKeepsKeys(CREATED, KEYS_CREATED, GRANT, 0);
  }

  lemma RotatedIsInOrder()
    ensures KeyInv(GRANTED, KEYS_CREATED) && KeyInv(ROTATED, KEYS_ROTATED)
  {
    GrantedIsInOrder();
    BobMayRotate();
    Rotates();
    StepKeepsKeys(GRANTED, KEYS_CREATED, ROTATE, 0);
  }

  lemma PushedIsInOrder()
    ensures KeyInv(ROTATED, KEYS_ROTATED) && KeyInv(PUSHED, KEYS_ROTATED)
  {
    RotatedIsInOrder();
    PushIsAllowed();
    StepKeepsKeys(ROTATED, KEYS_ROTATED, PUSH, 0);
  }

  lemma RemovedIsInOrder()
    ensures KeyInv(PUSHED, KEYS_ROTATED) && KeyInv(REMOVED, KEYS_ROTATED)
  {
    PushedIsInOrder();
    RemoveIsAllowed();
    StepKeepsKeys(PUSHED, KEYS_ROTATED, REMOVE, 0);
  }

  /** A run of allowed client actions leads from one state to the other. */
  ghost predicate Leads(db: Db, keys: KeyBook, db': Db, keys': KeyBook) {
    KeyInv(db, keys) && exists steps :: Run(db, keys, steps, db', keys')
  }

  lemma LeadsNowhere(db: Db, keys: KeyBook)
    requires KeyInv(db, keys)
    ensures Leads(db, keys, db, keys)
  {
    assert Run(db, keys, [], db, keys);
  }

  lemma LeadsOn(db: Db, keys: KeyBook, s: Step, db1: Db, keys1: KeyBook, db': Db, keys': KeyBook)
    requires KeyInv(db, keys) && Allowed(db, keys, s) && After(db, s, 0) == db1 && KeysAfter(db, keys, s, 0) == keys1
    requires Leads(db1, keys1, db', keys')
    ensures Leads(db, keys, db', keys')
  {
    var rest :| Run(db1, keys1, rest, db', keys');
    var steps := [Timed(s, 0)] + rest;
    assert steps[1..] == rest;
    assert Run(db, keys, steps, db', keys');
  }

  lemma FromGranted(db': Db)
    requires Leads(ROTATED, KEYS_ROTATED, db', KEYS_ROTATED)
    ensures Leads(GRANTED, KEYS_CREATED, db', KEYS_ROTATED)
  {
    RotatedIsInOrder();
    BobMayRotate();
    Rotates();
    LeadsOn(GRANTED, KEYS_CREATED, ROTATE, ROTATED, KEYS_ROTATED, db', KEYS_ROTATED);
  }

  lemma FromStart(db': Db)
    requires Leads(GRANTED, KEYS_CREATED, db', KEYS_ROTATED)
    ensures Leads(START, map[], db', KEYS_ROTATED)
  {
    GrantedIsInOrder();
    GrantIsAllowed();
    Grants();
    LeadsOn(CREATED, KEYS_CREATED, GRANT, GRANTED, KEYS_CREATED, db', KEYS_ROTATED);
    Creates();
    LeadsOn(START, map[], CREATE, CREATED, KEYS_CREATED, db', KEYS_ROTATED);
  }

  lemma RotatedIsReached()
    ensures Leads(START, map[], ROTATED, KEYS_ROTATED)
  {
    RotatedIsInOrder();
    LeadsNowhere(ROTATED, KEYS_ROTATED);
    FromGranted(ROTATED);
    FromStart(ROTATED);
  }

  lemma FromRotated(db': Db)
    requires Leads(PUSHED, KEYS_ROTATED, db', KEYS_ROTATED)
    ensures Leads(ROTATED, KEYS_ROTATED, db', KEYS_ROTATED)
  {
    PushedIsInOrder();
    PushIsAllowed();
    LeadsOn(ROTATED, KEYS_ROTATED, PUSH, PUSHED, KEYS_ROTATED, db', KEYS_ROTATED);
  }

  lemma PushedIsReached()
    ensures Leads(START, map[], PUSHED, KEYS_ROTATED)
  {
    PushedIsInOrder();
    LeadsNowhere(PUSHED, KEYS_ROTATED);
    FromRotated(PUSHED);
    FromGranted(PUSHED);
    FromStart(PUSHED);
  }

  lemma RemovedFollows()
    ensures Leads(PUSHED, KEYS_ROTATED, REMOVED, KEYS_ROTATED)
  {
    RemovedIsInOrder();
    RemoveIsAllowed();
    LeadsNowhere(REMOVED, KEYS_ROTATED);
    LeadsOn(PUSHED, KEYS_ROTATED, REMOVE, REMOVED, KEYS_ROTATED, REMOVED, KEYS_ROTATED);
  }

  lemma RemovedIsReached()
    ensures Leads(START, map[], REMOVED, KEYS_ROTATED)
  {
    RemovedFollows();
    FromRotated(REMOVED);
    FromGranted(REMOVED);
    FromStart(REMOVED);
  }

  // ---------------------------------------------------------------- what ann's device can do

  const STALE_CALL := RevokeCall(0, "cat", "t", [WireShare(None, 0, 2, SealedBox(20, 6))], [])

  lemma AnnsCall()
    ensures Fetched(ROTATED, 0, ANN) == Some(HeldKey(1, 5))
    ensures MayRevoke(ROTATED, ANN.caller, STALE_CALL) && Rotating(ROTATED, ANN, 0, "cat", "t", 6, STALE_CALL)
  {
    Names(ROTATED);
    NoFiles();
    Fetches(ROTATED, ANN, HeldKey(1, 5));
    SealsToOne(ROTATED, 0, 0, 6, 2, STALE_CALL.shares[0]);
  }

  lemma AnnsCallGoesThrough(ids: nat -> FileId)
    ensures MayRevoke(ROTATED, ANN.caller, STALE_CALL) && RevokeReach(ROTATED, ANN.caller, STALE_CALL, ids) == 1
  {
    AnnsCall();
    OneShare(WithoutGrant(ROTATED, 0, 2), STALE_CALL.shares[0]);
  }

  lemma BobsShareIsThere()
    ensures UserNamed(ROTATED, "cat") == Some(2) && !Unused(WithoutGrant(ROTATED, 0, 2).shares, 0, 2)
  {
    Names(ROTATED);
    assert ShareKey(0, 1, 2) in WithoutGrant(ROTATED, 0, 2).shares;
  }

  lemma VersionTwoHasTwoKeys(ids: nat -> FileId)
    ensures MayRevoke(ROTATED, ANN.caller, STALE_CALL)
    ensures !OneKeyPerVersion(RevokeState(ROTATED, ANN.caller, STALE_CALL, ids, 1).shares)
  {
    RotatedIsInOrder();
    AnnsCall();
    AnnsCallGoesThrough(ids);
    BobsShareIsThere();
    RotationKeepsOneKeyPerVersionIff(ROTATED, KEYS_ROTATED, ANN, 6, STALE_CALL, ids, 1);
  }

  lemma AnnsRequest(ids: nat -> FileId, at: int)
    ensures var r := RevokeRequest(ROTATED, ANN.caller, STALE_CALL, ids, at);
      r.answer.Some? && !OneKeyPerVersion(r.db.shares)
  {
    VersionTwoHasTwoKeys(ids);
    AnnsCallGoesThrough(ids);
    RevokedLast(ROTATED, ANN.caller, STALE_CALL, ids, at);
  }

  lemma VersionTwoIsTaken()
    ensures Valid(ROTATED.ft) && Fetched(ROTATED, 0, ANN) == Some(HeldKey(1, 5))
    ensures UserNamed(ROTATED, "cat").Some? && !NextIsFree(ROTATED, ANN, STALE_CALL)
  {
    RotatedIsInOrder();
    AnnsCall();
    BobsShareIsThere();
  }

  lemma NoBookForStale(ids: nat -> FileId, at: int)
    requires RevokeRequest(ROTATED, ANN.caller, STALE_CALL, ids, at).answer.Some?
    ensures !HasBook(RevokeRequest(ROTATED, ANN.caller, STALE_CALL, ids, at).db)
  {
    RotatedIsInOrder();
    AnnsCall();
    VersionTwoIsTaken();
    CompletedKeepsKeysIff(ROTATED, KEYS_ROTATED, ANN, 6, STALE_CALL, ids, at);
  }

  /** Once bob has rotated, the request ann's client builds goes through, and version 2 names bob's key
      and hers. */
  lemma AnnReusesAVersion(ids: nat -> FileId, at: int)
    ensures Leads(START, map[], ROTATED, KEYS_ROTATED)
    ensures OwnBox(ROTATED, ANN) && Rotating(ROTATED, ANN, 0, "cat", "t", 6, STALE_CALL)
    ensures var r := RevokeRequest(ROTATED, ANN.caller, STALE_CALL, ids, at);
      r.answer.Some? && !OneKeyPerVersion(r.db.shares) && !HasBook(r.db)
  {
    RotatedIsReached();
    AnnsCall();
    AnnsRequest(ids, at);
    NoBookForStale(ids, at);
  }

  lemma BobsFileIsInTheWay()
    ensures Valid(PUSHED.ft) && Fetched(PUSHED, 0, ANN) == Some(HeldKey(1, 5)) && !Rebuildable(PUSHED.ft, 0, 5)
  {
    PushedIsInOrder();
    Fetches(PUSHED, ANN, HeldKey(1, 5));
    BobsLog();
    assert Live(LogOf(PUSHED.ft, FileKey(0, "f")));
    RebuildableIff(PUSHED, KEYS_ROTATED, 0, ANN);
  }

  /** Once bob has pushed under version 2, ann's client, at version 1, cannot put a rotation together. */
  lemma AnnCannotRotate()
    ensures Leads(START, map[], PUSHED, KEYS_ROTATED) && OwnBox(PUSHED, ANN)
    ensures Valid(PUSHED.ft) && Fetched(PUSHED, 0, ANN) == Some(HeldKey(1, 5)) && !Rebuildable(PUSHED.ft, 0, 5)
  {
    PushedIsReached();
    BobsFileIsInTheWay();
  }

  // ---------------------------------------------------------------- a version left in the files alone

  /** ann revokes bob, and with him go the only shares of version 2. */
  const LAST_CALL := RevokeCall(0, "bob", "t", [WireShare(None, 0, 2, SealedBox(20, 6))], [])

  lemma RemovedLog()
    requires Valid(REMOVED.ft)
    ensures LogOf(REMOVED.ft, FileKey(0, "f")) ==
      [REMOVED.ft.versions[VersionKey(0, 1)], REMOVED.ft.versions[VersionKey(0, 2)]]
    ensures forall k :: k != FileKey(0, "f") ==> LogOf(REMOVED.ft, k) == []
  {
    LogIs(REMOVED.ft, FileKey(0, "f"));
  }

  lemma NothingLives()
    requires Valid(REMOVED.ft)
    ensures Rebuilt(REMOVED.ft, 0, 5, 6, 2, [])
  {
    RemovedLog();
  }

  lemma AnnsLastShare()
    ensures Fetched(REMOVED, 0, ANN) == Some(HeldKey(1, 5)) && SealsToActive(REMOVED, 0, 6, 2, LAST_CALL.shares)
    ensures MayRevoke(REMOVED, ANN.caller, LAST_CALL)
  {
    Names(REMOVED);
    Fetches(REMOVED, ANN, HeldKey(1, 5));
    SealsToOne(REMOVED, 0, 0, 6, 2, LAST_CALL.shares[0]);
  }

  lemma AnnsLastCall()
    ensures KeyInv(REMOVED, KEYS_ROTATED) && Fetched(REMOVED, 0, ANN) == Some(HeldKey(1, 5))
    ensures AnyRotation(REMOVED, KEYS_ROTATED, ANN, 6, LAST_CALL)
  {
    RemovedIsInOrder();
    NothingLives();
    AnnsLastShare();
  }

  lemma BobsShareGoes()
    ensures UserNamed(REMOVED, "bob") == Some(1)
    ensures TargetGone(REMOVED, LAST_CALL).shares == map[ShareKey(0, 0, 1) := SealedBox(20, 5)]
    ensures TargetGone(REMOVED, LAST_CALL).grants == {GrantKey(0, 0)}
  {
    Names(REMOVED);
  }

  lemma LastCallGoesThrough(ids: nat -> FileId)
    ensures MayRevoke(REMOVED, ANN.caller, LAST_CALL) && RevokeReach(REMOVED, ANN.caller, LAST_CALL, ids) == 1
    ensures var m := RevokeState(REMOVED, ANN.caller, LAST_CALL, ids, 1);
      && m.shares == map[ShareKey(0, 0, 1) := SealedBox(20, 5), ShareKey(0, 0, 2) := SealedBox(20, 6)]
      && m.ft == REMOVED.ft && m.grants == {GrantKey(0, 0)}
  {
    Names(REMOVED);
    BobsShareGoes();
    OneShare(TargetGone(REMOVED, LAST_CALL), LAST_CALL.shares[0]);
    var list := StoreShares(LAST_CALL.shares, 0);
    assert list[..1] == list;
  }

  lemma VersionTwoIsInTheFiles()
    ensures Valid(REMOVED.ft) && !NoRowUnder(REMOVED.ft, 0, 2)
  {
    RemovedIsInOrder();
    RemovedLog();
    assert LogOf(REMOVED.ft, FileKey(0, "f"))[0].keyVersion == 2;
  }

  lemma LastCallLeaves(ids: nat -> FileId, at: int, db': Db)
    requires db' == RevokeRequest(REMOVED, ANN.caller, LAST_CALL, ids, at).db
    ensures RevokeRequest(REMOVED, ANN.caller, LAST_CALL, ids, at).answer.Some?
    ensures db'.shares == map[ShareKey(0, 0, 1) := SealedBox(20, 5), ShareKey(0, 0, 2) := SealedBox(20, 6)]
    ensures db'.ft == REMOVED.ft && db'.grants == {GrantKey(0, 0)} && db'.vaults == REMOVED.vaults
    ensures db'.users == REMOVED.users && db'.devices == REMOVED.devices
  {
    LastCallGoesThrough(ids);
    RevokedLast(REMOVED, ANN.caller, LAST_CALL, ids, at);
  }

  lemma NoBookIsLeft(ids: nat -> FileId, at: int)
    requires RevokeRequest(REMOVED, ANN.caller, LAST_CALL, ids, at).answer.Some?
    ensures !HasBook(RevokeRequest(REMOVED, ANN.caller, LAST_CALL, ids, at).db)
  {
    AnnsLastCall();
    VersionTwoIsInTheFiles();
    CompletedKeepsKeysIff(REMOVED, KEYS_ROTATED, ANN, 6, LAST_CALL, ids, at);
  }

  lemma AnnCannotRead(db': Db)
    requires db'.users == REMOVED.users && db'.devices == REMOVED.devices && db'.vaults == REMOVED.vaults
    requires db'.ft == REMOVED.ft && db'.grants == {GrantKey(0, 0)}
    requires db'.shares == map[ShareKey(0, 0, 1) := SealedBox(20, 5), ShareKey(0, 0, 2) := SealedBox(20, 6)]
    ensures OneKeyPerVersion(db'.shares) && Fetched(db', 0, ANN) == Some(HeldKey(2, 6)) && Valid(db'.ft)
    ensures PulledRow(db', 0, ANN, "f", 1) == Some(REMOVED.ft.versions[VersionKey(0, 1)])
    ensures CheckoutAction(db', 0, ANN, "f", 1) == None
  {
    RemovedIsInOrder();
    RemovedLog();
    Fetches(db', ANN, HeldKey(2, 6));
  }

  /** Once bob has removed his file ann's client can revoke him.  Of the shares each version then names one
      key, but no book fits: the file's versions are under version 2, the version of the key ann now holds,
      and do not open with it. */
  lemma AnnReusesAVersionOfFiles(ids: nat -> FileId, at: int, db': Db)
    requires db' == RevokeRequest(REMOVED, ANN.caller, LAST_CALL, ids, at).db
    ensures Leads(START, map[], REMOVED, KEYS_ROTATED) && AnyRotation(REMOVED, KEYS_ROTATED, ANN, 6, LAST_CALL)
    ensures RevokeRequest(REMOVED, ANN.caller, LAST_CALL, ids, at).answer.Some?
    ensures OneKeyPerVersion(db'.shares) && !HasBook(db') && Valid(db'.ft)
    ensures Fetched(db', 0, ANN) == Some(HeldKey(2, 6)) && CheckoutAction(db', 0, ANN, "f", 1) == None
    ensures var row := PulledRow(db', 0, ANN, "f", 1); row.Some? && row.value.keyVersion == 2
  {
    RemovedIsReached();
    AnnsLastCall();
    LastCallLeaves(ids, at, db');
    NoBookIsLeft(ids, at);
    AnnCannotRead(db');
  }
}
