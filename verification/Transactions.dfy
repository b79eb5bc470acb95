/** Interleaved push transactions (internal/server/store/files.go, db.go).

    Postgres runs them at READ COMMITTED with SELECT ... FOR UPDATE and unique indexes; SQLite has one
    connection, so one transaction at a time.  A transaction sees committed rows, keeps its writes to
    itself until it commits, and waits where the database would make it wait; any statement may fail.
    Whatever the interleaving, the committed tables are the result of atomic compare-and-swaps, one
    for each finished transaction, in the order in which they finish. */
module Transactions {
  import opened Common
  import opened Crypto
  import opened Schema
  import opened FileStore

  datatype Mode = RowLocks | OneConnection

  datatype Write =
    | NewFile(k: FileKey, id: FileId)
    | NewVersion(id: FileId, version: nat, row: VersionRow)
    | NewLatest(id: FileId, version: nat, deleted: bool)

  /** What a transaction does next. */
  datatype Phase = Selecting | InsertingFile | Comparing | InsertingVersion | UpdatingFile | Committing

  datatype Tx = Tx(args: PushArgs, phase: Phase, id: FileId, latest: nat, locked: bool, created: bool,
                   writes: seq<Write>)

  datatype Outcome = Committed(version: nat) | Stale | Duplicate

  /** A transaction that finished without an error of the database, with what its caller is told. */
  datatype Entry = Entry(args: PushArgs, outcome: Outcome)

  datatype World = World(mode: Mode, t: FileTables, txs: map<nat, Tx>, done: seq<Entry>)

  datatype Step =
    | Begin(tx: nat, args: PushArgs)
    | Select(tx: nat)
    | InsertNewFile(tx: nat, newId: FileId)
    | Compare(tx: nat)
    | InsertNewVersion(tx: nat)
    | Update(tx: nat)
    | Commit(tx: nat)
    | Abort(tx: nat)

  // ---------------------------------------------------------------- steps

  function ApplyOne(t: FileTables, w: Write): FileTables {
    match w
    case NewFile(k, id) => InsertFile(t, k, id)
    case NewVersion(id, version, row) => InsertVersion(t, id, version, row)
    case NewLatest(id, version, deleted) => UpdateFile(t, id, version, deleted)
  }

  function Apply(t: FileTables, ws: seq<Write>): FileTables
    decreases |ws|
  {
    if ws == [] then t else Apply(ApplyOne(t, ws[0]), ws[1..])
  }

  predicate InPhase(w: World, tx: nat, phase: Phase) {
    tx in w.txs && w.txs[tx].phase == phase
  }

  /** Another open transaction holds the row lock of k. */
  predicate RowLocked(w: World, tx: nat, k: FileKey) {
    exists other :: other in w.txs && other != tx && w.txs[other].locked && w.txs[other].args.key == k
  }

  /** Another open transaction has inserted the row of k. */
  predicate KeyInserted(w: World, tx: nat, k: FileKey) {
    exists other :: other in w.txs && other != tx && w.txs[other].created && w.txs[other].args.key == k
  }

  /** Another open transaction has inserted this version. */
  predicate VersionInserted(w: World, tx: nat, vk: VersionKey) {
    exists other :: other in w.txs && other != tx && w.txs[other].phase in {UpdatingFile, Committing}
      && VersionKey(w.txs[other].id, w.txs[other].latest + 1) == vk
  }

  /** No row and no open transaction uses the id: ids are random and taken to be fresh. */
  ghost predicate FreshId(w: World, id: FileId) {
    !HasId(w.t.files, id) && forall other :: other in w.txs && w.txs[other].created ==> w.txs[other].id != id
  }

  ghost predicate Enabled(w: World, s: Step) {
    match s
    case Begin(tx, args) => tx !in w.txs && (w.mode.OneConnection? ==> w.txs == map[])
    case Select(tx) => InPhase(w, tx, Selecting)
      && (w.mode.RowLocks? && w.txs[tx].args.key in w.t.files ==> !RowLocked(w, tx, w.txs[tx].args.key))
    case InsertNewFile(tx, newId) => InPhase(w, tx, InsertingFile)
      && !KeyInserted(w, tx, w.txs[tx].args.key) && FreshId(w, newId)
    case Compare(tx) => InPhase(w, tx, Comparing)
    case InsertNewVersion(tx) => InPhase(w, tx, InsertingVersion)
      && !VersionInserted(w, tx, VersionKey(w.txs[tx].id, w.txs[tx].latest + 1))
    case Update(tx) => InPhase(w, tx, UpdatingFile) && !RowLocked(w, tx, w.txs[tx].args.key)
    case Commit(tx) => InPhase(w, tx, Committing)
    case Abort(tx) => tx in w.txs
  }

  function Finish(w: World, tx: nat, outcome: Outcome): World
    requires tx in w.txs
  {
    w.(txs := w.txs - {tx}, done := w.done + [Entry(w.txs[tx].args, outcome)])
  }

  function Continue(w: World, tx: nat, x: Tx): World {
    w.(txs := w.txs[tx := x])
  }

  function Do(w: World, s: Step): World
    requires s.Begin? || s.tx in w.txs
  {
    if s.Begin? then Continue(w, s.tx, Tx(s.args, Selecting, 0, 0, false, false, []))
    else
      var x := w.txs[s.tx];
      var k := x.args.key;
      match s
      case Select(tx) =>
        if k in w.t.files then
          Continue(w, tx, x.(phase := Comparing, id := w.t.files[k].id, latest := w.t.files[k].latest,
                             locked := w.mode.RowLocks?))
        else if x.args.base != 0 then Finish(w, tx, Stale)
        else Continue(w, tx, x.(phase := InsertingFile))
      case InsertNewFile(tx, newId) =>
        if k in w.t.files then Finish(w, tx, Duplicate)
        else Continue(w, tx, x.(phase := Comparing, id := newId, latest := 0, created := true,
                                writes := [NewFile(k, newId)]))
      case Compare(tx) =>
        if x.latest != x.args.base then Finish(w, tx, Stale)
        else Continue(w, tx, x.(phase := InsertingVersion))
      case InsertNewVersion(tx) =>
        if VersionKey(x.id, x.latest + 1) in w.t.versions then Finish(w, tx, Duplicate)
        else Continue(w, tx, x.(phase := UpdatingFile,
                                writes := x.writes + [NewVersion(x.id, x.latest + 1, x.args.Row())]))
      case Update(tx) =>
        Continue(w, tx, x.(phase := Committing, writes := x.writes + [NewLatest(x.id, x.latest + 1, x.args.deleted)]))
      case Commit(tx) =>
        Finish(w, tx, Committed(x.latest + 1)).(t := Apply(w.t, x.writes))
      case Abort(tx) =>
        w.(txs := w.txs - {tx})
  }

  ghost predicate Runnable(w: World, steps: seq<Step>)
    decreases |steps|
  {
    steps == [] || (Enabled(w, steps[0]) && Runnable(Do(w, steps[0]), steps[1..]))
  }

  ghost function Exec(w: World, steps: seq<Step>): World
    requires Runnable(w, steps)
    decreases |steps|
  {
    if steps == [] then w else Exec(Do(w, steps[0]), steps[1..])
  }

  // ---------------------------------------------------------------- the atomic store

  /** The logs after atomic compare-and-swaps in the order of es. */
  function Replay(logs: Logs, es: seq<Entry>): Logs {
    if es == [] then logs
    else
      var a := es[|es| - 1].args;
      Cas(Replay(logs, es[..|es| - 1]), a.key, a.base, a.Row())
  }

  /** The answer an atomic compare-and-swap gives. */
  predicate Explains(logs: Logs, e: Entry) {
    var n := |At(logs, e.args.key)|;
    if e.args.base == n then e.outcome == Committed(n + 1) else e.outcome == Stale || e.outcome == Duplicate
  }

  /** Every answer in es is the one its compare-and-swap gives at its place in the order. */
  ghost predicate Linearized(logs: Logs, es: seq<Entry>) {
    forall n :: 0 <= n < |es| ==> Explains(Replay(logs, es[..n]), es[n])
  }

  lemma ReplayStep(logs: Logs, es: seq<Entry>, e: Entry)
    ensures Replay(logs, es + [e]) == Cas(Replay(logs, es), e.args.key, e.args.base, e.args.Row())
  {
    assert (es + [e])[..|es|] == es;
  }

  lemma ReplayAppend(logs: Logs, es: seq<Entry>, e: Entry)
    requires Linearized(logs, es) && Explains(Replay(logs, es), e)
    ensures Replay(logs, es + [e]) == Cas(Replay(logs, es), e.args.key, e.args.base, e.args.Row())
    ensures Linearized(logs, es + [e])
  {
    var longer := es + [e];
    ReplayStep(logs, es, e);
    forall n | 0 <= n < |longer|
      ensures Explains(Replay(logs, longer[..n]), longer[n])
    {
      assert longer[..n] == es[..n];
      assert n == |es| ==> es[..n] == es;
    }
  }

  lemma LinearizedSplit(logs: Logs, es: seq<Entry>)
    requires Linearized(logs, es) && es != []
    ensures Linearized(logs, es[..|es| - 1]) && Explains(Replay(logs, es[..|es| - 1]), es[|es| - 1])
  {
    var init := es[..|es| - 1];
    forall n | 0 <= n < |init|
      ensures Explains(Replay(logs, init[..n]), init[n])
    {
      assert init[..n] == es[..n];
    }
  }

  // ---------------------------------------------------------------- invariant

  predicate Owns(x: Tx) {
    x.phase != Selecting && x.phase != InsertingFile
  }

  function ExpectedWrites(x: Tx): seq<Write> {
    (if x.created then [NewFile(x.args.key, x.id)] else [])
    + (if x.phase in {UpdatingFile, Committing} then [NewVersion(x.id, x.latest + 1, x.args.Row())] else [])
    + (if x.phase == Committing then [NewLatest(x.id, x.latest + 1, x.args.deleted)] else [])
  }

  /** An open transaction past its reads knows the committed state of its file. */
  ghost predicate TxOk(mode: Mode, t: FileTables, x: Tx) {
    && x.writes == ExpectedWrites(x)
    && (!Owns(x) ==> !x.locked && !x.created)
    && (x.phase == InsertingFile ==> x.args.base == 0)
    && (Owns(x) && x.created ==> !x.locked && x.args.key !in t.files && x.latest == 0 && !HasId(t.files, x.id))
    && (Owns(x) && !x.created ==>
          x.args.key in t.files && t.files[x.args.key].id == x.id && t.files[x.args.key].latest == x.latest
          && (mode.RowLocks? ==> x.locked))
    && (x.phase in {InsertingVersion, UpdatingFile, Committing} ==> x.latest == x.args.base)
  }

  /** No two open transactions have got hold of the same file, or made up the same id. */
  predicate Apart(x: Tx, y: Tx) {
    && (Owns(x) && Owns(y) ==> x.args.key != y.args.key)
    && (x.created && y.created ==> x.id != y.id)
  }

  ghost predicate TxsOk(mode: Mode, t: FileTables, txs: map<nat, Tx>) {
    && (forall i :: i in txs ==> TxOk(mode, t, txs[i]))
    && (forall i, j :: i in txs && j in txs && i != j ==> Apart(txs[i], txs[j]))
    && (mode.OneConnection? ==> forall i, j :: i in txs && j in txs ==> i == j)
  }

  ghost predicate Inv(w: World, logs: Logs) {
    && Valid(w.t)
    && TxsOk(w.mode, w.t, w.txs)
    && LogsOf(w.t) == Replay(logs, w.done)
    && Linearized(logs, w.done)
  }

  lemma ContinueKeeps(w: World, tx: nat, x: Tx, logs: Logs)
    requires Inv(w, logs) && TxOk(w.mode, w.t, x)
    requires forall j :: j in w.txs && j != tx ==> Apart(x, w.txs[j])
    requires tx in w.txs || w.mode.RowLocks? || w.txs == map[]
    ensures Inv(Continue(w, tx, x), logs)
  {
  }

  lemma FinishKeeps(w: World, tx: nat, outcome: Outcome, logs: Logs)
    requires Inv(w, logs) && tx in w.txs
    requires outcome == Stale || outcome == Duplicate
    requires w.txs[tx].args.base != |LogOf(w.t, w.txs[tx].args.key)|
    ensures Inv(Finish(w, tx, outcome), logs)
  {
    ReplayAppend(logs, w.done, Entry(w.txs[tx].args, outcome));
  }

  lemma SelectKeeps(w: World, tx: nat, logs: Logs)
    requires Inv(w, logs) && Enabled(w, Select(tx))
    ensures Inv(Do(w, Select(tx)), logs)
  {
    var x := w.txs[tx];
    var k := x.args.key;
    if k in w.t.files {
      var x' := Do(w, Select(tx)).txs[tx];
      forall j | j in w.txs && j != tx
        ensures Apart(x', w.txs[j])
      {
        assert TxOk(w.mode, w.t, w.txs[j]);
      }
      ContinueKeeps(w, tx, x', logs);
    } else if x.args.base != 0 {
      FinishKeeps(w, tx, Stale, logs);
    } else {
      ContinueKeeps(w, tx, x.(phase := InsertingFile), logs);
    }
  }

  lemma InsertNewFileKeeps(w: World, tx: nat, newId: FileId, logs: Logs)
    requires Inv(w, logs) && Enabled(w, InsertNewFile(tx, newId))
    ensures Inv(Do(w, InsertNewFile(tx, newId)), logs)
  {
    var x := w.txs[tx];
    var k := x.args.key;
    assert TxOk(w.mode, w.t, x);
    if k in w.t.files {
      assert Numbered(w.t.files[k], w.t.versions);
      FinishKeeps(w, tx, Duplicate, logs);
    } else {
      var x' := Do(w, InsertNewFile(tx, newId)).txs[tx];
      forall j | j in w.txs && j != tx
        ensures Apart(x', w.txs[j])
      {
        assert TxOk(w.mode, w.t, w.txs[j]);
      }
      ContinueKeeps(w, tx, x', logs);
    }
  }

  lemma CompareKeeps(w: World, tx: nat, logs: Logs)
    requires Inv(w, logs) && Enabled(w, Compare(tx))
    ensures Inv(Do(w, Compare(tx)), logs)
  {
    var x := w.txs[tx];
    assert TxOk(w.mode, w.t, x);
    if x.latest != x.args.base {
      FinishKeeps(w, tx, Stale, logs);
    } else {
      ContinueKeeps(w, tx, x.(phase := InsertingVersion), logs);
    }
  }

  /** The unique index on versions never has to step in. */
  lemma VersionIsFree(w: World, tx: nat, logs: Logs)
    requires Inv(w, logs) && tx in w.txs && Owns(w.txs[tx])
    ensures VersionKey(w.txs[tx].id, w.txs[tx].latest + 1) !in w.t.versions
  {
    var x := w.txs[tx];
    assert TxOk(w.mode, w.t, x);
    if x.created {
      FreshIdIsUnused(w.t, x.id);
    } else {
      assert Numbered(w.t.files[x.args.key], w.t.versions);
    }
  }

  /** A transaction that writes one more row stays as it should be. */
  lemma WritePhase(mode: Mode, t: FileTables, x: Tx)
    requires TxOk(mode, t, x)
    ensures x.phase == InsertingVersion ==>
      TxOk(mode, t, x.(phase := UpdatingFile, writes := x.writes + [NewVersion(x.id, x.latest + 1, x.args.Row())]))
    ensures x.phase == UpdatingFile ==>
      TxOk(mode, t, x.(phase := Committing, writes := x.writes + [NewLatest(x.id, x.latest + 1, x.args.deleted)]))
  {
  }

  lemma WritingKeeps(w: World, tx: nat, x': Tx, logs: Logs)
    requires Inv(w, logs) && tx in w.txs && Owns(w.txs[tx]) && TxOk(w.mode, w.t, x') && Owns(x')
    requires x'.args == w.txs[tx].args && x'.id == w.txs[tx].id && x'.created == w.txs[tx].created
    ensures Inv(Continue(w, tx, x'), logs)
  {
    forall j | j in w.txs && j != tx
      ensures Apart(x', w.txs[j])
    {
      assert Apart(w.txs[tx], w.txs[j]);
    }
    ContinueKeeps(w, tx, x', logs);
  }

  lemma InsertNewVersionKeeps(w: World, tx: nat, logs: Logs)
    requires Inv(w, logs) && Enabled(w, InsertNewVersion(tx))
    ensures Inv(Do(w, InsertNewVersion(tx)), logs)
  {
    var x := w.txs[tx];
    VersionIsFree(w, tx, logs);
    WritePhase(w.mode, w.t, x);
    WritingKeeps(w, tx, x.(phase := UpdatingFile, writes := x.writes + [NewVersion(x.id, x.latest + 1,
                 x.args.Row())]), logs);
  }

  lemma UpdateKeeps(w: World, tx: nat, logs: Logs)
    requires Inv(w, logs) && Enabled(w, Update(tx))
    ensures Inv(Do(w, Update(tx)), logs)
  {
    var x := w.txs[tx];
    WritePhase(w.mode, w.t, x);
    WritingKeeps(w, tx, x.(phase := Committing, writes := x.writes + [NewLatest(x.id, x.latest + 1,
                 x.args.deleted)]), logs);
  }

  lemma ApplyTwo(t: FileTables, a: Write, b: Write)
    ensures Apply(t, [a, b]) == ApplyOne(ApplyOne(t, a), b)
  {
    assert [a, b][1..] == [b];
    assert Apply(t, [a, b]) == Apply(ApplyOne(t, a), [b]);
    assert Apply(ApplyOne(t, a), [b]) == Apply(ApplyOne(ApplyOne(t, a), b), [b][1..]);
  }

  lemma ApplyThree(t: FileTables, a: Write, b: Write, c: Write)
    ensures Apply(t, [a, b, c]) == ApplyOne(ApplyOne(ApplyOne(t, a), b), c)
  {
    assert [a, b, c][1..] == [b, c];
    assert Apply(t, [a, b, c]) == Apply(ApplyOne(t, a), [b, c]);
    ApplyTwo(ApplyOne(t, a), b, c);
  }

  lemma WritesOfNew(t: FileTables, k: FileKey, id: FileId, latest: nat, row: VersionRow)
    requires k !in t.files
    ensures Apply(t, [NewFile(k, id), NewVersion(id, latest + 1, row), NewLatest(id, latest + 1, row.deleted)])
         == PushWrites(t, k, id, latest, row)
  {
    ApplyThree(t, NewFile(k, id), NewVersion(id, latest + 1, row), NewLatest(id, latest + 1, row.deleted));
  }

  lemma WritesOfKnown(t: FileTables, k: FileKey, id: FileId, latest: nat, row: VersionRow)
    requires k in t.files
    ensures Apply(t, [NewVersion(id, latest + 1, row), NewLatest(id, latest + 1, row.deleted)])
         == PushWrites(t, k, id, latest, row)
  {
    ApplyTwo(t, NewVersion(id, latest + 1, row), NewLatest(id, latest + 1, row.deleted));
  }

  lemma ExpectedAtCommit(x: Tx)
    requires x.phase == Committing
    ensures var version, update := NewVersion(x.id, x.latest + 1, x.args.Row()),
                                   NewLatest(x.id, x.latest + 1, x.args.Row().deleted);
      ExpectedWrites(x) == if x.created then [NewFile(x.args.key, x.id), version, update] else [version, update]
  {
  }

  lemma WritesOfPush(t: FileTables, k: FileKey, id: FileId, latest: nat, row: VersionRow, created: bool,
                     ws: seq<Write>, t': FileTables)
    requires created <==> k !in t.files
    requires t' == PushWrites(t, k, id, latest, row)
    requires created ==>
      ws == [NewFile(k, id), NewVersion(id, latest + 1, row), NewLatest(id, latest + 1, row.deleted)]
    requires !created ==> ws == [NewVersion(id, latest + 1, row), NewLatest(id, latest + 1, row.deleted)]
    ensures Apply(t, ws) == t'
  {
    if created {
      WritesOfNew(t, k, id, latest, row);
    } else {
      WritesOfKnown(t, k, id, latest, row);
    }
  }

  lemma CommittedWrites(t: FileTables, x: Tx)
    requires x.phase == Committing && x.writes == ExpectedWrites(x) && (x.created <==> x.args.key !in t.files)
    ensures Apply(t, x.writes) == PushWrites(t, x.args.key, x.id, x.latest, x.args.Row())
  {
    ExpectedAtCommit(x);
    WritesOfPush(t, x.args.key, x.id, x.latest, x.args.Row(), x.created, x.writes,
                 PushWrites(t, x.args.key, x.id, x.latest, x.args.Row()));
  }

  /** What the other transactions know is not touched by a commit. */
  lemma OthersAreUntouched(mode: Mode, t: FileTables, x: Tx, t': FileTables, y: Tx)
    requires UniqueIds(t.files) && TxOk(mode, t, x) && TxOk(mode, t, y) && Owns(x) && Apart(x, y)
    requires t'.files == t.files[x.args.key := FileRow(x.id, x.latest + 1, x.args.deleted)]
    ensures TxOk(mode, t', y)
  {
    if y.created {
      forall k | k in t'.files
        ensures t'.files[k].id != y.id
      {
        if k != x.args.key {
          assert t.files[k].id != y.id;
        }
      }
    }
  }

  /** What a commit does to the committed tables. */
  lemma CommitAppends(mode: Mode, t: FileTables, x: Tx)
    requires Valid(t) && TxOk(mode, t, x) && x.phase == Committing
    ensures var t' := Apply(t, x.writes);
      && Valid(t')
      && t'.files == t.files[x.args.key := FileRow(x.id, x.latest + 1, x.args.deleted)]
      && x.args.base == |LogOf(t, x.args.key)| == x.latest
      && LogsOf(t') == Cas(LogsOf(t), x.args.key, x.args.base, x.args.Row())
  {
    CommittedWrites(t, x);
    PushWritesRows(t, x.args.key, x.id, x.latest, x.args.Row());
    AcceptedPushIsCas(t, x.args.key, x.id, x.args.Row());
  }

  lemma CommitKeepsTxs(mode: Mode, t: FileTables, txs: map<nat, Tx>, tx: nat, t': FileTables)
    requires UniqueIds(t.files) && TxsOk(mode, t, txs) && tx in txs && txs[tx].phase == Committing
    requires t'.files == t.files[txs[tx].args.key := FileRow(txs[tx].id, txs[tx].latest + 1, txs[tx].args.deleted)]
    ensures TxsOk(mode, t', txs - {tx})
  {
    forall j | j in txs && j != tx
      ensures TxOk(mode, t', txs[j])
    {
      OthersAreUntouched(mode, t, txs[tx], t', txs[j]);
    }
  }

  lemma CommitKeepsLog(t: FileTables, t': FileTables, done: seq<Entry>, e: Entry, logs: Logs)
    requires Valid(t) && Valid(t') && LogsOf(t) == Replay(logs, done) && Linearized(logs, done)
    requires e.args.base == |LogOf(t, e.args.key)| && e.outcome == Committed(e.args.base + 1)
    requires LogsOf(t') == Cas(LogsOf(t), e.args.key, e.args.base, e.args.Row())
    ensures LogsOf(t') == Replay(logs, done + [e]) && Linearized(logs, done + [e])
  {
    assert At(LogsOf(t), e.args.key) == LogOf(t, e.args.key);
    ReplayAppend(logs, done, e);
  }

  lemma CommitInto(w: World, tx: nat, t': FileTables, logs: Logs)
    requires Inv(w, logs) && InPhase(w, tx, Committing) && Valid(t')
    requires var x := w.txs[tx];
      && t'.files == w.t.files[x.args.key := FileRow(x.id, x.latest + 1, x.args.deleted)]
      && x.args.base == |LogOf(w.t, x.args.key)| == x.latest
      && LogsOf(t') == Cas(LogsOf(w.t), x.args.key, x.args.base, x.args.Row())
    ensures Inv(Finish(w, tx, Committed(w.txs[tx].latest + 1)).(t := t'), logs)
  {
    var x := w.txs[tx];
    CommitKeepsTxs(w.mode, w.t, w.txs, tx, t');
    CommitKeepsLog(w.t, t', w.done, Entry(x.args, Committed(x.latest + 1)), logs);
  }

  lemma CommitKeeps(w: World, tx: nat, logs: Logs)
    requires Inv(w, logs) && Enabled(w, Commit(tx))
    ensures Inv(Do(w, Commit(tx)), logs)
  {
    CommitAppends(w.mode, w.t, w.txs[tx]);
    CommitInto(w, tx, Apply(w.t, w.txs[tx].writes), logs);
  }

  lemma BeginKeeps(w: World, tx: nat, args: PushArgs, logs: Logs)
    requires Inv(w, logs) && Enabled(w, Begin(tx, args))
    ensures Inv(Do(w, Begin(tx, args)), logs)
  {
    ContinueKeeps(w, tx, Tx(args, Selecting, 0, 0, false, false, []), logs);
  }

  lemma StepKeeps(w: World, s: Step, logs: Logs)
    requires Inv(w, logs) && Enabled(w, s)
    ensures Inv(Do(w, s), logs)
  {
    match s
    case Begin(tx, args) => BeginKeeps(w, tx, args, logs);
    case Select(tx) => SelectKeeps(w, tx, logs);
    case InsertNewFile(tx, newId) => InsertNewFileKeeps(w, tx, newId, logs);
    case Compare(tx) => CompareKeeps(w, tx, logs);
    case InsertNewVersion(tx) => InsertNewVersionKeeps(w, tx, logs);
    case Update(tx) => UpdateKeeps(w, tx, logs);
    case Commit(tx) => CommitKeeps(w, tx, logs);
    case Abort(tx) =>
  }

  lemma {:induction false} RunKeeps(w: World, steps: seq<Step>, logs: Logs)
    requires Inv(w, logs) && Runnable(w, steps)
    ensures Inv(Exec(w, steps), logs)
    decreases |steps|
  {
    if steps != [] {
      StepKeeps(w, steps[0], logs);
      RunKeeps(Do(w, steps[0]), steps[1..], logs);
    }
  }

  // ---------------------------------------------------------------- main results

  ghost predicate Start(w: World) {
    Valid(w.t) && w.txs == map[] && w.done == []
  }

  /** Every interleaving of push transactions, on either database, leaves the committed files as atomic
      compare-and-swaps in the order of w.done would, and answers every push as its compare-and-swap. */
  lemma InterleavingsAreAtomic(w: World, steps: seq<Step>)
    requires Start(w) && Runnable(w, steps)
    ensures var w' := Exec(w, steps);
      && Valid(w'.t)
      && LogsOf(w'.t) == Replay(LogsOf(w.t), w'.done)
      && Linearized(LogsOf(w.t), w'.done)
  {
    RunKeeps(w, steps, LogsOf(w.t));
  }

  lemma {:induction false} ReplayExtends(logs: Logs, es: seq<Entry>, n: nat)
    requires n <= |es|
    ensures Extends(Replay(logs, es[..n]), Replay(logs, es))
    decreases |es|
  {
    if n == |es| {
      assert es[..n] == es;
    } else {
      var init, a := es[..|es| - 1], es[|es| - 1].args;
      ReplayExtends(logs, init, n);
      assert init[..n] == es[..n];
      CasExtends(Replay(logs, init), a.key, a.base, a.Row());
    }
  }

  /** Of the pushes to one file that share a base at most one is accepted. */
  lemma OneWinnerPerBase(logs: Logs, es: seq<Entry>, i: nat, j: nat)
    requires Linearized(logs, es) && i < j < |es|
    requires es[i].args.key == es[j].args.key && es[i].args.base == es[j].args.base
    requires es[i].outcome.Committed?
    ensures !es[j].outcome.Committed?
  {
    AcceptedGrows(logs, es, i);
    StaysLonger(logs, es, i + 1, j, es[i].args.key);
    assert Explains(Replay(logs, es[..j]), es[j]);
  }

  lemma AcceptedGrows(logs: Logs, es: seq<Entry>, i: nat)
    requires Linearized(logs, es) && i < |es| && es[i].outcome.Committed?
    ensures |At(Replay(logs, es[..i + 1]), es[i].args.key)| == es[i].args.base + 1
  {
    assert es[..i + 1] == es[..i] + [es[i]];
    ReplayStep(logs, es[..i], es[i]);
    assert Explains(Replay(logs, es[..i]), es[i]);
  }

  lemma StaysLonger(logs: Logs, es: seq<Entry>, i: nat, j: nat, k: FileKey)
    requires i <= j <= |es|
    ensures |At(Replay(logs, es[..i]), k)| <= |At(Replay(logs, es[..j]), k)|
  {
    ReplayExtends(logs, es[..j], i);
    assert es[..j][..i] == es[..i];
  }

  /** The versions accepted for a file, in order. */
  function Accepted(es: seq<Entry>, k: FileKey): seq<nat> {
    if es == [] then []
    else
      var e := es[|es| - 1];
      Accepted(es[..|es| - 1], k) + (if e.args.key == k && e.outcome.Committed? then [e.outcome.version] else [])
  }

  /** Accepted versions of a file are consecutive, starting after the version it had. */
  lemma {:induction false} AcceptedAreConsecutive(logs: Logs, es: seq<Entry>, k: FileKey)
    requires Linearized(logs, es)
    ensures |At(Replay(logs, es), k)| == |At(logs, k)| + |Accepted(es, k)|
    ensures forall n :: 0 <= n < |Accepted(es, k)| ==> Accepted(es, k)[n] == |At(logs, k)| + 1 + n
    decreases |es|
  {
    if es != [] {
      LinearizedSplit(logs, es);
      AcceptedAreConsecutive(logs, es[..|es| - 1], k);
    }
  }

  function OnlyAccepted(es: seq<Entry>): seq<Entry> {
    if es == [] then []
    else OnlyAccepted(es[..|es| - 1]) + (if es[|es| - 1].outcome.Committed? then [es[|es| - 1]] else [])
  }

  /** Rejected pushes leave no trace: without them the outcome is the same. */
  lemma {:induction false} RejectedLeaveNoTrace(logs: Logs, es: seq<Entry>)
    requires Linearized(logs, es)
    ensures Replay(logs, OnlyAccepted(es)) == Replay(logs, es)
    decreases |es|
  {
    if es != [] {
      var init, e := es[..|es| - 1], es[|es| - 1];
      LinearizedSplit(logs, es);
      RejectedLeaveNoTrace(logs, init);
      if e.outcome.Committed? {
        ReplayStep(logs, OnlyAccepted(init), e);
      } else {
        assert OnlyAccepted(es) == OnlyAccepted(init);
      }
    }
  }

  /** The transaction that holds what the others wait for never waits itself, so open transactions
      never block one another for good: some step other than giving up is enabled. */
  lemma NoDeadlock(w: World, logs: Logs, newId: FileId)
    requires Inv(w, logs) && w.txs != map[] && FreshId(w, newId)
    ensures exists s: Step :: !s.Begin? && !s.Abort? && Enabled(w, s)
  {
    if i :| i in w.txs && Owns(w.txs[i]) {
      OwnersAreEnabled(w, logs, i);
    } else {
      var i :| i in w.txs;
      assert forall j :: j in w.txs ==> TxOk(w.mode, w.t, w.txs[j]);
      if w.txs[i].phase == Selecting {
        assert Enabled(w, Select(i));
      } else {
        assert Enabled(w, InsertNewFile(i, newId));
      }
    }
  }

  lemma OwnersAreEnabled(w: World, logs: Logs, i: nat)
    requires Inv(w, logs) && i in w.txs && Owns(w.txs[i])
    ensures exists s: Step :: !s.Begin? && !s.Abort? && Enabled(w, s)
  {
    var x := w.txs[i];
    forall j | j in w.txs && j != i
      ensures w.txs[j].locked ==> w.txs[j].args.key != x.args.key
      ensures Owns(w.txs[j]) ==> w.txs[j].id != x.id
    {
      var y := w.txs[j];
      assert TxOk(w.mode, w.t, y) && TxOk(w.mode, w.t, x) && Apart(x, y);
    }
    match x.phase {
      case Comparing => assert Enabled(w, Compare(i));
      case InsertingVersion => assert Enabled(w, InsertNewVersion(i));
      case UpdatingFile => assert Enabled(w, Update(i));
      case Committing => assert Enabled(w, Commit(i));
    }
  }
}
