/** The versioned file store of internal/server/store/files.go.

    Abstractly every file is a log of versions and a push is a compare-and-swap on the log's length;
    the store keeps a row with the latest version and one row per version. */
module FileStore {
  import opened Common
  import opened Crypto
  import opened Schema

  // ---------------------------------------------------------------- logs

  type Log = seq<VersionRow>
  type Logs = map<FileKey, Log>

  function At(logs: Logs, k: FileKey): Log {
    if k in logs then logs[k] else []
  }

  /** Version n of a file is the n-th entry of its log. */
  predicate Live(log: Log) {
    log != [] && !log[|log| - 1].deleted
  }

  /** The abstract push: append if base is the length of the log. */
  function Cas(logs: Logs, k: FileKey, base: int, row: VersionRow): Logs {
    if base == |At(logs, k)| then logs[k := At(logs, k) + [row]] else logs
  }

  /** Every log of the one is the beginning of the same log of the other. */
  predicate Extends(logs: Logs, logs': Logs) {
    forall k :: k in logs ==> k in logs' && logs[k] <= logs'[k]
  }

  // ---------------------------------------------------------------- tables

  /** files.id is a primary key. */
  ghost predicate UniqueIds(files: map<FileKey, FileRow>) {
    forall k, k' :: k in files && k' in files && files[k].id == files[k'].id ==> k == k'
  }

  /** The stored versions of a file are 1 to latest, latest is at least 1, and the file's deleted flag
      is that of its latest version. */
  ghost predicate Numbered(row: FileRow, versions: map<VersionKey, VersionRow>) {
    && row.latest >= 1
    && (forall v: nat :: VersionKey(row.id, v) in versions <==> 1 <= v <= row.latest)
    && row.deleted == versions[VersionKey(row.id, row.latest)].deleted
  }

  predicate HasId(files: map<FileKey, FileRow>, id: FileId) {
    exists k :: k in files && files[k].id == id
  }

  ghost predicate Valid(t: FileTables) {
    && UniqueIds(t.files)
    && (forall k {:trigger Numbered(t.files[k], t.versions)} :: k in t.files ==> Numbered(t.files[k], t.versions))
    && (forall vk {:trigger HasId(t.files, vk.file)} :: vk in t.versions ==> HasId(t.files, vk.file))
  }

  /** The stored versions 1 to n of one file. */
  ghost function Entries(versions: map<VersionKey, VersionRow>, id: FileId, n: nat): (log: Log)
    requires forall v: nat :: 1 <= v <= n ==> VersionKey(id, v) in versions
    ensures |log| == n
  {
    if n == 0 then [] else Entries(versions, id, n - 1) + [versions[VersionKey(id, n)]]
  }

  lemma EntriesAre(versions: map<VersionKey, VersionRow>, id: FileId, n: nat)
    requires forall v: nat :: 1 <= v <= n ==> VersionKey(id, v) in versions
    ensures forall i: nat :: i < n ==> Entries(versions, id, n)[i] == versions[VersionKey(id, i + 1)]
  {
  }

  ghost function LogOf(t: FileTables, k: FileKey): Log
    requires Valid(t)
  {
    if k in t.files then
      assert Numbered(t.files[k], t.versions);
      Entries(t.versions, t.files[k].id, t.files[k].latest)
    else []
  }

  lemma LogIs(t: FileTables, k: FileKey)
    requires Valid(t) && k in t.files
    ensures forall v: nat :: 1 <= v <= t.files[k].latest ==> VersionKey(t.files[k].id, v) in t.versions
    ensures forall i: nat :: i < t.files[k].latest ==> LogOf(t, k)[i] == t.versions[VersionKey(t.files[k].id, i + 1)]
  {
    assert Numbered(t.files[k], t.versions);
    EntriesAre(t.versions, t.files[k].id, t.files[k].latest);
  }

  ghost function LogsOf(t: FileTables): Logs
    requires Valid(t)
  {
    map k | k in t.files :: LogOf(t, k)
  }

  // The three statements of a push.

  function InsertFile(t: FileTables, k: FileKey, id: FileId): FileTables {
    t.(files := t.files[k := FileRow(id, 0, false)])
  }

  function InsertVersion(t: FileTables, id: FileId, version: nat, row: VersionRow): FileTables {
    t.(versions := t.versions[VersionKey(id, version) := row])
  }

  /** UPDATE files SET latest_version, deleted WHERE id. */
  function UpdateFile(t: FileTables, id: FileId, version: nat, deleted: bool): FileTables {
    t.(files := map k | k in t.files :: if t.files[k].id == id then FileRow(id, version, deleted) else t.files[k])
  }

  /** All the writes of a push that goes through; id is the file's, or a fresh one for a new file. */
  function PushWrites(t: FileTables, k: FileKey, id: FileId, latest: nat, row: VersionRow): FileTables {
    var t1 := if k in t.files then t else InsertFile(t, k, id);
    UpdateFile(InsertVersion(t1, id, latest + 1, row), id, latest + 1, row.deleted)
  }

  /** id is the file's own, or belongs to no file yet. */
  ghost predicate IdFor(files: map<FileKey, FileRow>, k: FileKey, id: FileId) {
    if k in files then files[k].id == id else !HasId(files, id)
  }

  lemma OthersHaveOtherIds(files: map<FileKey, FileRow>, k: FileKey, id: FileId)
    requires UniqueIds(files) && IdFor(files, k, id)
    ensures forall k' :: k' in files && k' != k ==> files[k'].id != id
  {
  }

  /** The rows after a push of version latest + 1. */
  function Appended(t: FileTables, k: FileKey, id: FileId, latest: nat, row: VersionRow): FileTables {
    FileTables(t.files[k := FileRow(id, latest + 1, row.deleted)], t.versions[VersionKey(id, latest + 1) := row])
  }

  /** The statements of a push change two rows. */
  lemma PushWritesRows(t: FileTables, k: FileKey, id: FileId, latest: nat, row: VersionRow)
    requires UniqueIds(t.files) && IdFor(t.files, k, id)
    ensures PushWrites(t, k, id, latest, row) == Appended(t, k, id, latest, row)
  {
    OthersHaveOtherIds(t.files, k, id);
    assert PushWrites(t, k, id, latest, row).files == Appended(t, k, id, latest, row).files;
  }

  lemma FreshIdIsUnused(t: FileTables, id: FileId)
    requires Valid(t) && !HasId(t.files, id)
    ensures forall v: nat :: VersionKey(id, v) !in t.versions
  {
    forall v: nat
      ensures VersionKey(id, v) !in t.versions
    {
      assert VersionKey(id, v) in t.versions ==> HasId(t.files, VersionKey(id, v).file);
    }
  }

  lemma PushNumbered(t: FileTables, k: FileKey, id: FileId, row: VersionRow, t': FileTables)
    requires Valid(t) && IdFor(t.files, k, id) && t' == Appended(t, k, id, |LogOf(t, k)|, row)
    ensures forall k' :: k' in t'.files ==> Numbered(t'.files[k'], t'.versions)
  {
    OthersHaveOtherIds(t.files, k, id);
    forall k' | k' in t'.files
      ensures Numbered(t'.files[k'], t'.versions)
    {
      if k' in t.files {
        assert Numbered(t.files[k'], t.versions);
      } else {
        FreshIdIsUnused(t, id);
      }
    }
  }

  lemma PushKeepsValid(t: FileTables, k: FileKey, id: FileId, row: VersionRow, t': FileTables)
    requires Valid(t) && IdFor(t.files, k, id) && t' == Appended(t, k, id, |LogOf(t, k)|, row)
    ensures Valid(t')
  {
    PushNumbered(t, k, id, row, t');
    OthersHaveOtherIds(t.files, k, id);
    forall vk | vk in t'.versions
      ensures HasId(t'.files, vk.file)
    {
      if vk.file == id {
        assert t'.files[k].id == id;
      } else {
        assert HasId(t.files, vk.file);
        var k' :| k' in t.files && t.files[k'].id == vk.file;
        assert t'.files[k'].id == vk.file;
      }
    }
  }

  lemma GrownLog(t: FileTables, k: FileKey, id: FileId, row: VersionRow, t': FileTables)
    requires Valid(t) && IdFor(t.files, k, id) && t' == Appended(t, k, id, |LogOf(t, k)|, row) && Valid(t')
    ensures LogOf(t', k) == LogOf(t, k) + [row]
  {
    var old_ := LogOf(t, k);
    LogIs(t', k);
    if k in t.files {
      LogIs(t, k);
    }
    assert |LogOf(t', k)| == |old_| + 1;
    forall i | 0 <= i < |old_|
      ensures LogOf(t', k)[i] == old_[i]
    {
      assert VersionKey(id, i + 1) != VersionKey(id, |old_| + 1);
    }
  }

  lemma KeptLog(t: FileTables, k: FileKey, id: FileId, row: VersionRow, t': FileTables, k': FileKey)
    requires Valid(t) && IdFor(t.files, k, id) && t' == Appended(t, k, id, |LogOf(t, k)|, row) && Valid(t')
    requires k' in t.files && k' != k
    ensures LogOf(t', k') == LogOf(t, k')
  {
    OthersHaveOtherIds(t.files, k, id);
    LogIs(t, k');
    LogIs(t', k');
    assert t'.files[k'] == t.files[k'];
  }

  lemma LogAfterPush(t: FileTables, k: FileKey, id: FileId, row: VersionRow, t': FileTables, k': FileKey)
    requires Valid(t) && IdFor(t.files, k, id) && t' == Appended(t, k, id, |LogOf(t, k)|, row) && Valid(t')
    requires k' in t'.files
    ensures LogOf(t', k') == if k' == k then LogOf(t, k) + [row] else LogOf(t, k')
  {
    if k' == k {
      GrownLog(t, k, id, row, t');
    } else {
      KeptLog(t, k, id, row, t', k');
    }
  }

  lemma SameMap<K, V>(m: map<K, V>, m': map<K, V>)
    requires m.Keys == m'.Keys && forall k :: k in m ==> m[k] == m'[k]
    ensures m == m'
  {
  }

  lemma PushedLogs(t: FileTables, k: FileKey, id: FileId, row: VersionRow, t': FileTables)
    requires Valid(t) && IdFor(t.files, k, id) && t' == Appended(t, k, id, |LogOf(t, k)|, row) && Valid(t')
    ensures LogsOf(t') == LogsOf(t)[k := LogOf(t, k) + [row]]
  {
    var grown, logs' := LogsOf(t)[k := LogOf(t, k) + [row]], LogsOf(t');
    forall k' | k' in logs'
      ensures logs'[k'] == grown[k']
    {
      LogAfterPush(t, k, id, row, t', k');
    }
    SameMap(logs', grown);
  }

  // ---------------------------------------------------------------- the store's operations

  datatype PushResult = Accepted(version: nat) | VersionConflict | StatementFailed

  /** What a client asks to be stored; size and author are filled in by the server. */
  datatype PushArgs = PushArgs(key: FileKey, keyVersion: int, base: int, blob: Blob, author: DeviceId, deleted: bool)
  {
    function Row(): VersionRow {
      VersionRow(keyVersion, blob, Size(blob), Some(author), deleted)
    }
  }

  /** The vault and the author device the new rows refer to exist. */
  predicate Referable(db: Db, a: PushArgs) {
    a.key.vault in db.vaults && a.author in db.devices
  }

  /** All rows a push writes refer to rows that exist, and the id a new file gets is not in use. */
  predicate Storable(db: Db, t: FileTables, a: PushArgs, newId: FileId) {
    Referable(db, a) && (a.key in t.files || !HasId(t.files, newId))
  }

  function Latest(t: FileTables, k: FileKey): nat {
    if k in t.files then t.files[k].latest else 0
  }

  /** The answer to a push when the file tables are t; newId is the random id a new file gets. */
  function PushOutcome(db: Db, t: FileTables, a: PushArgs, newId: FileId): PushResult {
    if a.base != Latest(t, a.key) then VersionConflict
    else if !Storable(db, t, a, newId) then StatementFailed
    else Accepted(Latest(t, a.key) + 1)
  }

  /** The file tables after a push; a push that is not accepted leaves no trace. */
  function AfterPush(db: Db, t: FileTables, a: PushArgs, newId: FileId): FileTables {
    if PushOutcome(db, t, a, newId).Accepted? then
      Appended(t, a.key, if a.key in t.files then t.files[a.key].id else newId, Latest(t, a.key), a.Row())
    else t
  }

  /** One transaction: select, insert the file if it is new, compare, insert the version, update, commit. */
  method PushFile(s: Store, a: PushArgs, newId: FileId) returns (r: PushResult)
    requires Valid(s.db.ft)
    requires a.key in s.db.ft.files ==> a.key.vault in s.db.vaults
    modifies s
    ensures r == PushOutcome(old(s.db), old(s.db).ft, a, newId)
    ensures s.db == old(s.db).(ft := AfterPush(old(s.db), old(s.db).ft, a, newId))
  {
    var tx := s.db.ft;
    var fileId := newId;
    var latest := 0;
    if a.key in tx.files {
      fileId := tx.files[a.key].id;
      latest := tx.files[a.key].latest;
    } else {
      if a.base != 0 {
        return VersionConflict;
      }
      if a.key.vault !in s.db.vaults || HasId(tx.files, fileId) {
        return StatementFailed;
      }
      tx := InsertFile(tx, a.key, fileId);
    }
    if latest != a.base {
      return VersionConflict;
    }
    var newVersion := latest + 1;
    if a.author !in s.db.devices {
      return StatementFailed;
    }
    tx := InsertVersion(tx, fileId, newVersion, a.Row());
    tx := UpdateFile(tx, fileId, newVersion, a.deleted);
    PushWritesRows(s.db.ft, a.key, fileId, latest, a.Row());
    s.db := s.db.(ft := tx);
    r := Accepted(newVersion);
  }

  lemma CasExtends(logs: Logs, k: FileKey, base: int, row: VersionRow)
    ensures Extends(logs, Cas(logs, k, base, row))
    ensures base == |At(logs, k)| <==> Cas(logs, k, base, row) != logs
  {
    if base == |At(logs, k)| {
      assert |At(Cas(logs, k, base, row), k)| == |At(logs, k)| + 1;
    }
  }

  /** A push that goes through keeps the tables valid and appends one version to one log. */
  lemma AcceptedPushIsCas(t: FileTables, k: FileKey, id: FileId, row: VersionRow)
    requires Valid(t) && IdFor(t.files, k, id)
    ensures var t' := Appended(t, k, id, |LogOf(t, k)|, row);
      Valid(t') && LogsOf(t') == Cas(LogsOf(t), k, |LogOf(t, k)|, row)
  {
    var t' := Appended(t, k, id, |LogOf(t, k)|, row);
    PushKeepsValid(t, k, id, row, t');
    PushedLogs(t, k, id, row, t');
  }

  /** A push is a compare-and-swap on the file's log: it is accepted with the next version number if
      its base is the length of the log, and otherwise leaves no trace. */
  lemma PushIsCas(db: Db, t: FileTables, a: PushArgs, newId: FileId)
    requires Valid(t)
    ensures var t' := AfterPush(db, t, a, newId);
      && Valid(t')
      && (PushOutcome(db, t, a, newId).Accepted? ==> PushOutcome(db, t, a, newId).version == |At(LogsOf(t), a.key)| + 1)
      && LogsOf(t') == (if Storable(db, t, a, newId) then Cas(LogsOf(t), a.key, a.base, a.Row()) else LogsOf(t))
      && Extends(LogsOf(t), LogsOf(t'))
  {
    CasExtends(LogsOf(t), a.key, a.base, a.Row());
    if PushOutcome(db, t, a, newId).Accepted? {
      AcceptedPushIsCas(t, a.key, if a.key in t.files then t.files[a.key].id else newId, a.Row());
    }
  }

  /** A push is refused for its base exactly if that is not the number of the file's latest version, and
      otherwise fails only where a row it writes refers to nothing or its id is in use. */
  lemma PushRefusals(db: Db, t: FileTables, a: PushArgs, newId: FileId)
    requires Valid(t)
    ensures var r, latest := PushOutcome(db, t, a, newId), |LogOf(t, a.key)|;
      && (r == VersionConflict <==> a.base != latest)
      && (r == StatementFailed <==>
            && a.base == latest
            && (a.key.vault !in db.vaults || a.author !in db.devices || (a.key !in t.files && HasId(t.files, newId))))
      && (r.Accepted? ==> r.version == latest + 1)
  {
    assert a.key in t.files ==> Numbered(t.files[a.key], t.versions);
  }

  /** The row a query for a version of a file finds: that of the file's id and the number asked for, or the
      file's latest for 0. */
  ghost predicate IsStored(t: FileTables, k: FileKey, version: int, r: Option<VersionRow>) {
    if k !in t.files || version < 0 || version > t.files[k].latest then r == None
    else
      var n: nat := if version == 0 then t.files[k].latest else version;
      var vk := VersionKey(t.files[k].id, n);
      vk in t.versions && r == Some(t.versions[vk])
  }

  /** The version asked for, the latest one for 0. */
  function VersionOf(log: Log, version: int): Option<VersionRow> {
    var v := if version == 0 then |log| else version;
    if 1 <= v <= |log| then Some(log[v - 1]) else None
  }

  /** The entries of a file's log are the rows stored for it. */
  lemma VersionIsStored(t: FileTables, k: FileKey, version: int)
    requires Valid(t)
    ensures IsStored(t, k, version, VersionOf(LogOf(t, k), version))
  {
    if k in t.files {
      assert Numbered(t.files[k], t.versions);
      LogIs(t, k);
    }
  }

  method GetFileVersion(t: FileTables, k: FileKey, version: int) returns (r: Option<VersionRow>)
    requires Valid(t)
    ensures r == VersionOf(LogOf(t, k), version) && IsStored(t, k, version, r)
  {
    if k !in t.files {
      return None;
    }
    var v := version;
    if version == 0 {
      v := t.files[k].latest;
    }
    assert Numbered(t.files[k], t.versions);
    LogIs(t, k);
    if v < 0 || VersionKey(t.files[k].id, v) !in t.versions {
      return None;
    }
    r := Some(t.versions[VersionKey(t.files[k].id, v)]);
    VersionIsStored(t, k, version);
  }

  datatype HistoryEntry = HistoryEntry(version: nat, row: VersionRow)

  /** Latest version first, down to version 1. */
  function HistoryOf(log: Log): seq<HistoryEntry> {
    seq(|log|, i requires 0 <= i < |log| => HistoryEntry(|log| - i, log[|log| - 1 - i]))
  }

  /** One entry for each stored version of the file, from its latest down to 1, with the row stored. */
  ghost predicate IsHistory(t: FileTables, k: FileKey, out: seq<HistoryEntry>) {
    if k !in t.files then out == []
    else
      && |out| == t.files[k].latest
      && forall i :: 0 <= i < |out| ==>
           var vk := VersionKey(t.files[k].id, t.files[k].latest - i);
           out[i].version == t.files[k].latest - i && vk in t.versions && out[i].row == t.versions[vk]
  }

  lemma HistoryIsStored(t: FileTables, k: FileKey)
    requires Valid(t)
    ensures IsHistory(t, k, HistoryOf(LogOf(t, k)))
  {
    if k in t.files {
      assert Numbered(t.files[k], t.versions);
      LogIs(t, k);
    }
  }

  method History(t: FileTables, k: FileKey) returns (out: seq<HistoryEntry>)
    requires Valid(t)
    ensures out == HistoryOf(LogOf(t, k)) && IsHistory(t, k, out)
  {
    if k !in t.files {
      return [];
    }
    StoredVersions(t, k);
    out := SelectDescending(t.versions, t.files[k].id, LogOf(t, k));
    HistoryIsStored(t, k);
  }

  /** versions holds, for this id, exactly the entries of log. */
  ghost predicate Holds(versions: map<VersionKey, VersionRow>, id: FileId, log: Log) {
    && (forall v: nat :: VersionKey(id, v) in versions <==> 1 <= v <= |log|)
    && (forall v: nat :: 1 <= v <= |log| ==> versions[VersionKey(id, v)] == log[v - 1])
  }

  lemma StoredVersions(t: FileTables, k: FileKey)
    requires Valid(t) && k in t.files
    ensures Holds(t.versions, t.files[k].id, LogOf(t, k))
  {
    assert Numbered(t.files[k], t.versions);
    LogIs(t, k);
  }

  /** The stored versions of a file in descending order, as the query delivers them. */
  method SelectDescending(versions: map<VersionKey, VersionRow>, id: FileId,
                          ghost log: Log) returns (out: seq<HistoryEntry>)
    requires Holds(versions, id, log)
    ensures out == HistoryOf(log)
  {
    out := [];
    var rows := set vk | vk in versions && vk.file == id :: vk.version;
    VersionSet(versions, id, log);
    while rows != {}
      invariant |out| <= |log| && out == HistoryOf(log)[..|out|]
      invariant forall v :: v in rows <==> 1 <= v <= |log| - |out|
      decreases |rows|
    {
      var top := LargestVersion(rows);
      assert |log| - |out| in rows;
      out := out + [HistoryEntry(top, versions[VersionKey(id, top)])];
      rows := rows - {top};
    }
    assert |log| - |out| !in rows;
  }

  lemma VersionSet(versions: map<VersionKey, VersionRow>, id: FileId, log: Log)
    requires Holds(versions, id, log)
    ensures var rows := set vk | vk in versions && vk.file == id :: vk.version;
      forall v :: v in rows <==> 1 <= v <= |log|
  {
    var rows := set vk | vk in versions && vk.file == id :: vk.version;
    forall v | 1 <= v <= |log|
      ensures v in rows
    {
      assert VersionKey(id, v) in versions;
    }
    forall v | v in rows
      ensures 1 <= v <= |log|
    {
      assert VersionKey(id, v) in versions;
    }
  }

  method LargestVersion(versions: set<nat>) returns (top: nat)
    requires versions != {}
    ensures top in versions && forall v :: v in versions ==> v <= top
  {
    top :| top in versions;
    var rest := versions - {top};
    while rest != {}
      invariant rest <= versions && top in versions
      invariant forall v :: v in versions && v !in rest ==> v <= top
      decreases |rest|
    {
      var v :| v in rest;
      if v > top {
        top := v;
      }
      rest := rest - {v};
    }
  }

  datatype FileMeta = FileMeta(path: string, latest: nat, deleted: bool)

  function KeysOf(out: seq<FileMeta>, vault: VaultId): set<FileKey> {
    set i | 0 <= i < |out| :: FileKey(vault, out[i].path)
  }

  predicate Describes(m: FileMeta, logs: Logs, vault: VaultId) {
    var k := FileKey(vault, m.path);
    k in logs && m.latest == |logs[k]| && m.deleted == !Live(logs[k])
  }

  /** out lists each file of the vault once, with the length of its log and its latest flag. */
  ghost predicate Lists(out: seq<FileMeta>, logs: Logs, vault: VaultId) {
    && (forall i, j :: 0 <= i < j < |out| ==> out[i].path != out[j].path)
    && (forall i :: 0 <= i < |out| ==> Describes(out[i], logs, vault))
    && KeysOf(out, vault) == set k | k in logs && k.vault == vault
  }

  function MetaOf(files: map<FileKey, FileRow>, k: FileKey): FileMeta
    requires k in files
  {
    FileMeta(k.path, files[k].latest, files[k].deleted)
  }

  /** out holds one entry for each of the keys done, all in one vault. */
  ghost predicate Listed(out: seq<FileMeta>, files: map<FileKey, FileRow>, vault: VaultId, done: set<FileKey>) {
    && (forall i, j :: 0 <= i < j < |out| ==> out[i].path != out[j].path)
    && (forall i :: 0 <= i < |out| ==>
          FileKey(vault, out[i].path) in files && out[i] == MetaOf(files, FileKey(vault, out[i].path)))
    && KeysOf(out, vault) == done
  }

  lemma ListedStep(out: seq<FileMeta>, files: map<FileKey, FileRow>, vault: VaultId, done: set<FileKey>, k: FileKey)
    requires Listed(out, files, vault, done) && k in files && k.vault == vault && k !in done
    ensures Listed(out + [MetaOf(files, k)], files, vault, done + {k})
  {
    KeysOfAppend(out, MetaOf(files, k), vault);
    assert forall i :: 0 <= i < |out| ==> FileKey(vault, out[i].path) in done;
    assert FileKey(vault, k.path) == k;
  }

  method ListFiles(t: FileTables, vault: VaultId) returns (out: seq<FileMeta>)
    requires Valid(t)
    ensures Lists(out, LogsOf(t), vault)
  {
    out := ListRows(t.files, vault);
    forall i | 0 <= i < |out|
      ensures Describes(out[i], LogsOf(t), vault)
    {
      RowDescribesLog(t, FileKey(vault, out[i].path));
    }
  }

  method ListRows(files: map<FileKey, FileRow>, vault: VaultId) returns (out: seq<FileMeta>)
    ensures Listed(out, files, vault, set k | k in files && k.vault == vault)
  {
    out := [];
    var rows := set k | k in files && k.vault == vault;
    ghost var all := rows;
    while rows != {}
      invariant rows <= all && Listed(out, files, vault, all - rows)
      decreases |rows|
    {
      var k :| k in rows;
      ListedStep(out, files, vault, all - rows, k);
      out := out + [MetaOf(files, k)];
      MoveOver(all, rows, k);
      rows := rows - {k};
    }
  }

  lemma MoveOver<T>(all: set<T>, rows: set<T>, k: T)
    requires k in rows && rows <= all
    ensures all - (rows - {k}) == (all - rows) + {k}
  {
  }

  lemma RowDescribesLog(t: FileTables, k: FileKey)
    requires Valid(t) && k in t.files
    ensures Describes(MetaOf(t.files, k), LogsOf(t), k.vault)
  {
    assert Numbered(t.files[k], t.versions);
    assert FileKey(k.vault, k.path) == k;
  }

  lemma KeysOfAppend(out: seq<FileMeta>, m: FileMeta, vault: VaultId)
    ensures KeysOf(out + [m], vault) == KeysOf(out, vault) + {FileKey(vault, m.path)}
  {
    var longer := out + [m];
    assert longer[|out|] == m;
    forall k | k in KeysOf(out, vault)
      ensures k in KeysOf(longer, vault)
    {
      var i :| 0 <= i < |out| && FileKey(vault, out[i].path) == k;
      assert FileKey(vault, longer[i].path) == k;
    }
  }
}
