/** The limit on request bodies and what it means for a rotation, which sends all live files of a vault
    in one request. */
module RequestSize {
  import opened Common
  import opened Crypto
  import opened Schema
  import opened FileStore
  import opened Directory
  import opened VaultHandlers
  import opened VaultClient
  import Signing

  /** The length of the base64 text of so many bytes. */
  function Encoded(n: nat): nat {
    4 * ((n + 2) / 3)
  }

  lemma {:induction false} EncodedLength(bytes: seq<nat>)
    requires forall i :: 0 <= i < |bytes| ==> bytes[i] < 256
    ensures |Signing.Base64(bytes)| == Encoded(|bytes|)
    decreases |bytes|
  {
    if |bytes| > 2 {
      EncodedLength(bytes[3..]);
      assert |Signing.Base64(bytes)| == 4 + |Signing.Base64(bytes[3..])|;
    }
  }

  /** The ciphertexts of a request, as text. */
  function CiphertextOf(files: seq<FilePush>): nat {
    if files == [] then 0 else CiphertextOf(files[..|files| - 1]) + Encoded(Size(files[|files| - 1].blob))
  }

  /** A body is no shorter than the ciphertexts in it. */
  ghost predicate Carries(size: RevokeCall -> nat) {
    forall req: RevokeCall :: size(req) >= CiphertextOf(req.files)
  }

  function Sum(ns: seq<nat>): nat {
    if ns == [] then 0 else ns[0] + Sum(ns[1..])
  }

  function Without<T>(s: seq<T>, i: nat): seq<T>
    requires i < |s|
  {
    s[..i] + s[i + 1..]
  }

  lemma {:induction false} SumWithout(ns: seq<nat>, i: nat)
    requires i < |ns|
    ensures Sum(ns) == ns[i] + Sum(Without(ns, i))
    decreases i
  {
    if i == 0 {
      assert Without(ns, i) == ns[1..];
    } else {
      SumWithout(ns[1..], i - 1);
      assert Without(ns, i)[1..] == Without(ns[1..], i - 1);
    }
  }

  predicate Distinct(paths: seq<string>) {
    forall i, j :: 0 <= i < j < |paths| ==> paths[i] != paths[j]
  }

  predicate AllIn(paths: seq<string>, files: seq<FilePush>) {
    forall i :: 0 <= i < |paths| ==> paths[i] in PathsOf(files)
  }

  /** The ciphertexts for the paths have these lengths as text. */
  predicate Agree(paths: seq<string>, lengths: seq<nat>, files: seq<FilePush>) {
    && |lengths| == |paths|
    && forall i, j :: 0 <= i < |paths| && 0 <= j < |files| && files[j].path == paths[i] ==>
         Encoded(Size(files[j].blob)) == lengths[i]
  }

  lemma PathsOfInit(files: seq<FilePush>)
    requires files != []
    ensures PathsOf(files) == PathsOf(files[..|files| - 1]) + {files[|files| - 1].path}
  {
    var init := files[..|files| - 1];
    assert forall j :: 0 <= j < |init| ==> init[j].path in PathsOf(init) && init[j] == files[j];
    assert files[|files| - 1].path in PathsOf(files);
  }

  lemma WithoutLast(paths: seq<string>, files: seq<FilePush>, i: nat)
    requires files != [] && Distinct(paths) && AllIn(paths, files)
    requires i < |paths| && paths[i] == files[|files| - 1].path
    ensures Distinct(Without(paths, i)) && AllIn(Without(paths, i), files[..|files| - 1])
  {
    PathsOfInit(files);
    forall k | 0 <= k < |Without(paths, i)|
      ensures Without(paths, i)[k] in PathsOf(files[..|files| - 1])
    {
      assert Without(paths, i)[k] == paths[if k < i then k else k + 1];
    }
  }

  lemma WithoutOther(paths: seq<string>, files: seq<FilePush>)
    requires files != [] && AllIn(paths, files) && files[|files| - 1].path !in paths
    ensures AllIn(paths, files[..|files| - 1])
  {
    PathsOfInit(files);
  }

  /** A request with a file for each of the paths is at least as long as their ciphertexts together. */
  lemma {:induction false} FilesOutweigh(paths: seq<string>, lengths: seq<nat>, files: seq<FilePush>)
    requires Distinct(paths) && AllIn(paths, files) && Agree(paths, lengths, files)
    ensures CiphertextOf(files) >= Sum(lengths)
    decreases |files|
  {
    if paths != [] {
      var j :| 0 <= j < |files| && files[j].path == paths[0];
      var init, last := files[..|files| - 1], files[|files| - 1];
      if i :| 0 <= i < |paths| && paths[i] == last.path {
        WithoutLast(paths, files, i);
        FilesOutweigh(Without(paths, i), Without(lengths, i), init);
        SumWithout(lengths, i);
      } else {
        WithoutOther(paths, files);
        FilesOutweigh(paths, lengths, init);
      }
    }
  }

  /** The latest version of a live file has this length as text. */
  ghost predicate Weighs(t: FileTables, v: VaultId, path: string, n: nat)
    requires Valid(t)
  {
    var log := LogOf(t, FileKey(v, path));
    Live(log) && Encoded(Size(log[|log| - 1].blob)) == n
  }

  lemma ReEncryptedIsAsLong(t: FileTables, v: VaultId, oldKey: VaultKey, newKey: VaultKey, kv: int, f: FilePush, n: nat)
    requires Valid(t) && ReEncrypts(t, v, oldKey, newKey, kv, f) && Weighs(t, v, f.path, n)
    ensures Encoded(Size(f.blob)) == n
  {
  }

  lemma RequestIsLong(t: FileTables, v: VaultId, oldKey: VaultKey, newKey: VaultKey, kv: int, files: seq<FilePush>,
                      paths: seq<string>, lengths: seq<nat>)
    requires Valid(t) && Rebuilt(t, v, oldKey, newKey, kv, files) && Distinct(paths) && |lengths| == |paths|
    requires forall i :: 0 <= i < |paths| ==> Weighs(t, v, paths[i], lengths[i])
    ensures CiphertextOf(files) >= Sum(lengths)
  {
    forall i, j | 0 <= i < |paths| && 0 <= j < |files| && files[j].path == paths[i]
      ensures Encoded(Size(files[j].blob)) == lengths[i]
    {
      ReEncryptedIsAsLong(t, v, oldKey, newKey, kv, files[j], lengths[i]);
    }
    forall i | 0 <= i < |paths|
      ensures paths[i] in PathsOf(files)
    {
      assert Live(LogOf(t, FileKey(v, paths[i])));
    }
    FilesOutweigh(paths, lengths, files);
  }

  /** In a vault with live files whose latest ciphertexts are together too long for one body nobody can be
      revoked: whatever request the client builds is longer than what the server reads. */
  lemma TooMuchToRotate(db: Db, ses: Session, v: VaultId, username: string, team: string, newKey: VaultKey,
                        req: RevokeCall, size: RevokeCall -> nat, paths: seq<string>, lengths: seq<nat>)
    requires Rotating(db, ses, v, username, team, newKey, req) && Carries(size)
    requires Distinct(paths) && |lengths| == |paths| && Sum(lengths) > 2 * 1024 * 1024
    requires forall i :: 0 <= i < |paths| ==> Weighs(db.ft, v, paths[i], lengths[i])
    ensures size(req) > 2 * 1024 * 1024
  {
    var held := Fetched(db, v, ses).value;
    RequestIsLong(db.ft, v, held.key, newKey, held.version + 1, req.files, paths, lengths);
    assert size(req) >= CiphertextOf(req.files);
  }

  /** Two live files of the length the server takes are too much. */
  lemma TwoFullFiles(db: Db, ses: Session, v: VaultId, username: string, team: string, newKey: VaultKey,
                     req: RevokeCall, size: RevokeCall -> nat, path: string, path': string)
    requires Rotating(db, ses, v, username, team, newKey, req) && Carries(size) && path != path'
    requires Weighs(db.ft, v, path, Encoded(0x10_0000)) && Weighs(db.ft, v, path', Encoded(0x10_0000))
    ensures size(req) > 2 * 1024 * 1024
  {
    var n := Encoded(0x10_0000);
    assert Sum([n, n]) == n + Sum([n]) && Sum([n]) == n + Sum([]) by {
      assert [n, n][1..] == [n] && [n][1..] == [];
    }
    TooMuchToRotate(db, ses, v, username, team, newKey, req, size, [path, path'], [n, n]);
  }
}
