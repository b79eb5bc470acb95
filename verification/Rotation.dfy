/** The file half of a revocation while other clients are at work: the client lists the vault's files,
    pulls and re-encrypts one after the other, and has the server push them one after the other
    (Revoke in internal/client/actions/vaults.go, handleRevoke in internal/server/http/handlers_vaults.go).
    Between any two of these steps the database may change in any way that only appends to the logs of
    the vault. */
module Rotation {
  import opened Common
  import opened Crypto
  import opened Schema
  import opened Lookup
  import opened FileStore
  import opened VaultHandlers
  import Server
  import ServerRuns

  /** What the rotation was started with. */
  datatype Job = Job(caller: Caller, vault: VaultId, oldKey: VaultKey, newKey: VaultKey, newVersion: int)

  datatype Phase =
    | Starting
    | Pulling(list: seq<FileMeta>, next: nat, built: seq<FilePush>)
    | Posting(files: seq<FilePush>, next: nat)
    | Stopped

  /** accepted has the keys and versions of the pushes that went through. */
  datatype World = World(db: Db, phase: Phase, accepted: seq<VersionKeyOf>)
  datatype VersionKeyOf = VersionKeyOf(key: FileKey, version: nat)

  datatype Step =
    | Others(db': Db)
    | List(list: seq<FileMeta>)
    | PullNext(nonce: nat)
    | Post
    | PushNext(newId: FileId)

  ghost predicate Enabled(job: Job, w: World, s: Step)
    requires Valid(w.db.ft)
  {
    match s
    case Others(db') => Valid(db'.ft) && ServerRuns.ExtendsIn(LogsOf(w.db.ft), LogsOf(db'.ft), job.vault)
    case List(list) => w.phase.Starting? && Lists(list, LogsOf(w.db.ft), job.vault)
    case PullNext(_) => w.phase.Pulling? && w.phase.next < |w.phase.list|
    case Post => w.phase.Pulling? && w.phase.next == |w.phase.list|
    case PushNext(_) => w.phase.Posting? && w.phase.next < |w.phase.files|
  }

  /** The loop over the listed files: skip a deleted one, pull, decrypt and encrypt any other. */
  ghost function Pull(job: Job, db: Db, p: Phase, nonce: nat): Phase
    requires Valid(db.ft) && p.Pulling? && p.next < |p.list|
  {
    var f := p.list[p.next];
    if f.deleted then Pulling(p.list, p.next + 1, p.built)
    else
      var row := VersionOf(LogOf(db.ft, FileKey(job.vault, f.path)), 0);
      if f.path == "" || row.None? || DecryptBlob(job.oldKey, row.value.blob).None? then Stopped
      else
        var blob := EncryptBlob(job.newKey, nonce, DecryptBlob(job.oldKey, row.value.blob).value);
        Pulling(p.list, p.next + 1, p.built + [FilePush(f.path, job.newVersion, f.latest, blob, false)])
  }

  ghost function Do(job: Job, w: World, s: Step): World
    requires Valid(w.db.ft) && Enabled(job, w, s)
  {
    match s
    case Others(db') => w.(db := db')
    case List(list) => w.(phase := Pulling(list, 0, []))
    case PullNext(nonce) => w.(phase := Pull(job, w.db, w.phase, nonce))
    case Post => w.(phase := Posting(w.phase.built, 0))
    case PushNext(newId) =>
      var a := w.phase.files[w.phase.next].Args(job.vault, job.caller);
      var outcome := PushOutcome(w.db, w.db.ft, a, newId);
      if outcome.Accepted? then
        World(w.db.(ft := AfterPush(w.db, w.db.ft, a, newId)), Posting(w.phase.files, w.phase.next + 1),
              w.accepted + [VersionKeyOf(a.key, outcome.version)])
      else w.(phase := Stopped)
  }

  /** Any request after which the vault is still there may come in between. */
  lemma RequestsAreSteps(job: Job, w: World, r: Server.Request, at: int)
    requires Valid(w.db.ft) && Server.Fresh(w.db, r) && job.vault in Server.Handle(w.db, r, at).vaults
    ensures Enabled(job, w, Others(Server.Handle(w.db, r, at)))
  {
    ServerRuns.RequestKeepsLogs(w.db, r, at, job.vault);
  }

  // ---------------------------------------------------------------- what stays true of logs that grow

  /** Version n was there and not deleted. */
  predicate WasLive(log: Log, n: nat) {
    1 <= n <= |log| && !log[n - 1].deleted
  }

  /** If nothing was added after the base, the push carries the plaintext of its base. */
  predicate Faithful(job: Job, log: Log, f: FilePush) {
    && f.base >= 1 && WasLive(log, f.base) && !f.deleted
    && (|log| == f.base ==> SamePlaintext(job, f.blob, log[f.base - 1].blob))
  }

  predicate SamePlaintext(job: Job, newBlob: Blob, oldBlob: Blob) {
    DecryptBlob(job.oldKey, oldBlob).Some? && DecryptBlob(job.newKey, newBlob) == DecryptBlob(job.oldKey, oldBlob)
  }

  /** Version n carries the plaintext of the version before it, neither deleted. */
  predicate CarriesPredecessor(job: Job, log: Log, n: nat) {
    2 <= n <= |log| && !log[n - 1].deleted && !log[n - 2].deleted
      && SamePlaintext(job, log[n - 1].blob, log[n - 2].blob)
  }

  lemma FaithfulStays(job: Job, log: Log, log': Log, f: FilePush)
    requires Faithful(job, log, f) && log <= log'
    ensures Faithful(job, log', f)
  {
    assert |log'| == f.base ==> log' == log;
  }

  function LogIn(logs: Logs, job: Job, path: string): Log {
    At(logs, FileKey(job.vault, path))
  }

  ghost predicate Inv(job: Job, logs: Logs, w: World) {
    && (w.phase.Pulling? ==>
          && w.phase.next <= |w.phase.list|
          && (forall i :: 0 <= i < |w.phase.list| && !w.phase.list[i].deleted ==>
                WasLive(LogIn(logs, job, w.phase.list[i].path), w.phase.list[i].latest))
          && (forall i :: 0 <= i < |w.phase.built| ==>
                Faithful(job, LogIn(logs, job, w.phase.built[i].path), w.phase.built[i])))
    && (w.phase.Posting? ==>
          forall i :: 0 <= i < |w.phase.files| ==>
            Faithful(job, LogIn(logs, job, w.phase.files[i].path), w.phase.files[i]))
    && (forall i :: 0 <= i < |w.accepted| ==>
          w.accepted[i].key.vault == job.vault
            && CarriesPredecessor(job, At(logs, w.accepted[i].key), w.accepted[i].version))
  }

  lemma InvStays(job: Job, logs: Logs, logs': Logs, w: World)
    requires Inv(job, logs, w) && ServerRuns.ExtendsIn(logs, logs', job.vault)
    ensures Inv(job, logs', w)
  {
    assert forall k: FileKey :: k.vault == job.vault ==> At(logs, k) <= At(logs', k);
    if w.phase.Pulling? {
      forall i | 0 <= i < |w.phase.built|
        ensures Faithful(job, LogIn(logs', job, w.phase.built[i].path), w.phase.built[i])
      {
        FaithfulStays(job, LogIn(logs, job, w.phase.built[i].path), LogIn(logs', job, w.phase.built[i].path),
                      w.phase.built[i]);
      }
    }
    if w.phase.Posting? {
      forall i | 0 <= i < |w.phase.files|
        ensures Faithful(job, LogIn(logs', job, w.phase.files[i].path), w.phase.files[i])
      {
        FaithfulStays(job, LogIn(logs, job, w.phase.files[i].path), LogIn(logs', job, w.phase.files[i].path),
                      w.phase.files[i]);
      }
    }
  }

  lemma ListKeepsInv(job: Job, w: World, list: seq<FileMeta>)
    requires Valid(w.db.ft) && Inv(job, LogsOf(w.db.ft), w) && Enabled(job, w, List(list))
    ensures Inv(job, LogsOf(w.db.ft), Do(job, w, List(list)))
  {
    forall i | 0 <= i < |list| && !list[i].deleted
      ensures WasLive(LogIn(LogsOf(w.db.ft), job, list[i].path), list[i].latest)
    {
      assert Describes(list[i], LogsOf(w.db.ft), job.vault);
    }
  }

  lemma PullKeepsInv(job: Job, w: World, nonce: nat)
    requires Valid(w.db.ft) && Inv(job, LogsOf(w.db.ft), w) && Enabled(job, w, PullNext(nonce))
    ensures Inv(job, LogsOf(w.db.ft), Do(job, w, PullNext(nonce)))
  {
    var f := w.phase.list[w.phase.next];
    var p := Pull(job, w.db, w.phase, nonce);
    if !f.deleted && p.Pulling? {
      assert Faithful(job, LogIn(LogsOf(w.db.ft), job, f.path), p.built[|w.phase.built|]);
    }
  }

  lemma AcceptedCarries(job: Job, log: Log, f: FilePush, row: VersionRow)
    requires Faithful(job, log, f) && f.base == |log| && row.blob == f.blob && row.deleted == f.deleted
    ensures CarriesPredecessor(job, log + [row], |log| + 1)
  {
  }

  lemma OneMoreAccepted(job: Job, logs: Logs, w: World, w': World, e: VersionKeyOf)
    requires Inv(job, logs, w) && w.phase.Posting? && w'.phase.Posting? && w'.phase.files == w.phase.files
    requires e.key.vault == job.vault && CarriesPredecessor(job, At(logs, e.key), e.version)
    requires w'.accepted == w.accepted + [e]
    ensures Inv(job, logs, w')
  {
    forall i | 0 <= i < |w'.accepted|
      ensures w'.accepted[i].key.vault == job.vault
      ensures CarriesPredecessor(job, At(logs, w'.accepted[i].key), w'.accepted[i].version)
    {
      assert w'.accepted[i] == if i < |w.accepted| then w.accepted[i] else e;
    }
  }

  lemma PushKeepsInv(job: Job, w: World, newId: FileId)
    requires Valid(w.db.ft) && Inv(job, LogsOf(w.db.ft), w) && Enabled(job, w, PushNext(newId))
    ensures var w' := Do(job, w, PushNext(newId)); Valid(w'.db.ft) && Inv(job, LogsOf(w'.db.ft), w')
  {
    var f := w.phase.files[w.phase.next];
    var a := f.Args(job.vault, job.caller);
    var w' := Do(job, w, PushNext(newId));
    if PushOutcome(w.db, w.db.ft, a, newId).Accepted? {
      PushIsCas(w.db, w.db.ft, a, newId);
      InvStays(job, LogsOf(w.db.ft), LogsOf(w'.db.ft), w);
      assert Faithful(job, LogIn(LogsOf(w.db.ft), job, f.path), f);
      assert At(LogsOf(w'.db.ft), a.key) == At(LogsOf(w.db.ft), a.key) + [a.Row()];
      AcceptedCarries(job, At(LogsOf(w.db.ft), a.key), f, a.Row());
      OneMoreAccepted(job, LogsOf(w'.db.ft), w, w', w'.accepted[|w.accepted|]);
    }
  }

  lemma StepKeepsInv(job: Job, w: World, s: Step)
    requires Valid(w.db.ft) && Inv(job, LogsOf(w.db.ft), w) && Enabled(job, w, s)
    ensures var w' := Do(job, w, s); Valid(w'.db.ft) && Inv(job, LogsOf(w'.db.ft), w')
  {
    match s
    case Others(db') => InvStays(job, LogsOf(w.db.ft), LogsOf(db'.ft), w);
    case List(list) => ListKeepsInv(job, w, list);
    case PullNext(nonce) => PullKeepsInv(job, w, nonce);
    case Post =>
    case PushNext(newId) => PushKeepsInv(job, w, newId);
  }

  // ---------------------------------------------------------------- when a step goes on

  /** The loop goes on after a file exactly if the file is deleted in the listing, or has a name to ask for
      and its latest version opens with the old key; it then has one more file to send, encrypted again. */
  lemma PullGoesOnIff(job: Job, w: World, nonce: nat)
    requires Valid(w.db.ft) && Enabled(job, w, PullNext(nonce))
    ensures var f, p' := w.phase.list[w.phase.next], Do(job, w, PullNext(nonce)).phase;
      var log := LogOf(w.db.ft, FileKey(job.vault, f.path));
      && (p'.Pulling? <==>
            || f.deleted
            || (f.path != "" && log != [] && DecryptBlob(job.oldKey, log[|log| - 1].blob).Some?))
      && (p'.Pulling? ==>
            && p'.next == w.phase.next + 1 && p'.list == w.phase.list
            && (f.deleted ==> p'.built == w.phase.built)
            && (!f.deleted ==>
                  |p'.built| == |w.phase.built| + 1 && p'.built[..|w.phase.built|] == w.phase.built
                  && p'.built[|w.phase.built|].path == f.path && p'.built[|w.phase.built|].base == f.latest
                  && SamePlaintext(job, p'.built[|w.phase.built|].blob, log[|log| - 1].blob)))
  {
    var f := w.phase.list[w.phase.next];
    var log := LogOf(w.db.ft, FileKey(job.vault, f.path));
    assert log != [] ==> VersionOf(log, 0) == Some(log[|log| - 1]);
  }

  /** A push of a file that is there is accepted exactly if nothing came after its base. */
  lemma PushGoesOnIff(job: Job, w: World, newId: FileId)
    requires Valid(w.db.ft) && Enabled(job, w, PushNext(newId))
    requires var k := FileKey(job.vault, w.phase.files[w.phase.next].path);
      k in w.db.ft.files && job.vault in w.db.vaults && job.caller.device in w.db.devices
    ensures var f, w' := w.phase.files[w.phase.next], Do(job, w, PushNext(newId));
      && (w'.phase.Posting? <==> f.base == |LogOf(w.db.ft, FileKey(job.vault, f.path))|)
      && (w'.phase.Posting? ==>
            w'.phase.next == w.phase.next + 1
            && w'.accepted == w.accepted + [VersionKeyOf(FileKey(job.vault, f.path), f.base + 1)])
  {
    var f := w.phase.files[w.phase.next];
    PushRefusals(w.db, w.db.ft, f.Args(job.vault, job.caller), newId);
  }

  // ---------------------------------------------------------------- runs

  ghost predicate Run(job: Job, w: World, steps: seq<Step>, w': World)
    requires Valid(w.db.ft) && Inv(job, LogsOf(w.db.ft), w)
    decreases |steps|
  {
    if steps == [] then w' == w
    else
      Enabled(job, w, steps[0]) &&
      (StepKeepsInv(job, w, steps[0]);
       Run(job, Do(job, w, steps[0]), steps[1..], w'))
  }

  lemma {:induction false} RunKeepsInv(job: Job, w: World, steps: seq<Step>, w': World)
    requires Valid(w.db.ft) && Inv(job, LogsOf(w.db.ft), w) && Run(job, w, steps, w')
    ensures Valid(w'.db.ft) && Inv(job, LogsOf(w'.db.ft), w')
    decreases |steps|
  {
    if steps != [] {
      StepKeepsInv(job, w, steps[0]);
      RunKeepsInv(job, Do(job, w, steps[0]), steps[1..], w');
    }
  }

  /** Whatever the others do in between, each re-encrypted file that is accepted carries exactly the
      plaintext of the version just before it, and that version is not a deletion. */
  lemma AcceptedCarryTheirPredecessor(job: Job, w: World, steps: seq<Step>, w': World, i: nat)
    requires Valid(w.db.ft) && w.phase == Starting && w.accepted == []
    requires Run(job, w, steps, w') && i < |w'.accepted|
    ensures Valid(w'.db.ft) && CarriesPredecessor(job, LogOf(w'.db.ft, w'.accepted[i].key), w'.accepted[i].version)
  {
    RunKeepsInv(job, w, steps, w');
  }
}
