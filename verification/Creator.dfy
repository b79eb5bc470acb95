/** The creator of a team, which the server keeps nowhere but in the audit log: the user of the newest
    create_team row with the team's name (creatorSubquery in internal/server/store/teams.go). */
module Creator {
  import opened Common
  import opened Crypto
  import opened Schema
  import opened Lookup
  import opened FileStore
  import opened VaultStore
  import opened Directory
  import opened Cascade
  import opened VaultHandlers
  import opened Server
  import opened ServerInvariant
  import opened ServerRuns

  predicate IsCreation(a: AuditRow, name: string) {
    a.action == TeamCreated && a.target == Name(name) && a.user.Some?
  }

  /** The query may return row i: no creation of the name has a later time. */
  predicate MayBeShown(audit: seq<AuditRow>, name: string, i: nat) {
    && i < |audit| && IsCreation(audit[i], name)
    && forall j :: 0 <= j < |audit| && IsCreation(audit[j], name) ==> audit[j].at <= audit[i].at
  }

  predicate IsLastCreation(audit: seq<AuditRow>, name: string, i: nat) {
    i < |audit| && IsCreation(audit[i], name) && forall j :: i < j < |audit| ==> !IsCreation(audit[j], name)
  }

  predicate TimesIncrease(audit: seq<AuditRow>) {
    forall i, j :: 0 <= i < j < |audit| ==> audit[i].at < audit[j].at
  }

  predicate TimesBelow(audit: seq<AuditRow>, at: int) {
    forall i :: 0 <= i < |audit| ==> audit[i].at < at
  }

  lemma ShownIsLast(audit: seq<AuditRow>, name: string, i: nat, last: nat)
    requires TimesIncrease(audit) && IsLastCreation(audit, name, last) && MayBeShown(audit, name, i)
    ensures i == last
  {
  }

  // ---------------------------------------------------------------- what requests log

  /** audit' has the same rows, except that some have forgotten their vault. */
  predicate SameRows(audit: seq<AuditRow>, audit': seq<AuditRow>) {
    |audit'| == |audit| && forall i :: 0 <= i < |audit| ==>
      audit'[i] == audit[i] || audit'[i] == audit[i].(vault := None)
  }

  /** audit' has the rows of audit and at most one more, of the given time. */
  ghost predicate Appends(audit: seq<AuditRow>, audit': seq<AuditRow>, at: int) {
    SameRows(audit, audit')
    || (|audit'| == |audit| + 1 && SameRows(audit, audit'[..|audit|]) && audit'[|audit|].at == at)
  }

  predicate CreationsIn(audit: seq<AuditRow>, from: nat) {
    exists i :: from <= i < |audit| && audit[i].action == TeamCreated
  }

  lemma LogAppends(db: Db, db1: Db, c: Caller, vault: Option<VaultId>, action: Action, target: Target, at: int)
    requires SameRows(db.audit, db1.audit)
    ensures Appends(db.audit, Logged(db1, c, vault, action, target, at).audit, at)
    ensures action != TeamCreated ==> !CreationsIn(Logged(db1, c, vault, action, target, at).audit, |db.audit|)
  {
    var audit' := Logged(db1, c, vault, action, target, at).audit;
    assert |audit'| == |db1.audit| + 1 ==> audit'[..|db.audit|] == db1.audit;
  }

  ghost predicate QuietlyAppends(audit: seq<AuditRow>, audit': seq<AuditRow>, at: int) {
    Appends(audit, audit', at) && !CreationsIn(audit', |audit|)
  }

  lemma CreatingVaultLogs(db: Db, c: Caller, team: string, name: string, shares: seq<WireShare>, newVault: VaultId,
                          at: int)
    ensures QuietlyAppends(db.audit, CreateVaultRequest(db, c, team, name, shares, newVault, at).db.audit, at)
  {
    var audit' := CreateVaultRequest(db, c, team, name, shares, newVault, at).db.audit;
    assert |audit'| == |db.audit| + 1 ==> audit'[..|db.audit|] == db.audit;
  }

  lemma GrantingLogs(db: Db, c: Caller, team: string, v: VaultId, username: string, shares: seq<WireShare>, at: int)
    ensures QuietlyAppends(db.audit, GrantRequest(db, c, team, v, username, shares, at).db.audit, at)
  {
    var audit' := GrantRequest(db, c, team, v, username, shares, at).db.audit;
    assert |audit'| == |db.audit| + 1 ==> audit'[..|db.audit|] == db.audit;
  }

  lemma PushingLogs(db: Db, c: Caller, v: VaultId, f: FilePush, newId: FileId, at: int)
    ensures QuietlyAppends(db.audit, PushRequest(db, c, v, f, newId, at).db.audit, at)
  {
    if PushRequest(db, c, v, f, newId, at).answer.Some? {
      LogAppends(db, db.(ft := AfterPush(db, db.ft, f.Args(v, c), newId)), c, Some(v),
                 if f.deleted then FileDeleted else FilePushed, Name(f.path), at);
    }
  }

  lemma RevokingLogs(db: Db, c: Caller, req: RevokeCall, ids: nat -> FileId, at: int)
    ensures QuietlyAppends(db.audit, RevokeRequest(db, c, req, ids, at).db.audit, at)
  {
    if MayRevoke(db, c, req) {
      var last := RevokeState(db, c, req, ids, RevokeReach(db, c, req, ids));
      assert last.audit == db.audit;
      LogAppends(db, last, c, Some(req.vault), GrantRevoked, Name(req.username), at);
    }
  }

  lemma DeletingLogs(db: Db, c: Caller, team: string, at: int)
    ensures QuietlyAppends(db.audit, DeleteTeam(db, c, team, at).db.audit, at)
  {
    if TeamAdminAuthed(db, c, team) {
      LogAppends(db, WithoutTeam(db, TeamNamed(db, team).value), c, None, TeamDeleted, Name(team), at);
    }
  }

  lemma RevokingDeviceLogs(db: Db, c: Caller, d: DeviceId, at: int)
    ensures QuietlyAppends(db.audit, RevokeDevice(db, c, d, at).db.audit, at)
  {
    LogAppends(db, db.(devices := WithStatus(db.devices, d, RevokedDevice)), c, None, DeviceRevoked, DeviceTarget(d),
               at);
  }

  lemma ClaimingLogs(db: Db, c: Caller, token: string, at: int)
    ensures QuietlyAppends(db.audit, Claim(db, c, token, at).db.audit, at)
  {
    if Claim(db, c, token, at).answer.Some? {
      LogAppends(db, Claimed(db, token, c.user, c.device), c, None, InviteClaimed, Name(token), at);
    }
  }

  lemma InvitingLogs(db: Db, c: Caller, team: string, username: string, newToken: string, at: int)
    ensures QuietlyAppends(db.audit, Invite(db, c, team, username, newToken, at).db.audit, at)
  {
    var audit' := Invite(db, c, team, username, newToken, at).db.audit;
    assert |audit'| == |db.audit| + 1 ==> audit'[..|db.audit|] == db.audit;
  }

  lemma SettingAdminLogs(db: Db, c: Caller, team: string, username: string, at: int)
    ensures QuietlyAppends(db.audit, SetAdmin(db, c, team, username, at).db.audit, at)
  {
    var audit' := SetAdmin(db, c, team, username, at).db.audit;
    assert |audit'| == |db.audit| + 1 ==> audit'[..|db.audit|] == db.audit;
  }

  lemma RegisteringLogs(db: Db, reg: RegisterRequest, newUser: UserId, newDevice: DeviceId, at: int)
    ensures QuietlyAppends(db.audit, Register(db, reg, newUser, newDevice, at).db.audit, at)
  {
    if Enrol(db, reg, newUser, newDevice).Some? {
      var e := Enrol(db, reg, newUser, newDevice).value;
      LogAppends(db, db.(users := e.users, devices := e.devices), Caller(e.registration.user, e.registration.device),
                 None, e.action, e.target, at);
    }
  }

  lemma OthersLog(db: Db, r: Request, at: int)
    requires !r.CreatingTeam?
    ensures QuietlyAppends(db.audit, Handle(db, r, at).audit, at)
  {
    match r
    case Registering(reg, newUser, newDevice) => RegisteringLogs(db, reg, newUser, newDevice, at);
    case DeletingTeam(c, team) => DeletingLogs(db, c, team, at);
    case RevokingVault(c, call, newFiles) => RevokingLogs(db, c, call, newFiles, at);
    case CreatingVault(c, team, name, shares, newVault) => CreatingVaultLogs(db, c, team, name, shares, newVault, at);
    case GrantingVault(c, team, vault, username, shares) => GrantingLogs(db, c, team, vault, username, shares, at);
    case Pushing(c, vault, file, newFile) => PushingLogs(db, c, vault, file, newFile, at);
    case RevokingDevice(c, device) => RevokingDeviceLogs(db, c, device, at);
    case Claiming(c, token) => ClaimingLogs(db, c, token, at);
    case Inviting(c, team, username, newToken) => InvitingLogs(db, c, team, username, newToken, at);
    case SettingAdmin(c, team, username) => SettingAdminLogs(db, c, team, username, at);
    case _ =>
  }

  /** A team that is created is logged, with its creator. */
  lemma CreatingLogs(db: Db, c: Caller, name: string, newTeam: TeamId, at: int)
    requires CreateTeam(db, c, name, newTeam, at).answer.Some?
    ensures CreateTeam(db, c, name, newTeam, at).db.audit ==
      db.audit + [AuditRow(Some(c.user), Some(c.device), None, TeamCreated, Name(name), at)]
  {
  }

  // ---------------------------------------------------------------- the creator

  /** The last creation of each team's name is by the team's creator. */
  ghost predicate CreatorInv(teams: map<TeamId, TeamRow>, audit: seq<AuditRow>, creators: map<TeamId, UserId>) {
    forall t :: t in teams ==> t in creators && LastIsBy(audit, teams[t].name, creators[t])
  }

  predicate LastIsBy(audit: seq<AuditRow>, name: string, u: UserId) {
    exists i :: 0 <= i < |audit| && IsLastCreation(audit, name, i) && audit[i].user == Some(u)
  }

  lemma LastStays(audit: seq<AuditRow>, audit': seq<AuditRow>, at: int, name: string, u: UserId)
    requires QuietlyAppends(audit, audit', at) && LastIsBy(audit, name, u)
    ensures LastIsBy(audit', name, u)
  {
    var i :| 0 <= i < |audit| && IsLastCreation(audit, name, i) && audit[i].user == Some(u);
    var kept := audit'[..|audit|];
    assert SameRows(audit, kept);
    forall j | i < j < |audit'|
      ensures !IsCreation(audit'[j], name)
    {
      assert j < |audit| ==> audit'[j] == kept[j];
    }
    assert audit'[i] == kept[i];
    assert IsLastCreation(audit', name, i);
  }

  lemma LastAppended(audit: seq<AuditRow>, a: AuditRow, name: string, u: UserId)
    requires a.action == TeamCreated && a.target.Name? && a.user.Some?
    ensures LastIsBy(audit + [a], a.target.text, a.user.value)
    ensures name != a.target.text && LastIsBy(audit, name, u) ==> LastIsBy(audit + [a], name, u)
  {
    assert IsLastCreation(audit + [a], a.target.text, |audit|);
    if name != a.target.text && LastIsBy(audit, name, u) {
      var i :| 0 <= i < |audit| && IsLastCreation(audit, name, i) && audit[i].user == Some(u);
      assert IsLastCreation(audit + [a], name, i);
    }
  }

  ghost function CreatorsAfter(db: Db, creators: map<TeamId, UserId>, r: Request, at: int): map<TeamId, UserId> {
    if r.CreatingTeam? && CreateTeam(db, r.c, r.team, r.newTeam, at).answer.Some? then
      creators[r.newTeam := r.c.user]
    else creators
  }

  lemma CreatingKeepsCreators(db: Db, creators: map<TeamId, UserId>, c: Caller, name: string, newTeam: TeamId, at: int)
    requires CreatorInv(db.teams, db.audit, creators) && newTeam !in db.teams
    requires CreateTeam(db, c, name, newTeam, at).answer.Some?
    ensures var db' := CreateTeam(db, c, name, newTeam, at).db;
      CreatorInv(db'.teams, db'.audit, creators[newTeam := c.user])
  {
    var a := AuditRow(Some(c.user), Some(c.device), None, TeamCreated, Name(name), at);
    CreatingLogs(db, c, name, newTeam, at);
    var teams' := db.teams[newTeam := TeamRow(name)];
    forall t | t in teams'
      ensures LastIsBy(db.audit + [a], teams'[t].name, creators[newTeam := c.user][t])
    {
      LastAppended(db.audit, a, teams'[t].name, if t in creators then creators[t] else c.user);
    }
  }

  lemma OtherTeams(db: Db, r: Request, at: int)
    requires r.Directory?() && !r.CreatingTeam?
    ensures var teams' := Handle(db, r, at).teams;
      forall t :: t in teams' ==> t in db.teams && teams'[t] == db.teams[t]
  {
  }

  lemma RequestKeepsCreators(db: Db, creators: map<TeamId, UserId>, r: Request, at: int)
    requires CreatorInv(db.teams, db.audit, creators) && Fresh(db, r)
    ensures var db' := Handle(db, r, at); CreatorInv(db'.teams, db'.audit, CreatorsAfter(db, creators, r, at))
  {
    if r.CreatingTeam? {
      if CreateTeam(db, r.c, r.team, r.newTeam, at).answer.Some? {
        CreatingKeepsCreators(db, creators, r.c, r.team, r.newTeam, at);
      }
    } else {
      OthersKeepCreators(db, creators, r, at, Handle(db, r, at));
    }
  }

  lemma OthersKeepCreators(db: Db, creators: map<TeamId, UserId>, r: Request, at: int, db': Db)
    requires CreatorInv(db.teams, db.audit, creators) && !r.CreatingTeam? && db' == Handle(db, r, at)
    ensures CreatorInv(db'.teams, db'.audit, creators)
  {
    OthersLog(db, r, at);
    if r.Directory?() {
      OtherTeams(db, r, at);
    } else {
      VaultFrame(db, r, at);
    }
    forall t | t in db'.teams
      ensures LastIsBy(db'.audit, db'.teams[t].name, creators[t])
    {
      LastStays(db.audit, db'.audit, at, db.teams[t].name, creators[t]);
    }
  }

  // ---------------------------------------------------------------- runs

  ghost predicate TimedAudit(audit: seq<AuditRow>, at: int) {
    TimesIncrease(audit) && TimesBelow(audit, at)
  }

  lemma AppendsInOrder(audit: seq<AuditRow>, audit': seq<AuditRow>, at: int, later: int)
    requires TimedAudit(audit, at) && Appends(audit, audit', at) && at < later
    ensures TimedAudit(audit', later)
  {
    if |audit'| == |audit| + 1 {
      var kept := audit'[..|audit|];
      assert forall i :: 0 <= i < |audit| ==> audit'[i] == kept[i];
    }
  }

  lemma RequestKeepsTimes(db: Db, r: Request, at: int, later: int)
    requires TimedAudit(db.audit, at) && at < later
    ensures TimedAudit(Handle(db, r, at).audit, later)
  {
    if r.CreatingTeam? {
      var audit' := Handle(db, r, at).audit;
      assert |audit'| == |db.audit| + 1 ==> audit'[..|db.audit|] == db.audit;
    } else {
      OthersLog(db, r, at);
    }
    AppendsInOrder(db.audit, Handle(db, r, at).audit, at, later);
  }

  predicate IncreasingTimes(reqs: seq<Timed>) {
    forall i, j :: 0 <= i < j < |reqs| ==> reqs[i].at < reqs[j].at
  }

  /** Who created each team, by the requests of the run. */
  ghost function CreatorsAt(states: seq<Db>, reqs: seq<Timed>, n: nat): map<TeamId, UserId>
    requires n <= |reqs| && |states| == |reqs| + 1
  {
    if n == 0 then map[]
    else CreatorsAfter(states[n - 1], CreatorsAt(states, reqs, n - 1), reqs[n - 1].request, reqs[n - 1].at)
  }

  lemma StepKeepsCreators(states: seq<Db>, reqs: seq<Timed>, i: nat, creators: map<TeamId, UserId>, later: int)
    requires Run(states, reqs) && i < |reqs| && CreatorInv(states[i].teams, states[i].audit, creators)
    requires TimedAudit(states[i].audit, reqs[i].at) && reqs[i].at < later
    ensures CreatorInv(states[i + 1].teams, states[i + 1].audit,
                       CreatorsAfter(states[i], creators, reqs[i].request, reqs[i].at))
    ensures TimedAudit(states[i + 1].audit, later)
  {
    assert Follows(states, reqs, i);
    RequestKeepsCreators(states[i], creators, reqs[i].request, reqs[i].at);
    RequestKeepsTimes(states[i], reqs[i].request, reqs[i].at, later);
  }

  lemma {:induction false} CreatorsAreLogged(states: seq<Db>, reqs: seq<Timed>, n: nat, later: int)
    requires Run(states, reqs) && n <= |reqs| && IncreasingTimes(reqs) && states[0].teams == map[]
    requires states[0].audit == []
    requires forall i :: 0 <= i < n ==> reqs[i].at < later
    ensures CreatorInv(states[n].teams, states[n].audit, CreatorsAt(states, reqs, n))
    ensures TimedAudit(states[n].audit, later)
    decreases n
  {
    if n > 0 {
      CreatorsAreLogged(states, reqs, n - 1, reqs[n - 1].at);
      StepKeepsCreators(states, reqs, n - 1, CreatorsAt(states, reqs, n - 1), later);
    }
  }

  /** Over a run from an empty database at increasing times, across deletions and new creations of the
      same name by others: the creator the query shows for a team is the user who created that team. */
  lemma ShownCreatorIsTheCreator(states: seq<Db>, reqs: seq<Timed>, n: nat, t: TeamId, i: nat)
    requires Run(states, reqs) && n <= |reqs| && IncreasingTimes(reqs) && states[0].teams == map[]
    requires states[0].audit == []
    requires t in states[n].teams && MayBeShown(states[n].audit, states[n].teams[t].name, i)
    ensures t in CreatorsAt(states, reqs, n) && states[n].audit[i].user == Some(CreatorsAt(states, reqs, n)[t])
  {
    var later := if n == 0 then 0 else reqs[n - 1].at + 1;
    CreatorsAreLogged(states, reqs, n, later);
    var last :| 0 <= last < |states[n].audit| && IsLastCreation(states[n].audit, states[n].teams[t].name, last)
                && states[n].audit[last].user == Some(CreatorsAt(states, reqs, n)[t]);
    ShownIsLast(states[n].audit, states[n].teams[t].name, i, last);
  }

  // ---------------------------------------------------------------- where clock readings repeat

  predicate OrderedTimes(reqs: seq<Timed>) {
    forall i, j :: 0 <= i < j < |reqs| ==> reqs[i].at <= reqs[j].at
  }

  /** The j-th request creates a team of the name. */
  ghost predicate CreatesAt(states: seq<Db>, reqs: seq<Timed>, j: nat, name: string)
    requires j < |reqs| && |states| == |reqs| + 1
  {
    var r := reqs[j].request;
    r.CreatingTeam? && r.team == name && CreateTeam(states[j], r.c, name, r.newTeam, reqs[j].at).answer.Some?
  }

  /** A creation of a team, as requests make it and the log keeps it. */
  datatype Creation = Creation(name: string, user: UserId, at: int)

  ghost function CreationBy(db: Db, r: Request, at: int): set<Creation> {
    if r.CreatingTeam? && CreateTeam(db, r.c, r.team, r.newTeam, at).answer.Some? then
      {Creation(r.team, r.c.user, at)}
    else {}
  }

  /** The creations by the first n requests. */
  ghost function Made(states: seq<Db>, reqs: seq<Timed>, n: nat): set<Creation>
    requires n <= |reqs| && |states| == |reqs| + 1
  {
    if n == 0 then {} else Made(states, reqs, n - 1) + CreationBy(states[n - 1], reqs[n - 1].request, reqs[n - 1].at)
  }

  predicate RowOf(a: AuditRow, c: Creation) {
    IsCreation(a, c.name) && a.user == Some(c.user) && a.at == c.at
  }

  /** The creations in the log are those that were made. */
  ghost predicate LoggedCreations(audit: seq<AuditRow>, made: set<Creation>) {
    && (forall k: nat, name: string :: k < |audit| && IsCreation(audit[k], name) ==>
          Creation(name, audit[k].user.value, audit[k].at) in made)
    && (forall c :: c in made ==> exists k: nat :: k < |audit| && RowOf(audit[k], c))
  }

  lemma QuietStep(audit: seq<AuditRow>, audit': seq<AuditRow>, at: int, made: set<Creation>)
    requires LoggedCreations(audit, made) && QuietlyAppends(audit, audit', at)
    ensures LoggedCreations(audit', made)
  {
    var kept := audit'[..|audit|];
    assert SameRows(audit, kept);
    forall k: nat, name: string | k < |audit'| && IsCreation(audit'[k], name)
      ensures Creation(name, audit'[k].user.value, audit'[k].at) in made
    {
      assert k < |audit| && kept[k] == audit'[k];
      assert IsCreation(audit[k], name);
    }
    forall c | c in made
      ensures exists k: nat :: k < |audit'| && RowOf(audit'[k], c)
    {
      var k: nat :| k < |audit| && RowOf(audit[k], c);
      assert kept[k] == audit'[k];
      assert RowOf(audit'[k], c);
    }
  }

  lemma CreationStep(audit: seq<AuditRow>, a: AuditRow, made: set<Creation>, c: Creation)
    requires LoggedCreations(audit, made) && RowOf(a, c)
    ensures LoggedCreations(audit + [a], made + {c})
  {
    var audit' := audit + [a];
    assert audit'[|audit|] == a;
    forall k: nat, name: string | k < |audit'| && IsCreation(audit'[k], name)
      ensures Creation(name, audit'[k].user.value, audit'[k].at) in made + {c}
    {
      assert k < |audit| ==> IsCreation(audit[k], name);
    }
    forall c' | c' in made
      ensures exists k: nat :: k < |audit'| && RowOf(audit'[k], c')
    {
      var k: nat :| k < |audit| && RowOf(audit[k], c');
      assert RowOf(audit'[k], c');
    }
  }

  lemma RefusedCreation(db: Db, c: Caller, team: string, newTeam: TeamId, at: int)
    requires CreateTeam(db, c, team, newTeam, at).answer.None?
    ensures CreateTeam(db, c, team, newTeam, at).db.audit == db.audit
  {
  }

  lemma RequestLogsCreations(db: Db, r: Request, at: int, made: set<Creation>)
    requires LoggedCreations(db.audit, made)
    ensures LoggedCreations(Handle(db, r, at).audit, made + CreationBy(db, r, at))
  {
    if !r.CreatingTeam? {
      OthersLog(db, r, at);
      QuietStep(db.audit, Handle(db, r, at).audit, at, made);
      assert made + CreationBy(db, r, at) == made;
    } else if CreateTeam(db, r.c, r.team, r.newTeam, at).answer.Some? {
      CreatingLogs(db, r.c, r.team, r.newTeam, at);
      CreationStep(db.audit, AuditRow(Some(r.c.user), Some(r.c.device), None, TeamCreated, Name(r.team), at), made,
                   Creation(r.team, r.c.user, at));
    } else {
      RefusedCreation(db, r.c, r.team, r.newTeam, at);
      assert made + CreationBy(db, r, at) == made;
    }
  }

  lemma StepLogsCreations(states: seq<Db>, reqs: seq<Timed>, n: nat, made: set<Creation>)
    requires Run(states, reqs) && n < |reqs| && LoggedCreations(states[n].audit, made)
    ensures LoggedCreations(states[n + 1].audit, made + CreationBy(states[n], reqs[n].request, reqs[n].at))
  {
    assert Follows(states, reqs, n);
    RequestLogsCreations(states[n], reqs[n].request, reqs[n].at, made);
  }

  lemma {:induction false} CreationsAreLogged(states: seq<Db>, reqs: seq<Timed>, n: nat)
    requires Run(states, reqs) && n <= |reqs| && states[0].audit == []
    ensures LoggedCreations(states[n].audit, Made(states, reqs, n))
    decreases n
  {
    if n > 0 {
      CreationsAreLogged(states, reqs, n - 1);
      StepLogsCreations(states, reqs, n - 1, Made(states, reqs, n - 1));
    }
  }

  /** The j-th request makes this creation. */
  ghost predicate MadeAt(states: seq<Db>, reqs: seq<Timed>, j: nat, c: Creation)
    requires j < |reqs| && |states| == |reqs| + 1
  {
    CreatesAt(states, reqs, j, c.name) && reqs[j].request.c.user == c.user && reqs[j].at == c.at
  }

  lemma {:induction false} MadeByRequest(states: seq<Db>, reqs: seq<Timed>, n: nat, c: Creation) returns (j: nat)
    requires n <= |reqs| && |states| == |reqs| + 1 && c in Made(states, reqs, n)
    ensures j < n && MadeAt(states, reqs, j, c)
    decreases n
  {
    if c in Made(states, reqs, n - 1) {
      j := MadeByRequest(states, reqs, n - 1, c);
    } else {
      j := n - 1;
    }
  }

  lemma {:induction false} RequestMakes(states: seq<Db>, reqs: seq<Timed>, n: nat, j: nat, name: string)
    requires j < n <= |reqs| && |states| == |reqs| + 1 && CreatesAt(states, reqs, j, name)
    ensures Creation(name, reqs[j].request.c.user, reqs[j].at) in Made(states, reqs, n)
    decreases n
  {
    if j < n - 1 {
      RequestMakes(states, reqs, n - 1, j, name);
    }
  }

  /** Among logged creations none later than the one of the creator, whoever created the name at that
      time may be shown, and nobody else. */
  lemma ShownIffMade(audit: seq<AuditRow>, made: set<Creation>, name: string, creator: UserId, at: int)
    requires LoggedCreations(audit, made) && Creation(name, creator, at) in made
    requires forall c :: c in made && c.name == name ==> c.at <= at
    ensures (forall k: nat :: MayBeShown(audit, name, k) ==> audit[k].user == Some(creator))
      <==> (forall c :: c in made && c.name == name && c.at == at ==> c.user == creator)
  {
    var own: nat :| own < |audit| && RowOf(audit[own], Creation(name, creator, at));
    forall k: nat | k < |audit| && IsCreation(audit[k], name)
      ensures MayBeShown(audit, name, k) <==> audit[k].at == at
    {
      assert Creation(name, audit[k].user.value, audit[k].at) in made;
      assert audit[own].at == at;
    }
    if c :| c in made && c.name == name && c.at == at && c.user != creator {
      var k: nat :| k < |audit| && RowOf(audit[k], c);
      assert MayBeShown(audit, name, k);
    }
  }

  /** The team is created by the i-th request and there ever since. */
  ghost predicate TeamSince(states: seq<Db>, reqs: seq<Timed>, i: nat, n: nat, t: TeamId, name: string)
    requires i < n <= |reqs| && |states| == |reqs| + 1
  {
    CreatesAt(states, reqs, i, name) && reqs[i].request.newTeam == t && forall k :: i < k <= n ==> t in states[k].teams
  }

  lemma CreatedTeamRow(db: Db, c: Caller, name: string, newTeam: TeamId, at: int)
    requires CreateTeam(db, c, name, newTeam, at).answer.Some?
    ensures var db' := CreateTeam(db, c, name, newTeam, at).db; newTeam in db'.teams && db'.teams[newTeam].name == name
  {
  }

  lemma TeamKeepsItsName(db: Db, r: Request, at: int, t: TeamId)
    requires Fresh(db, r) && t in db.teams && t in Handle(db, r, at).teams
    ensures Handle(db, r, at).teams[t] == db.teams[t]
  {
    if !r.Directory?() {
      VaultFrame(db, r, at);
    } else if !r.CreatingTeam? {
      OtherTeams(db, r, at);
    }
  }

  lemma NameInNext(states: seq<Db>, reqs: seq<Timed>, n: nat, t: TeamId)
    requires Run(states, reqs) && n < |reqs| && t in states[n].teams && t in states[n + 1].teams
    ensures states[n + 1].teams[t] == states[n].teams[t]
  {
    assert Follows(states, reqs, n);
    TeamKeepsItsName(states[n], reqs[n].request, reqs[n].at, t);
  }

  lemma NameAtFirst(states: seq<Db>, reqs: seq<Timed>, i: nat, t: TeamId, name: string)
    requires Run(states, reqs) && i < |reqs| && CreatesAt(states, reqs, i, name) && reqs[i].request.newTeam == t
    ensures t in states[i + 1].teams && states[i + 1].teams[t].name == name
  {
    assert Follows(states, reqs, i);
    CreatedTeamRow(states[i], reqs[i].request.c, name, t, reqs[i].at);
  }

  lemma {:induction false} NameSince(states: seq<Db>, reqs: seq<Timed>, i: nat, n: nat, t: TeamId, name: string)
    requires Run(states, reqs) && i < n <= |reqs| && TeamSince(states, reqs, i, n, t, name)
    ensures t in states[n].teams && states[n].teams[t].name == name
    decreases n
  {
    if n == i + 1 {
      NameAtFirst(states, reqs, i, t, name);
    } else {
      NameSince(states, reqs, i, n - 1, t, name);
      NameInNext(states, reqs, n - 1, t);
    }
  }

  /** While a team stays no other of its name is created. */
  lemma NoLaterCreation(states: seq<Db>, reqs: seq<Timed>, i: nat, n: nat, t: TeamId, name: string, j: nat)
    requires Run(states, reqs) && i < n <= |reqs| && TeamSince(states, reqs, i, n, t, name)
    requires j < n && CreatesAt(states, reqs, j, name)
    ensures j <= i
  {
    if j > i {
      NameSince(states, reqs, i, j, t, name);
    }
  }

  lemma EarlierIsNoLater(reqs: seq<Timed>, j: nat, i: nat)
    requires OrderedTimes(reqs) && j <= i < |reqs|
    ensures reqs[j].at <= reqs[i].at
  {
  }

  /** Another creation of the name of a team that is still there came before it. */
  lemma CameBefore(states: seq<Db>, reqs: seq<Timed>, i: nat, n: nat, t: TeamId, name: string, j: nat, c: Creation)
    requires Run(states, reqs) && i < n <= |reqs| && TeamSince(states, reqs, i, n, t, name)
    requires j < n && MadeAt(states, reqs, j, c) && c.name == name
    ensures j <= i && (c.user != reqs[i].request.c.user ==> j < i)
  {
    NoLaterCreation(states, reqs, i, n, t, name, j);
  }

  /** The other creations of the name of a team that is still there came before it, and no later. */
  lemma OtherCreations(states: seq<Db>, reqs: seq<Timed>, i: nat, n: nat, t: TeamId, name: string, c: Creation)
    requires Run(states, reqs) && OrderedTimes(reqs) && i < n <= |reqs| && TeamSince(states, reqs, i, n, t, name)
    requires c in Made(states, reqs, n) && c.name == name
    ensures c.at <= reqs[i].at
    ensures c.user != reqs[i].request.c.user ==> exists j: nat :: j < i && MadeAt(states, reqs, j, c)
  {
    var j := MadeByRequest(states, reqs, n, c);
    CameBefore(states, reqs, i, n, t, name, j, c);
    EarlierIsNoLater(reqs, j, i);
  }

  /** A request before the i-th creates the name for another user at the same clock reading. */
  ghost predicate AnotherCreates(states: seq<Db>, reqs: seq<Timed>, i: nat, name: string)
    requires i < |reqs| && |states| == |reqs| + 1
  {
    reqs[i].request.CreatingTeam? && exists j: nat ::
      j < i && CreatesAt(states, reqs, j, name) && reqs[j].at == reqs[i].at
        && reqs[j].request.c.user != reqs[i].request.c.user
  }

  lemma AnotherIsMade(states: seq<Db>, reqs: seq<Timed>, i: nat, n: nat, t: TeamId, name: string)
    requires Run(states, reqs) && OrderedTimes(reqs) && i < n <= |reqs| && TeamSince(states, reqs, i, n, t, name)
    ensures AnotherCreates(states, reqs, i, name) <==>
      exists c :: c in Made(states, reqs, n) && c.name == name && c.at == reqs[i].at && c.user != reqs[i].request.c.user
  {
    var made := Made(states, reqs, n);
    if AnotherCreates(states, reqs, i, name) {
      var j: nat :| j < i && CreatesAt(states, reqs, j, name) && reqs[j].at == reqs[i].at
                    && reqs[j].request.c.user != reqs[i].request.c.user;
      RequestMakes(states, reqs, n, j, name);
    }
    if c :| c in made && c.name == name && c.at == reqs[i].at && c.user != reqs[i].request.c.user {
      OtherCreations(states, reqs, i, n, t, name, c);
    }
  }

  /** Over a run from an empty log at times that may repeat but not go back: for as long as a team stays
      it is sure to be shown with its creator if and only if no request of another user created a team of
      that name before it at the same clock reading. */
  lemma ShownCreatorIff(states: seq<Db>, reqs: seq<Timed>, i: nat, n: nat, t: TeamId, name: string)
    requires Run(states, reqs) && OrderedTimes(reqs) && states[0].audit == [] && i < n <= |reqs|
    requires TeamSince(states, reqs, i, n, t, name)
    ensures (forall k: nat :: MayBeShown(states[n].audit, name, k) ==>
               states[n].audit[k].user == Some(reqs[i].request.c.user))
      <==> !AnotherCreates(states, reqs, i, name)
  {
    var made := Made(states, reqs, n);
    CreationsAreLogged(states, reqs, n);
    RequestMakes(states, reqs, n, i, name);
    forall c | c in made && c.name == name
      ensures c.at <= reqs[i].at
    {
      OtherCreations(states, reqs, i, n, t, name, c);
    }
    ShownIffMade(states[n].audit, made, name, reqs[i].request.c.user, reqs[i].at);
    AnotherIsMade(states, reqs, i, n, t, name);
  }

  // ---------------------------------------------------------------- the run that ends otherwise

  /** A team that is deleted: its name is free again, and nobody has changed. */
  lemma AfterDeletion(db: Db, c: Caller, name: string, t: TeamId, at: int)
    requires UniqueNames(db) && TeamAdminAuthed(db, c, name) && TeamNamed(db, name) == Some(t)
    ensures var db' := DeleteTeam(db, c, name, at).db;
      && TeamNamed(db', name).None? && db'.users == db.users && db'.devices == db.devices
      && db'.teams == db.teams - {t} && QuietlyAppends(db.audit, db'.audit, at)
  {
    DeletingLogs(db, c, name, at);
  }

  /** Rows of the same time do not displace a row that may be shown. */
  lemma OneMoreAt(audit: seq<AuditRow>, audit': seq<AuditRow>, at: int, name: string, k: nat)
    requires Appends(audit, audit', at) && k < |audit| && IsCreation(audit[k], name) && audit[k].at == at
    requires forall i :: 0 <= i < |audit| ==> audit[i].at <= at
    ensures MayBeShown(audit', name, k) && audit'[k].user == audit[k].user && audit'[k].at == at
    ensures forall i :: 0 <= i < |audit'| ==> audit'[i].at <= at
  {
    var kept := audit'[..|audit|];
    assert SameRows(audit, kept);
    assert forall i :: 0 <= i < |audit| ==> audit'[i] == kept[i];
  }

  /** What the log says after a creation by b, a request that adds at most a row, and a creation by a. */
  lemma FirstMayBeShown(audit: seq<AuditRow>, first: AuditRow, audit2: seq<AuditRow>, second: AuditRow, at: int,
                        name: string)
    requires forall i :: 0 <= i < |audit| ==> audit[i].at <= at
    requires IsCreation(first, name) && first.at == at && second.at == at
    requires Appends(audit + [first], audit2, at)
    ensures |audit| < |audit2| && MayBeShown(audit2 + [second], name, |audit|)
    ensures (audit2 + [second])[|audit|].user == first.user
  {
    var audit1 := audit + [first];
    assert audit1[|audit|] == first;
    OneMoreAt(audit1, audit2, at, name, |audit|);
    var audit3 := audit2 + [second];
    assert audit3[..|audit2|] == audit2;
    OneMoreAt(audit2, audit3, at, name, |audit|);
  }

  /** b creates a team, deletes it, and a creates it again, all at one clock reading: the query may show b. */
  lemma CreatorMayBeWrong(db: Db, b: Caller, a: Caller, name: string, t: TeamId, t': TeamId, at: int, db1: Db, db2: Db,
                          db3: Db)
    requires ServerInv(db) && ActiveAuthed(db, b) && ActiveAuthed(db, a) && a.user != b.user
    requires name != "" && TeamNamed(db, name).None? && t !in db.teams && t' !in db.teams
    requires forall i :: 0 <= i < |db.audit| ==> db.audit[i].at <= at
    requires db1 == Handle(db, CreatingTeam(b, name, t), at)
    requires db2 == Handle(db1, DeletingTeam(b, name), at)
    requires db3 == Handle(db2, CreatingTeam(a, name, t'), at)
    ensures t' in db3.teams && db3.teams[t'].name == name && IsTeamAdmin(db3, t', a.user)
    ensures MayBeShown(db3.audit, name, |db.audit|) && db3.audit[|db.audit|].user == Some(b.user)
  {
    CreatorAdministers(db, b, name, t, at, db1);
    CreatingLogs(db, b, name, t, at);
    AfterDeletion(db1, b, name, t, at);
    AfterCreation(db2, a, name, t', at, db3);
    CreatingLogs(db2, a, name, t', at);
    FirstMayBeShown(db.audit, AuditRow(Some(b.user), Some(b.device), None, TeamCreated, Name(name), at), db2.audit,
                    AuditRow(Some(a.user), Some(a.device), None, TeamCreated, Name(name), at), at, name);
  }
}
