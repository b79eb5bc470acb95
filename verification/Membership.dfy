/** Invites, members and admins over runs of the server (invites.go, teams.go, handlers_teams.go). */
module Membership {
  import opened Common
  import opened Crypto
  import opened Schema
  import opened Lookup
  import opened Guards
  import opened VaultStore
  import opened Directory
  import opened Cascade
  import opened VaultHandlers
  import opened Server
  import opened ServerInvariant
  import opened ServerRuns

  // ---------------------------------------------------------------- who changes a membership

  function RowOf(db: Db, t: TeamId, u: UserId): Option<MemberRow> {
    if MemberKey(t, u) in db.members then Some(db.members[MemberKey(t, u)]) else None
  }

  /** The user claims an invite to the team that is for him, unused and in time. */
  ghost predicate Claims(db: Db, r: Request, at: int, t: TeamId, u: UserId) {
    && r.Claiming? && r.c.user == u && FromOwnDevice(db, r.c) && r.token in db.invites
    && var i := db.invites[r.token];
       i.team == t && i.usedBy == None && at <= i.expiresAt && i.username == db.users[u].username
  }

  /** The user creates the team, from an active device and under a name no team has. */
  ghost predicate Creates(db: Db, r: Request, at: int, t: TeamId, u: UserId) {
    && r.CreatingTeam? && r.newTeam == t && r.c.user == u && FromActiveDevice(db, r.c) && r.team != ""
    && forall t' :: t' in db.teams ==> db.teams[t'].name != r.team
  }

  /** An admin of the team deletes it. */
  ghost predicate Deletes(db: Db, r: Request, t: TeamId) {
    r.DeletingTeam? && FromAdmin(db, r.c, t, r.team) && TeamNamed(db, r.team) == Some(t)
  }

  /** An admin of the team makes an admin of the user, who is an ordinary active member. */
  ghost predicate Promotes(db: Db, r: Request, at: int, t: TeamId, u: UserId) {
    && r.SettingAdmin? && FromAdmin(db, r.c, t, r.team) && TeamNamed(db, r.team) == Some(t)
    && r.username != "" && UserNamed(db, r.username) == Some(u)
    && RowOf(db, t, u) == Some(MemberRow(ActiveMember, Member))
  }

  ghost function RowAfter(db: Db, r: Request, at: int, t: TeamId, u: UserId): Option<MemberRow> {
    if Claims(db, r, at, t, u) then Some(MemberRow(ActiveMember, Member))
    else if Creates(db, r, at, t, u) || Promotes(db, r, at, t, u) then Some(MemberRow(ActiveMember, Admin))
    else if Deletes(db, r, t) then None
    else RowOf(db, t, u)
  }

  lemma ClaimedRow(db: Db, r: Request, at: int, t: TeamId, u: UserId)
    requires r.Claiming?
    ensures RowOf(Handle(db, r, at), t, u) == RowAfter(db, r, at, t, u)
  {
  }

  lemma CreatedRow(db: Db, r: Request, at: int, t: TeamId, u: UserId)
    requires r.CreatingTeam?
    ensures RowOf(Handle(db, r, at), t, u) == RowAfter(db, r, at, t, u)
  {
  }

  lemma PromotedRow(db: Db, r: Request, at: int, t: TeamId, u: UserId)
    requires r.SettingAdmin?
    ensures RowOf(Handle(db, r, at), t, u) == RowAfter(db, r, at, t, u)
  {
    var row := RowOf(db, t, u);
    if row.Some? {
      assert row.value.role == Admin || row.value.role == Member;
      assert row.value == MemberRow(row.value.status, row.value.role);
    }
  }

  lemma DeletedRow(db: Db, r: Request, at: int, t: TeamId, u: UserId)
    requires r.DeletingTeam?
    ensures RowOf(Handle(db, r, at), t, u) == RowAfter(db, r, at, t, u)
  {
  }

  lemma OtherRow(db: Db, r: Request, at: int)
    requires r.Registering? || r.RevokingDevice? || r.Inviting?
    ensures Handle(db, r, at).members == db.members
  {
  }

  /** A membership changes only by a claim, a creation, a promotion or a deletion of the team, and to
      what that says: a claim makes an ordinary active member of its user, whoever it was before. */
  lemma MembershipAfter(db: Db, r: Request, at: int, t: TeamId, u: UserId)
    ensures RowOf(Handle(db, r, at), t, u) == RowAfter(db, r, at, t, u)
  {
    if !r.Directory?() {
      VaultFrame(db, r, at);
    } else {
      match r
      case Claiming(_, _) => ClaimedRow(db, r, at, t, u);
      case CreatingTeam(_, _, _) => CreatedRow(db, r, at, t, u);
      case SettingAdmin(_, _, _) => PromotedRow(db, r, at, t, u);
      case DeletingTeam(_, _) => DeletedRow(db, r, at, t, u);
      case _ => OtherRow(db, r, at);
    }
  }

  // ---------------------------------------------------------------- where admins come from

  /** Whoever becomes an admin of a team has created it by the request or is promoted by an admin of it. */
  lemma NewAdminIff(db: Db, r: Request, at: int, t: TeamId, u: UserId)
    requires !HasAdminRow(db, t, u)
    ensures HasAdminRow(Handle(db, r, at), t, u) <==> Creates(db, r, at, t, u) || Promotes(db, r, at, t, u)
  {
    MembershipAfter(db, r, at, t, u);
  }

  /** The i-th request makes the user an admin, in the name of another. */
  ghost predicate PromotedAt(states: seq<Db>, reqs: seq<Timed>, i: nat, t: TeamId, admin: UserId, u: UserId)
    requires i < |reqs| && |states| == |reqs| + 1
  {
    && Promotes(states[i], reqs[i].request, reqs[i].at, t, u) && reqs[i].request.c.user == admin
    && HasAdminRow(states[i], t, admin)
  }

  ghost predicate CreatedAt(states: seq<Db>, reqs: seq<Timed>, i: nat, t: TeamId, u: UserId)
    requires i < |reqs| && |states| == |reqs| + 1
  {
    Creates(states[i], reqs[i].request, reqs[i].at, t, u)
  }

  datatype Promotion = Promotion(user: UserId, at: nat)

  /** The first of the chain creates the team, each next is promoted by the one before, and the team is
      there all the time since. */
  ghost predicate Chain(states: seq<Db>, reqs: seq<Timed>, n: nat, t: TeamId, links: seq<Promotion>)
    requires n <= |reqs| && |states| == |reqs| + 1
  {
    && links != [] && (forall k :: 0 <= k < |links| ==> links[k].at < n)
    && CreatedAt(states, reqs, links[0].at, t, links[0].user)
    && (forall k :: 0 < k < |links| ==>
          && links[k - 1].at < links[k].at
          && PromotedAt(states, reqs, links[k].at, t, links[k - 1].user, links[k].user))
    && (forall i :: links[0].at < i <= n ==> t in states[i].teams)
  }

  lemma ChainGoesOn(states: seq<Db>, reqs: seq<Timed>, n: nat, t: TeamId, links: seq<Promotion>)
    requires n < |reqs| && |states| == |reqs| + 1 && Chain(states, reqs, n, t, links) && t in states[n + 1].teams
    ensures Chain(states, reqs, n + 1, t, links)
  {
  }

  lemma ChainGrows(states: seq<Db>, reqs: seq<Timed>, n: nat, t: TeamId, links: seq<Promotion>, u: UserId)
    requires n < |reqs| && |states| == |reqs| + 1 && Chain(states, reqs, n, t, links) && t in states[n + 1].teams
    requires PromotedAt(states, reqs, n, t, links[|links| - 1].user, u)
    ensures Chain(states, reqs, n + 1, t, links + [Promotion(u, n)])
  {
    var longer := links + [Promotion(u, n)];
    forall k | 0 < k < |longer|
      ensures longer[k - 1].at < longer[k].at
      ensures longer[k].at < |reqs| && PromotedAt(states, reqs, longer[k].at, t, longer[k - 1].user, longer[k].user)
    {
      assert longer[k - 1] == links[k - 1];
      assert k < |links| ==> longer[k] == links[k];
    }
  }

  lemma AdminsHaveTeams(states: seq<Db>, reqs: seq<Timed>, n: nat, t: TeamId, u: UserId)
    requires Run(states, reqs) && n <= |reqs| && HasAdminRow(states[n], t, u)
    ensures t in states[n].teams
  {
    RunKeepsServerInv(states, reqs, n);
    assert MemberKey(t, u) in states[n].members;
  }

  lemma NewAdminAt(states: seq<Db>, reqs: seq<Timed>, i: nat, t: TeamId, u: UserId)
    requires Run(states, reqs) && i < |reqs| && !HasAdminRow(states[i], t, u) && HasAdminRow(states[i + 1], t, u)
    ensures !reqs[i].request.Registering?
    ensures CreatedAt(states, reqs, i, t, u) || PromotedAt(states, reqs, i, t, reqs[i].request.c.user, u)
  {
    assert Follows(states, reqs, i);
    NewAdminIff(states[i], reqs[i].request, reqs[i].at, t, u);
  }

  /** Over every run that starts without members each admin of a team goes back to whoever created it, by a
      chain of promotions, each by one who was an admin. */
  lemma {:induction false} AdminsGoBackToTheCreator(states: seq<Db>, reqs: seq<Timed>, n: nat, t: TeamId, u: UserId)
    returns (links: seq<Promotion>)
    requires Run(states, reqs) && n <= |reqs| && states[0].members == map[] && HasAdminRow(states[n], t, u)
    ensures Chain(states, reqs, n, t, links) && links[|links| - 1].user == u
    decreases n
  {
    AdminsHaveTeams(states, reqs, n, t, u);
    if HasAdminRow(states[n - 1], t, u) {
      links := AdminsGoBackToTheCreator(states, reqs, n - 1, t, u);
      ChainGoesOn(states, reqs, n - 1, t, links);
    } else {
      NewAdminAt(states, reqs, n - 1, t, u);
      if CreatedAt(states, reqs, n - 1, t, u) {
        links := [Promotion(u, n - 1)];
      } else {
        links := AdminsGoBackToTheCreator(states, reqs, n - 1, t, reqs[n - 1].request.c.user);
        ChainGrows(states, reqs, n - 1, t, links, u);
        links := links + [Promotion(u, n - 1)];
      }
    }
  }

  // ---------------------------------------------------------------- each invite once

  /** The token is not there, or used. */
  predicate Spent(db: Db, token: string) {
    token in db.invites ==> db.invites[token].usedBy.Some?
  }

  predicate Reissues(r: Request, token: string) {
    r.Inviting? && r.newToken == token
  }

  /** The same invite, perhaps used since. */
  predicate SameInvite(before: InviteRow, after: InviteRow) {
    && after.team == before.team && after.username == before.username && after.expiresAt == before.expiresAt
    && (before.usedBy.Some? ==> after.usedBy == before.usedBy)
  }

  lemma InvitesAfterClaim(db: Db, c: Caller, claimed: string, at: int, token: string)
    requires token in Claim(db, c, claimed, at).db.invites
    ensures token in db.invites && SameInvite(db.invites[token], Claim(db, c, claimed, at).db.invites[token])
  {
  }

  lemma InvitesAfterDeletion(db: Db, c: Caller, team: string, at: int, token: string)
    requires token in DeleteTeam(db, c, team, at).db.invites
    ensures token in db.invites && SameInvite(db.invites[token], DeleteTeam(db, c, team, at).db.invites[token])
  {
  }

  lemma InvitesAfterInvite(db: Db, c: Caller, team: string, username: string, newToken: string, at: int, token: string)
    requires token in Invite(db, c, team, username, newToken, at).db.invites && token != newToken
    ensures token in db.invites
    ensures SameInvite(db.invites[token], Invite(db, c, team, username, newToken, at).db.invites[token])
  {
  }

  lemma RegisteringInvites(db: Db, reg: RegisterRequest, newUser: UserId, newDevice: DeviceId, at: int)
    ensures Register(db, reg, newUser, newDevice, at).db.invites == db.invites
  {
  }

  lemma OtherInvites(db: Db, r: Request, at: int)
    requires r.Registering? || r.RevokingDevice? || r.CreatingTeam? || r.SettingAdmin?
    ensures Handle(db, r, at).invites == db.invites
  {
    if r.Registering? {
      RegisteringInvites(db, r.reg, r.newUser, r.newDevice, at);
    }
  }

  /** An invite keeps its team, user and expiry, and once used its user, until it goes with its team. */
  lemma InvitesStay(db: Db, r: Request, at: int, token: string)
    requires !Reissues(r, token) && token in Handle(db, r, at).invites
    ensures token in db.invites && SameInvite(db.invites[token], Handle(db, r, at).invites[token])
  {
    if !r.Directory?() {
      VaultFrame(db, r, at);
    } else {
      match r
      case Claiming(c, claimed) => InvitesAfterClaim(db, c, claimed, at, token);
      case DeletingTeam(c, team) => InvitesAfterDeletion(db, c, team, at, token);
      case Inviting(c, team, username, newToken) => InvitesAfterInvite(db, c, team, username, newToken, at, token);
      case _ => OtherInvites(db, r, at);
    }
  }

  ghost predicate ClaimedAt(states: seq<Db>, reqs: seq<Timed>, i: nat, token: string)
    requires i < |reqs| && |states| == |reqs| + 1
  {
    var r := reqs[i].request;
    r.Claiming? && r.token == token && Claim(states[i], r.c, token, reqs[i].at).answer.Some?
  }

  lemma ClaimSpends(states: seq<Db>, reqs: seq<Timed>, i: nat, token: string)
    requires Run(states, reqs) && i < |reqs| && ClaimedAt(states, reqs, i, token)
    ensures Spent(states[i + 1], token)
  {
    assert Follows(states, reqs, i);
  }

  lemma StaysSpent(states: seq<Db>, reqs: seq<Timed>, i: nat, token: string)
    requires Run(states, reqs) && i < |reqs| && !Reissues(reqs[i].request, token) && Spent(states[i], token)
    ensures Spent(states[i + 1], token)
  {
    assert Follows(states, reqs, i);
    if token in states[i + 1].invites {
      InvitesStay(states[i], reqs[i].request, reqs[i].at, token);
    }
  }

  lemma {:induction false} SpentUntilReissued(states: seq<Db>, reqs: seq<Timed>, i: nat, j: nat, token: string)
    requires Run(states, reqs) && i < j <= |reqs| && ClaimedAt(states, reqs, i, token)
    requires forall k :: i < k < j ==> !Reissues(reqs[k].request, token)
    ensures Spent(states[j], token)
    decreases j - i
  {
    if j == i + 1 {
      ClaimSpends(states, reqs, i, token);
    } else {
      SpentUntilReissued(states, reqs, i, j - 1, token);
      StaysSpent(states, reqs, j - 1, token);
    }
  }

  /** Between two claims of one token that go through, the token was issued again. */
  lemma OneClaimPerInvite(states: seq<Db>, reqs: seq<Timed>, i: nat, j: nat, token: string)
    requires Run(states, reqs) && i < j < |reqs| && ClaimedAt(states, reqs, i, token)
    requires ClaimedAt(states, reqs, j, token)
    ensures exists k :: i < k < j && Reissues(reqs[k].request, token)
  {
    if forall k :: i < k < j ==> !Reissues(reqs[k].request, token) {
      SpentUntilReissued(states, reqs, i, j, token);
      assert false;
    }
  }

  /** The k-th request issued the invite. */
  ghost predicate IssuedAt(states: seq<Db>, reqs: seq<Timed>, k: nat, token: string, i: InviteRow)
    requires k < |reqs| && |states| == |reqs| + 1
  {
    var r := reqs[k].request;
    && Reissues(r, token) && TeamAdminAuthed(states[k], r.c, r.team)
    && i.team == TeamNamed(states[k], r.team).value && i.username == r.username
       && i.expiresAt == reqs[k].at + 24 * 60 * 60
  }

  lemma InviteIssues(states: seq<Db>, reqs: seq<Timed>, k: nat, token: string)
    requires Run(states, reqs) && k < |reqs| && Reissues(reqs[k].request, token) && token in states[k + 1].invites
    ensures IssuedAt(states, reqs, k, token, states[k + 1].invites[token])
  {
    assert Follows(states, reqs, k);
  }

  /** Every invite stems from a request of an admin of its team. */
  lemma {:induction false} InvitesAreIssued(states: seq<Db>, reqs: seq<Timed>, n: nat, token: string)
    requires Run(states, reqs) && n <= |reqs| && states[0].invites == map[] && token in states[n].invites
    ensures exists k :: 0 <= k < n && IssuedAt(states, reqs, k, token, states[n].invites[token])
    decreases n
  {
    if Reissues(reqs[n - 1].request, token) {
      InviteIssues(states, reqs, n - 1, token);
    } else {
      assert Follows(states, reqs, n - 1);
      InvitesStay(states[n - 1], reqs[n - 1].request, reqs[n - 1].at, token);
      InvitesAreIssued(states, reqs, n - 1, token);
      var k :| 0 <= k < n - 1 && IssuedAt(states, reqs, k, token, states[n - 1].invites[token]);
      assert IssuedAt(states, reqs, k, token, states[n].invites[token]);
    }
  }

  /** The k-th request is an invite by an admin, for the user of the j-th, no more than a day before. */
  ghost predicate InvitedBy(states: seq<Db>, reqs: seq<Timed>, k: nat, j: nat)
    requires k < j < |reqs| && |states| == |reqs| + 1
  {
    var invite, claim := reqs[k].request, reqs[j].request;
    && invite.Inviting? && claim.Claiming? && invite.newToken == claim.token
    && TeamAdminAuthed(states[k], invite.c, invite.team)
    && claim.c.user in states[j].users && invite.username == states[j].users[claim.c.user].username
    && reqs[j].at <= reqs[k].at + 24 * 60 * 60
  }

  /** A claim that goes through was invited by an admin of the team, by name, at most a day before. */
  lemma ClaimsAreInvited(states: seq<Db>, reqs: seq<Timed>, j: nat, token: string)
    requires Run(states, reqs) && states[0].invites == map[] && j < |reqs| && ClaimedAt(states, reqs, j, token)
    ensures exists k :: 0 <= k < j && InvitedBy(states, reqs, k, j)
  {
    InvitesAreIssued(states, reqs, j, token);
    var k :| 0 <= k < j && IssuedAt(states, reqs, k, token, states[j].invites[token]);
    assert InvitedBy(states, reqs, k, j);
  }

  // ---------------------------------------------------------------- an admin for every team

  predicate HasAdmin(db: Db, t: TeamId) {
    exists k :: k in db.members && k.team == t && db.members[k] == MemberRow(ActiveMember, Admin)
  }

  /** The only admin claims an invite to the team. */
  ghost predicate LastAdminClaims(db: Db, r: Request, at: int, t: TeamId) {
    r.Claiming? && Claims(db, r, at, t, r.c.user) && forall u :: IsTeamAdmin(db, t, u) ==> u == r.c.user
  }

  lemma AdminAfter(db: Db, r: Request, at: int, t: TeamId, u: UserId)
    ensures IsTeamAdmin(Handle(db, r, at), t, u) <==> RowAfter(db, r, at, t, u) == Some(MemberRow(ActiveMember, Admin))
  {
    MembershipAfter(db, r, at, t, u);
  }

  lemma AdminIsMember(db: Db, t: TeamId)
    ensures HasAdmin(db, t) <==> exists u :: IsTeamAdmin(db, t, u)
  {
    if HasAdmin(db, t) {
      var k :| k in db.members && k.team == t && db.members[k] == MemberRow(ActiveMember, Admin);
      assert k == MemberKey(t, k.user);
      assert IsTeamAdmin(db, t, k.user);
    }
  }

  lemma LastAdminGone(db: Db, r: Request, at: int, t: TeamId, u: UserId)
    requires LastAdminClaims(db, r, at, t)
    ensures RowAfter(db, r, at, t, u) != Some(MemberRow(ActiveMember, Admin))
  {
    assert RowOf(db, t, u) == Some(MemberRow(ActiveMember, Admin)) ==> IsTeamAdmin(db, t, u);
  }

  /** A request takes the last admin from a team that stays if and only if the only admin claims an
      invite to it, which makes an ordinary member of him. */
  lemma AdminLostIff(db: Db, r: Request, at: int, t: TeamId)
    requires Fresh(db, r) && HasAdmin(db, t) && !Deletes(db, r, t)
    ensures !HasAdmin(Handle(db, r, at), t) <==> LastAdminClaims(db, r, at, t)
  {
    var db' := Handle(db, r, at);
    AdminIsMember(db, t);
    AdminIsMember(db', t);
    forall u
      ensures IsTeamAdmin(db', t, u) <==> RowAfter(db, r, at, t, u) == Some(MemberRow(ActiveMember, Admin))
    {
      AdminAfter(db, r, at, t, u);
    }
    var u :| IsTeamAdmin(db, t, u);
    if LastAdminClaims(db, r, at, t) {
      forall u'
        ensures !IsTeamAdmin(db', t, u')
      {
        LastAdminGone(db, r, at, t, u');
      }
    } else {
      if Claims(db, r, at, t, u) {
        var u' :| IsTeamAdmin(db, t, u') && u' != u;
        assert IsTeamAdmin(db', t, u');
      } else {
        assert IsTeamAdmin(db', t, u);
      }
    }
  }

  ghost predicate EveryTeamHasAnAdmin(db: Db) {
    forall t :: t in db.teams ==> HasAdmin(db, t)
  }

  lemma TeamsAfter(db: Db, r: Request, at: int, t: TeamId)
    requires t in Handle(db, r, at).teams
    ensures t in db.teams || (r.CreatingTeam? && Creates(db, r, at, t, r.c.user))
    ensures !Deletes(db, r, t)
  {
    if !r.Directory?() {
      VaultFrame(db, r, at);
    }
  }

  lemma RequestKeepsAdmins(db: Db, r: Request, at: int)
    requires Fresh(db, r) && EveryTeamHasAnAdmin(db) && forall t :: t in db.teams ==> !LastAdminClaims(db, r, at, t)
    ensures EveryTeamHasAnAdmin(Handle(db, r, at))
  {
    var db' := Handle(db, r, at);
    forall t | t in db'.teams
      ensures HasAdmin(db', t)
    {
      TeamsAfter(db, r, at, t);
      if t in db.teams {
        AdminLostIff(db, r, at, t);
      } else {
        AdminAfter(db, r, at, t, r.c.user);
        AdminIsMember(db', t);
      }
    }
  }

  /** No admin claims an invite to a team of theirs. */
  ghost predicate NoAdminClaims(states: seq<Db>, reqs: seq<Timed>)
    requires |states| == |reqs| + 1
  {
    forall i, t, u :: 0 <= i < |reqs| && Claims(states[i], reqs[i].request, reqs[i].at, t, u) ==>
      !IsTeamAdmin(states[i], t, u)
  }

  lemma StepKeepsAdmins(states: seq<Db>, reqs: seq<Timed>, i: nat)
    requires Run(states, reqs) && NoAdminClaims(states, reqs) && i < |reqs| && EveryTeamHasAnAdmin(states[i])
    ensures EveryTeamHasAnAdmin(states[i + 1])
  {
    assert Follows(states, reqs, i);
    forall t | t in states[i].teams
      ensures !LastAdminClaims(states[i], reqs[i].request, reqs[i].at, t)
    {
      AdminIsMember(states[i], t);
    }
    RequestKeepsAdmins(states[i], reqs[i].request, reqs[i].at);
  }

  /** Over a run in which no admin claims an invite to their own team every team keeps an active admin. */
  lemma {:induction false} TeamsKeepAnAdmin(states: seq<Db>, reqs: seq<Timed>, n: nat)
    requires Run(states, reqs) && NoAdminClaims(states, reqs) && n <= |reqs| && EveryTeamHasAnAdmin(states[0])
    ensures EveryTeamHasAnAdmin(states[n])
    decreases n
  {
    if n > 0 {
      TeamsKeepAnAdmin(states, reqs, n - 1);
      StepKeepsAdmins(states, reqs, n - 1);
    }
  }

  /** The run that locks a team: its only admin invites himself and claims the invite within the day.
      The team stays, and nobody passes as its admin any more. */
  lemma OnlyAdminLocksTheTeam(db: Db, c: Caller, team: string, token: string, at: int, at': int)
    requires ServerInv(db) && TeamAdminAuthed(db, c, team) && token !in db.invites
    requires forall u :: IsTeamAdmin(db, TeamNamed(db, team).value, u) ==> u == c.user
    requires at' <= at + 24 * 60 * 60
    ensures var t := TeamNamed(db, team).value;
      var db1 := Handle(db, Inviting(c, team, db.users[c.user].username, token), at);
      var db2 := Handle(db1, Claiming(c, token), at');
      t in db2.teams && db2.teams[t].name == team && !HasAdmin(db2, t)
  {
    InvitedState(db, c, team, token, at);
    var db1 := Handle(db, Inviting(c, team, db.users[c.user].username, token), at);
    assert forall u :: IsTeamAdmin(db1, TeamNamed(db, team).value, u) == IsTeamAdmin(db, TeamNamed(db, team).value, u);
    LockedByClaim(db1, c, token, at', TeamNamed(db, team).value);
  }

  lemma LockedByClaim(db: Db, c: Caller, token: string, at: int, t: TeamId)
    requires Authed(db, c) && IsTeamAdmin(db, t, c.user) && forall u :: IsTeamAdmin(db, t, u) ==> u == c.user
    requires token in db.invites && db.invites[token].usedBy.None? && at <= db.invites[token].expiresAt
    requires db.invites[token].team == t && db.invites[token].username == db.users[c.user].username
    ensures var db' := Handle(db, Claiming(c, token), at);
      db'.teams == db.teams && !HasAdmin(db', t)
  {
    AdminIsMember(db, t);
    AdminLostIff(db, Claiming(c, token), at, t);
    ClaimKeepsTeams(db, c, token, at);
  }

  lemma ClaimKeepsTeams(db: Db, c: Caller, token: string, at: int)
    ensures Handle(db, Claiming(c, token), at).teams == db.teams
  {
  }

  lemma InvitedState(db: Db, c: Caller, team: string, token: string, at: int)
    requires TeamAdminAuthed(db, c, team) && db.users[c.user].username != ""
    ensures var db1 := Handle(db, Inviting(c, team, db.users[c.user].username, token), at);
      && db1.users == db.users && db1.devices == db.devices && db1.teams == db.teams && db1.members == db.members
      && token in db1.invites
      && db1.invites[token] ==
          InviteRow(TeamNamed(db, team).value, db.users[c.user].username, c.user, at + 24 * 60 * 60, None)
  {
  }
}
