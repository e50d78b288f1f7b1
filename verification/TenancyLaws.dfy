/**
 Every organization call in terms of rows alone: exactly who may make it and when, and what is
 in each table afterwards.
 */
module TenancyLaws {
  import opened Wrappers
  import opened Tenancy
  import opened TenancyPlans
  import opened RoleNames
  import Strings
  import TenancyInvariants

  // ---------------------------------------------------------------- who may

  predicate NameGrants(c: Config, s: Tables, o: string, name: string, resource: string, action: string) {
    || (name in c.statics && Right(resource, action) in c.statics[name])
    || exists id | id in s.roles :: s.roles[id].org == o && s.roles[id].name == name && Right(resource, action) in s.roles[id].rights
  }

  predicate RowGrants(c: Config, s: Tables, m: Member, o: string, u: string, resource: string, action: string) {
    m.org == o && m.user == u && exists name | name in Strings.Split(m.role, ',') :: NameGrants(c, s, o, name, resource, action)
  }

  /** Some member row of the user in the organization names a role with the right. */
  predicate May(c: Config, s: Tables, o: string, u: string, resource: string, action: string) {
    exists id | id in s.members :: RowGrants(c, s, s.members[id], o, u, resource, action)
  }

  /** Some member row of the user in the organization names the creator role. */
  predicate Owns(c: Config, s: Tables, o: string, u: string) {
    exists id | id in s.members :: s.members[id].org == o && s.members[id].user == u && c.creator in Strings.Split(s.members[id].role, ',')
  }

  lemma GrantsIs(c: Config, s: Tables, m: Member, o: string, u: string, right: Right)
    ensures RowGrants(c, s, m, o, u, right.resource, right.action) <==> Belongs(m, o, u) && Permits(c, s.roles, o, m.role, right)
  {
    forall name
      ensures NameGrants(c, s, o, name, right.resource, right.action)
         <==> StaticPermits(c, name, right) || DynamicPermits(s.roles, o, name, right)
    {
      if DynamicPermits(s.roles, o, name, right) {
        var id :| id in s.roles && IsRole(s.roles[id], o, name) && right in s.roles[id].rights;
        assert s.roles[id].org == o && s.roles[id].name == name;
      }
    }
    if Permits(c, s.roles, o, m.role, right) && Belongs(m, o, u) {
      var name :| name in Names(m.role) && (StaticPermits(c, name, right) || DynamicPermits(s.roles, o, name, right));
      assert NameGrants(c, s, o, name, right.resource, right.action);
    }
  }

  /** authorize succeeds for exactly these users. */
  lemma AuthorizedIff(c: Config, s: Tables, o: string, u: string, right: Right)
    requires OneMembership(s.members)
    ensures Authorized(c, s, o, u, right).Success? <==> May(c, s, o, u, right.resource, right.action)
    ensures Authorized(c, s, o, u, right).Failure? ==> Authorized(c, s, o, u, right) == Failure(Forbidden)
  {
    var row := MemberRow(s, o, u);
    forall id | id in s.members
      ensures RowGrants(c, s, s.members[id], o, u, right.resource, right.action)
         <==> Belongs(s.members[id], o, u) && Permits(c, s.roles, o, s.members[id].role, right)
    {
      GrantsIs(c, s, s.members[id], o, u, right);
    }
    if May(c, s, o, u, right.resource, right.action) {
      var id :| id in s.members && RowGrants(c, s, s.members[id], o, u, right.resource, right.action);
      assert Belongs(s.members[id], s.members[row.value].org, s.members[row.value].user);
    }
  }

  /** The actor that authorize finds is the user's one row. */
  lemma ActorIs(c: Config, s: Tables, o: string, u: string, right: Right, other: Right)
    requires OneMembership(s.members) && Authorized(c, s, o, u, right).Success?
    ensures var actor := Authorized(c, s, o, u, right).value;
            && (Permits(c, s.roles, o, actor.role, other) <==> May(c, s, o, u, other.resource, other.action))
            && (Includes(actor.role, c.creator) <==> Owns(c, s, o, u))
  {
    AuthorizedIff(c, s, o, u, other);
    var row := MemberRow(s, o, u).value;
    if Owns(c, s, o, u) {
      var id :| id in s.members && s.members[id].org == o && s.members[id].user == u && c.creator in Strings.Split(s.members[id].role, ',');
      assert Belongs(s.members[id], s.members[row].org, s.members[row].user);
    }
  }

  lemma GrantableIff(c: Config, s: Tables, o: string, u: string, right: Right, rights: set<Right>)
    requires OneMembership(s.members) && Authorized(c, s, o, u, right).Success?
    ensures Grantable(c, s.roles, o, Authorized(c, s, o, u, right).value.role, rights)
       <==> forall other | other in rights :: May(c, s, o, u, other.resource, other.action)
  {
    forall other | other in rights
      ensures Permits(c, s.roles, o, Authorized(c, s, o, u, right).value.role, other) <==> May(c, s, o, u, other.resource, other.action)
    {
      ActorIs(c, s, o, u, right, other);
    }
  }

  lemma HomeOf(c: Config, s: Tables, o: string, u: string, right: Right)
    requires Inv(c, s) && Authorized(c, s, o, u, right).Success?
    ensures o in s.organizations && o != ""
  {
    var row := MemberRow(s, o, u);
    assert s.members[row.value].org in s.organizations;
  }

  // ---------------------------------------------------------------- how many

  function CountMembers(s: Tables, o: string): nat { |set i | i in s.members && s.members[i].org == o| }

  function CountTeams(s: Tables, o: string): nat { |set i | i in s.teams && s.teams[i].org == o| }

  function CountRoles(s: Tables, o: string): nat { |set i | i in s.roles && s.roles[i].org == o| }

  function CountPending(s: Tables, o: string): nat {
    |set i | i in s.invitations && s.invitations[i].org == o && s.invitations[i].status == Pending|
  }

  function CountMemberships(s: Tables, u: string): nat { |set i | i in s.members && s.members[i].user == u| }

  lemma Counted(s: Tables, o: string)
    ensures |MembersOf(s.members, o)| == CountMembers(s, o) && |TeamsOf(s.teams, o)| == CountTeams(s, o)
    ensures |RolesOf(s.roles, o)| == CountRoles(s, o) && |PendingOf(s.invitations, o)| == CountPending(s, o)
  {
    assert MembersOf(s.members, o) == set i | i in s.members && s.members[i].org == o;
    assert TeamsOf(s.teams, o) == set i | i in s.teams && s.teams[i].org == o;
    assert RolesOf(s.roles, o) == set i | i in s.roles && s.roles[i].org == o;
    assert PendingOf(s.invitations, o) == set i | i in s.invitations && s.invitations[i].org == o && s.invitations[i].status == Pending;
  }

  // ---------------------------------------------------------------- tables afterwards

  /** The last owner is the one without another. */
  lemma LastOwnerIff(c: Config, s: Tables, id: string)
    requires id in s.members
    ensures LastOwner(c, s, s.members[id]) <==> c.creator in Strings.Split(s.members[id].role, ',') && !OtherOwner(c, s.members, id)
  {
    if !LastOwner(c, s, s.members[id]) { NotLastOwner(c, s, id); }
    if Includes(s.members[id].role, c.creator) && OtherOwner(c, s.members, id) {
      var j :| j in s.members && j != id && s.members[j].org == s.members[id].org && Includes(s.members[j].role, c.creator);
      TenancyInvariants.SubsetSize({id, j}, OwnersOf(c, s.members, s.members[id].org));
    }
  }

  /** The member leaves the organization: row, seats in its teams, and its active sessions. */
  ghost predicate Left(s: Tables, n: Tables, id: string)
    requires id in s.members
  {
    var m := s.members[id];
    && n.members == s.members - {id}
    && n.teamMembers == (map i | i in s.teamMembers
                           && !(s.teamMembers[i].user == m.user && s.teamMembers[i].team in s.teams && s.teams[s.teamMembers[i].team].org == m.org)
                           :: s.teamMembers[i])
    && n.sessions == (map i | i in s.sessions ::
                        if s.sessions[i].user == m.user && s.sessions[i].org == Some(m.org)
                        then s.sessions[i].(org := None, team := None) else s.sessions[i])
    && n == s.(members := n.members, teamMembers := n.teamMembers, sessions := n.sessions)
  }

  lemma PartedIsLeft(c: Config, s: Tables, id: string)
    requires Keyed(s) && id in s.members
    ensures Left(s, Moved(s, Part(id)), id)
  {
    assert s.members[id].id == id;
  }

  /** Everything of the organization is gone, and nothing else. */
  ghost predicate Emptied(s: Tables, n: Tables, o: string) {
    && n.organizations == s.organizations - {o}
    && n.members == (map i | i in s.members && s.members[i].org != o :: s.members[i])
    && n.teams == (map i | i in s.teams && s.teams[i].org != o :: s.teams[i])
    && n.invitations == (map i | i in s.invitations && s.invitations[i].org != o :: s.invitations[i])
    && n.roles == (map i | i in s.roles && s.roles[i].org != o :: s.roles[i])
    && n.teamMembers == (map i | i in s.teamMembers && !InTeamOf(s, s.teamMembers[i], o) :: s.teamMembers[i])
    && n.sessions == (map i | i in s.sessions ::
                        if s.sessions[i].org == Some(o) then s.sessions[i].(org := None, team := None) else s.sessions[i])
  }

  predicate InTeamOf(s: Tables, x: TeamMember, o: string) {
    x.team in s.teams && s.teams[x.team].org == o
  }

  lemma DissolvedIsEmptied(s: Tables, o: string)
    ensures Emptied(s, Moved(s, Dissolve(o)), o)
  {
  }

  /** The team is gone with its seats, and no session has it active. */
  ghost predicate TeamGone(s: Tables, n: Tables, t: string) {
    && n == s.(teams := n.teams, teamMembers := n.teamMembers, sessions := n.sessions)
    && n.teams == s.teams - {t}
    && n.teamMembers == (map i | i in s.teamMembers && s.teamMembers[i].team != t :: s.teamMembers[i])
    && n.sessions == (map i | i in s.sessions :: if s.sessions[i].team == Some(t) then s.sessions[i].(team := None) else s.sessions[i])
  }

  lemma RemovedIsGone(s: Tables, t: string)
    ensures TeamGone(s, Moved(s, RemoveTeam(t)), t)
  {
  }

  /** The user has left the team. */
  ghost predicate Unseated(s: Tables, n: Tables, t: string, user: string) {
    && n == s.(teamMembers := n.teamMembers, sessions := n.sessions)
    && n.teamMembers == (map i | i in s.teamMembers && !(s.teamMembers[i].team == t && s.teamMembers[i].user == user) :: s.teamMembers[i])
    && n.sessions == (map i | i in s.sessions ::
                        if s.sessions[i].user == user && s.sessions[i].team == Some(t) then s.sessions[i].(team := None) else s.sessions[i])
  }

  lemma UnseatIsUnseated(s: Tables, t: string, user: string)
    ensures Unseated(s, Moved(s, Unseat(t, user)), t, user)
  {
  }

  /** A live session the request was resolved to, if there is one, and a new id. */
  predicate CanIssue(s: Tables, id: string, current: string) {
    id != "" && id !in s.sessions && (current == "" || (current in s.sessions && s.sessions[current].live))
  }

  /** The new session replaces the current one. */
  ghost predicate Issued(s: Tables, n: Tables, current: string, x: Session) {
    && n == s.(sessions := n.sessions)
    && n.sessions.Keys == s.sessions.Keys + {x.id} && n.sessions[x.id] == x
    && forall i | i in s.sessions :: n.sessions[i] == if i == current then s.sessions[i].(live := false) else s.sessions[i]
  }

  lemma IssueIff(s: Tables, x: Session, current: string)
    ensures Issue(s, x, current).Success? <==> CanIssue(s, x.id, current)
    ensures Issue(s, x, current).Success? ==> Issued(s, Moved(s, Issue(s, x, current).value), current, x)
  {
  }

  // ---------------------------------------------------------------- organizations

  /** Deleting an organization takes exactly the right "organization:delete" in it, and takes
      away everything of it and nothing else. */
  lemma DeleteOrganizationIff(c: Config, s: Tables, u: string, o: string)
    requires Inv(c, s)
    ensures var plan, n := PlanOf(c, s, DeleteOrganization(u, o)), Next(c, s, DeleteOrganization(u, o));
            && (plan.Success? <==> May(c, s, o, u, "organization", "delete"))
            && (plan.Failure? ==> plan == Failure(Forbidden) && n == s)
            && (plan.Success? ==> Emptied(s, n, o))
  {
    AuthorizedIff(c, s, o, u, OrganizationDelete);
    DissolvedIsEmptied(s, o);
  }

  lemma CreateOrganizationIff(c: Config, s: Tables, u: string, id: string, name: string, slug: string, memberId: string)
    requires ValidConfig(c) && Inv(c, s)
    ensures var call := CreateOrganization(u, id, name, slug, memberId);
            var plan, n := PlanOf(c, s, call), Next(c, s, call);
            && (plan.Success? <==>
                  && CountMemberships(s, u) < c.maxOrganizations
                  && id != "" && id !in s.organizations && name != "" && slug != ""
                  && (forall i | i in s.organizations :: s.organizations[i].slug != slug)
                  && memberId != "" && memberId !in s.members && u != "")
            && (plan.Success? ==> n == s.(organizations := s.organizations[id := Organization(id, name, slug)],
                                          members := s.members[memberId := Member(memberId, id, u, c.creator)]))
  {
    assert MembershipsOf(s.members, u) == set i | i in s.members && s.members[i].user == u;
    if IsMember(s.members, id, u) {
      var i :| i in s.members && Belongs(s.members[i], id, u);
      assert s.members[i].org in s.organizations;
    }
  }

  /** Choosing an active organization takes membership; none at all may always be chosen. */
  lemma SetActiveOrganizationIff(c: Config, s: Tables, u: string, o: string, id: string, current: string)
    requires Inv(c, s)
    ensures var call := SetActiveOrganization(u, o, id, current);
            var plan, n := PlanOf(c, s, call), Next(c, s, call);
            && (plan.Success? <==> CanIssue(s, id, current) && (o == "" || IsMember(s.members, o, u)))
            && (plan.Success? ==> Issued(s, n, current, Session(id, u, true, if o == "" then None else Some(o), None)))
  {
    if IsMember(s.members, o, u) {
      var i :| i in s.members && Belongs(s.members[i], o, u);
      assert s.members[i].org in s.organizations;
    }
    IssueIff(s, Session(id, u, true, if o == "" then None else Some(o), None), current);
  }

  /** Choosing an active team takes a seat in it. */
  lemma SetActiveTeamIff(c: Config, s: Tables, u: string, t: string, id: string, current: string)
    requires Inv(c, s)
    ensures var call := SetActiveTeam(u, t, id, current);
            var plan, n := PlanOf(c, s, call), Next(c, s, call);
            && (plan.Success? <==> CanIssue(s, id, current) && (t == "" || HasSeat(s.teamMembers, t, u)))
            && (plan.Success? ==> t == "" || t in s.teams)
            && (plan.Success? ==>
                  Issued(s, n, current, if t == "" then Session(id, u, true, None, None) else Session(id, u, true, Some(s.teams[t].org), Some(t))))
  {
    if HasSeat(s.teamMembers, t, u) {
      var i :| i in s.teamMembers && Sits(s.teamMembers[i], t, u);
      assert SeatOk(s.members, s.teams, s.teamMembers[i]);
    }
    if t == "" || t in s.teams {
      IssueIff(s, if t == "" then Session(id, u, true, None, None) else Session(id, u, true, Some(s.teams[t].org), Some(t)), current);
    }
  }

  lemma IssueSessionIff(c: Config, s: Tables, u: string, id: string, current: string)
    ensures var plan, n := PlanOf(c, s, Call.IssueSession(u, id, current)), Next(c, s, Call.IssueSession(u, id, current));
            && (plan.Success? <==> CanIssue(s, id, current))
            && (plan.Success? ==> Issued(s, n, current, Session(id, u, true, None, None)))
    ensures var plan, n := PlanOf(c, s, SignIn(id, u)), Next(c, s, SignIn(id, u));
            && (plan.Success? <==> id != "" && id !in s.sessions)
            && (plan.Success? ==> Issued(s, n, "", Session(id, u, true, None, None)))
  {
    IssueIff(s, Session(id, u, true, None, None), current);
    IssueIff(s, Session(id, u, true, None, None), "");
  }

  /** The session has this organization and team, and nothing else has changed. */
  ghost predicate Attached(s: Tables, n: Tables, id: string, o: string, t: string)
    requires id in s.sessions
  {
    n == s.(sessions := s.sessions[id := s.sessions[id].(org := if o == "" then None else Some(o), team := if t == "" then None else Some(t))])
  }

  lemma AttachPlanIff(s: Tables, u: string, o: string, t: string, id: string)
    ensures var plan := PlanAttach(s, u, o, t, id);
            && (plan.Success? <==>
                  && id in s.sessions && s.sessions[id].user == u && s.sessions[id].live
                  && (o == "" || IsMember(s.members, o, u))
                  && (t == "" || (t in s.teams && s.teams[t].org == o && HasSeat(s.teamMembers, t, u))))
            && (plan.Success? ==> Attached(s, Moved(s, plan.value), id, o, t))
  {
  }

  /** The issued session gets the organization and team if its user still belongs and sits there. */
  lemma AttachSessionIff(c: Config, s: Tables, call: Call)
    requires call.AttachSession?
    ensures var plan, n := PlanOf(c, s, call), Next(c, s, call);
            && (plan.Success? <==>
                  && call.id in s.sessions && s.sessions[call.id].user == call.u && s.sessions[call.id].live
                  && (call.o == "" || IsMember(s.members, call.o, call.u))
                  && (call.t == "" || (call.t in s.teams && s.teams[call.t].org == call.o && HasSeat(s.teamMembers, call.t, call.u))))
            && (plan.Success? ==> Attached(s, n, call.id, call.o, call.t))
  {
    AttachPlanIff(s, call.u, call.o, call.t, call.id);
  }

  /** A deleted user keeps no session. */
  lemma DeleteUserIff(c: Config, s: Tables, user: string)
    ensures var plan, n := PlanOf(c, s, Call.DeleteUser(user)), Next(c, s, Call.DeleteUser(user));
            plan.Success? && n == s.(sessions := map i | i in s.sessions && s.sessions[i].user != user :: s.sessions[i])
  {
  }

  // ---------------------------------------------------------------- teams

  lemma CreateTeamIff(c: Config, s: Tables, u: string, o: string, id: string, name: string)
    requires Inv(c, s)
    ensures var plan, n := PlanOf(c, s, CreateTeam(u, o, id, name)), Next(c, s, CreateTeam(u, o, id, name));
            && (plan.Success? <==>
                  && May(c, s, o, u, "team", "create")
                  && CountTeams(s, o) < c.maxTeams
                  && id != "" && id !in s.teams && name != ""
                  && forall i | i in s.teams && s.teams[i].org == o :: s.teams[i].name != name)
            && (!May(c, s, o, u, "team", "create") ==> plan == Failure(Forbidden))
            && (plan.Success? ==> n == s.(teams := s.teams[id := Team(id, o, name)]))
  {
    AuthorizedIff(c, s, o, u, TeamCreate);
    if Authorized(c, s, o, u, TeamCreate).Success? { HomeOf(c, s, o, u, TeamCreate); }
    Counted(s, o);
  }

  /** Removing a team takes the right in the team's own organization; its seats go with it and no
      session keeps it active. */
  lemma RemoveTeamIff(c: Config, s: Tables, u: string, t: string)
    requires Inv(c, s)
    ensures var plan, n := PlanOf(c, s, RemoveTeamById(u, t)), Next(c, s, RemoveTeamById(u, t));
            && (plan.Success? <==> t in s.teams && May(c, s, s.teams[t].org, u, "team", "delete"))
            && (t in s.teams && plan.Failure? ==> plan == Failure(Forbidden))
            && (plan.Success? ==> TeamGone(s, n, t))
  {
    RemovedIsGone(s, t);
    if t in s.teams { AuthorizedIff(c, s, s.teams[t].org, u, TeamDelete); }
  }

  /** Only a member of the team's organization is seated, and only once. */
  lemma AddTeamMemberIff(c: Config, s: Tables, u: string, t: string, user: string, id: string)
    requires Inv(c, s)
    ensures var plan, n := PlanOf(c, s, AddTeamMember(u, t, user, id)), Next(c, s, AddTeamMember(u, t, user, id));
            && (plan.Success? <==>
                  && t in s.teams && May(c, s, s.teams[t].org, u, "team", "update")
                  && IsMember(s.members, s.teams[t].org, user) && !HasSeat(s.teamMembers, t, user)
                  && id != "" && id !in s.teamMembers && t != "" && user != "")
            && (t in s.teams && !May(c, s, s.teams[t].org, u, "team", "update") ==> plan == Failure(Forbidden))
            && (plan.Success? ==> n == s.(teamMembers := s.teamMembers[id := TeamMember(id, t, user)]))
  {
    if t in s.teams { AuthorizedIff(c, s, s.teams[t].org, u, TeamUpdate); }
  }

  lemma RemoveTeamMemberIff(c: Config, s: Tables, u: string, t: string, user: string)
    requires Inv(c, s)
    ensures var plan, n := PlanOf(c, s, RemoveTeamMember(u, t, user)), Next(c, s, RemoveTeamMember(u, t, user));
            && (plan.Success? <==> t in s.teams && May(c, s, s.teams[t].org, u, "team", "update"))
            && (t in s.teams && plan.Failure? ==> plan == Failure(Forbidden))
            && (plan.Success? ==> Unseated(s, n, t, user))
  {
    UnseatIsUnseated(s, t, user);
    if t in s.teams { AuthorizedIff(c, s, s.teams[t].org, u, TeamUpdate); }
  }

  // ---------------------------------------------------------------- invitations

  predicate Renewable(i: Invitation, now: int, resend: bool) {
    i.status != Pending || i.expiresAt <= now || resend
  }

  /** The invitation of an email may be put: there is none yet and the id is new, or the one there
      may be renewed. */
  predicate MayPut(s: Tables, o: string, email: string, id: string, now: int, resend: bool) {
    if exists i | i in s.invitations :: s.invitations[i].org == o && s.invitations[i].email == email
    then forall i | i in s.invitations && s.invitations[i].org == o && s.invitations[i].email == email :: Renewable(s.invitations[i], now, resend)
    else id != "" && id !in s.invitations
  }

  /** The row for the email, the one there or a new one, is `row` up to its id. */
  ghost predicate Invited(s: Tables, n: Tables, id: string, row: Invitation) {
    exists k | k in n.invitations ::
      && n.invitations == s.invitations[k := row.(id := k)] && n == s.(invitations := n.invitations)
      && (if k in s.invitations then s.invitations[k].org == row.org && s.invitations[k].email == row.email else k == id)
  }

  lemma PutIff(c: Config, s: Tables, i: Invitation, now: int, resend: bool)
    requires Inv(c, s) && i.email != ""
    ensures PlanInvitation(s, i, now, resend).Success? <==> MayPut(s, i.org, i.email, i.id, now, resend)
    ensures PlanInvitation(s, i, now, resend).Success? ==> Invited(s, Moved(s, PlanInvitation(s, i, now, resend).value), i.id, i)
  {
    var row := InvitationRow(s, i.org, i.email);
    if row.Some? {
      assert forall k | k in s.invitations && s.invitations[k].org == i.org && s.invitations[k].email == i.email :: k == row.value;
    } else {
      assert forall k | k in s.invitations :: !Invites(s.invitations[k], i.org, i.email);
    }
    if PlanInvitation(s, i, now, resend).Success? {
      var n, k := Moved(s, PlanInvitation(s, i, now, resend).value), if row.Some? then row.value else i.id;
      assert n.invitations == s.invitations[k := i.(id := k)];
    }
  }

  /** Every name of the role is built in or a role of the organization. */
  predicate AllKnown(c: Config, s: Tables, o: string, role: string) {
    forall name | name in Strings.Split(role, ',') :: name in c.statics || HasRole(s, o, name)
  }

  predicate HasRole(s: Tables, o: string, name: string) {
    exists i | i in s.roles :: s.roles[i].org == o && s.roles[i].name == name
  }

  lemma AllKnownIff(c: Config, s: Tables, o: string, role: string)
    ensures AllDefined(c, s.roles, o, role) <==> AllKnown(c, s, o, role)
  {
    forall name
      ensures Defined(c, s.roles, o, name) <==> name in c.statics || HasRole(s, o, name)
    {
      if HasRole(s, o, name) {
        var i :| i in s.roles && s.roles[i].org == o && s.roles[i].name == name;
        assert IsRole(s.roles[i], o, name);
      }
    }
  }

  lemma PutRow(c: Config, s: Tables, i: Invitation, now: int, resend: bool)
    requires Inv(c, s)
    ensures PlanInvitation(s, i, now, resend).Success? <==> i.email != "" && MayPut(s, i.org, i.email, i.id, now, resend)
    ensures PlanInvitation(s, i, now, resend).Success? ==> Invited(s, Moved(s, PlanInvitation(s, i, now, resend).value), i.id, i)
  {
    if i.email != "" { PutIff(c, s, i, now, resend); }
  }

  /** The role asked for is made of defined roles, and only owners hand out ownership. */
  predicate MayHandOut(c: Config, s: Tables, o: string, u: string, role: string) {
    && AllKnown(c, s, o, role)
    && (c.creator in Strings.Split(role, ',') ==> Owns(c, s, o, u))
  }

  lemma HandOutIff(c: Config, s: Tables, o: string, u: string, right: Right, role: string)
    requires OneMembership(s.members) && Authorized(c, s, o, u, right).Success?
    ensures RoleRefusal(c, s, o, Authorized(c, s, o, u, right).value, role).None? <==> MayHandOut(c, s, o, u, role)
  {
    ActorIs(c, s, o, u, right, right);
    AllKnownIff(c, s, o, role);
  }

  predicate MayInvite(c: Config, s: Tables, u: string, o: string, names: string, team: string, holder: Option<string>) {
    && MayHandOut(c, s, o, u, names)
    && (team == "" || (team in s.teams && s.teams[team].org == o))
    && CountMembers(s, o) < c.maxMembers && CountPending(s, o) < c.maxInvitations
    && (holder.Some? ==> !IsMember(s.members, o, holder.value))
  }

  lemma InvitePlanIff(c: Config, s: Tables, u: string, i: Invitation, role: string, now: int, resend: bool, holder: Option<string>)
    requires Inv(c, s)
    ensures var plan, names := PlanInvite(c, s, u, i, role, now, resend, holder), Canonical([role]);
            && (!May(c, s, i.org, u, "invitation", "create") ==> plan == Failure(Forbidden))
            && (plan.Success? <==>
                  && May(c, s, i.org, u, "invitation", "create") && names.Some? && MayInvite(c, s, u, i.org, names.value, i.team, holder)
                  && PlanInvitation(s, i.(role := names.value), now, resend).Success?)
            && (plan.Success? ==> plan == PlanInvitation(s, i.(role := names.value), now, resend))
  {
    AuthorizedIff(c, s, i.org, u, InvitationCreate);
    if Authorized(c, s, i.org, u, InvitationCreate).Success? {
      HomeOf(c, s, i.org, u, InvitationCreate);
      if Canonical([role]).Some? { InviteChecksIff(c, s, u, i, Canonical([role]).value, holder); }
    }
  }

  lemma InviteChecksIff(c: Config, s: Tables, u: string, i: Invitation, names: string, holder: Option<string>)
    requires Inv(c, s) && Authorized(c, s, i.org, u, InvitationCreate).Success?
    ensures MayInvite(c, s, u, i.org, names, i.team, holder) <==>
              && RoleRefusal(c, s, i.org, Authorized(c, s, i.org, u, InvitationCreate).value, names).None?
              && (i.team == "" || TeamIn(s, i.org, i.team))
              && |MembersOf(s.members, i.org)| < c.maxMembers && |PendingOf(s.invitations, i.org)| < c.maxInvitations
              && !(holder.Some? && IsMember(s.members, i.org, holder.value))
  {
    HandOutIff(c, s, i.org, u, InvitationCreate, names);
    Counted(s, i.org);
  }

  /** Inviting takes the right, roles that exist and may be handed out, room for the member and
      the invitation, and an email that is not a member's; a pending invitation is renewed when
      it has expired or is sent again. The row is `i` with the canonical role. */
  ghost predicate InviteVerdict(c: Config, s: Tables, u: string, i: Invitation, role: string, now: int, resend: bool, holder: Option<string>, plan: Plan, n: Tables) {
    var names := Canonical([role]);
    && (plan.Success? <==>
          && May(c, s, i.org, u, "invitation", "create") && names.Some? && MayInvite(c, s, u, i.org, names.value, i.team, holder)
          && i.email != "" && MayPut(s, i.org, i.email, i.id, now, resend))
    && (!May(c, s, i.org, u, "invitation", "create") ==> plan == Failure(Forbidden))
    && (if plan.Success? then Invited(s, n, i.id, i.(role := names.value)) else n == s)
  }

  lemma InviteDecides(c: Config, s: Tables, u: string, i: Invitation, role: string, now: int, resend: bool, holder: Option<string>)
    requires Inv(c, s)
    ensures var plan := PlanInvite(c, s, u, i, role, now, resend, holder);
            InviteVerdict(c, s, u, i, role, now, resend, holder, plan, if plan.Success? then Moved(s, plan.value) else s)
  {
    InvitePlanIff(c, s, u, i, role, now, resend, holder);
    if Canonical([role]).Some? { PutRow(c, s, i.(role := Canonical([role]).value), now, resend); }
  }

  lemma PlanOfInvite(c: Config, s: Tables, call: Call)
    requires call.InviteMember?
    ensures PlanOf(c, s, call) == PlanInvite(c, s, call.u, NewInvitation(call.id, call.o, call.email, call.team, call.now, call.ttl), call.role, call.now, call.resend, call.holder)
  {
  }

  lemma InviteMemberIff(c: Config, s: Tables, call: Call)
    requires Inv(c, s) && call.InviteMember?
    ensures var i := Invitation(call.id, call.o, Strings.ToLower(call.email), "", call.team, Pending, call.now + call.ttl);
            InviteVerdict(c, s, call.u, i, call.role, call.now, call.resend, call.holder, PlanOf(c, s, call), Next(c, s, call))
  {
    PlanOfInvite(c, s, call);
    InviteDecides(c, s, call.u, NewInvitation(call.id, call.o, call.email, call.team, call.now, call.ttl), call.role, call.now, call.resend, call.holder);
  }

  /** The invitation is for the email, pending, not expired, and there is room for its member and
      seat. */
  predicate MayAccept(c: Config, s: Tables, u: string, email: string, i: Invitation, memberId: string, seatId: string, now: int) {
    && i.status == Pending && i.email == Strings.ToLower(email) && now < i.expiresAt
    && CountMembers(s, i.org) < c.maxMembers
    && memberId != "" && memberId !in s.members && !IsMember(s.members, i.org, u) && u != "" && i.role != ""
    && (i.team == "" || (i.team in s.teams && s.teams[i.team].org == i.org && seatId != "" && seatId !in s.teamMembers))
  }

  /** Only the invited email, verified, accepts; the invitation is pending and has not expired. */
  lemma AcceptInvitationIff(c: Config, s: Tables, call: Call)
    requires Inv(c, s) && call.AcceptInvitation?
    ensures var plan, n := PlanOf(c, s, call), Next(c, s, call);
            && (plan.Success? <==>
                  && call.verified && call.invitation in s.invitations
                  && MayAccept(c, s, call.u, call.email, s.invitations[call.invitation], call.memberId, call.seatId, call.now))
            && (!call.verified ==> plan == Failure(Forbidden))
            && (plan.Success? ==> Joined(s, n, call.u, call.invitation, call.memberId, call.seatId))
  {
    if call.invitation in s.invitations {
      AcceptPlanIff(c, s, call.u, call.email, call.verified, call.invitation, call.memberId, call.seatId, call.now);
    }
  }

  /** The invitation is accepted, and the user has the invited role and the seat. */
  ghost predicate Joined(s: Tables, n: Tables, u: string, invitation: string, memberId: string, seatId: string)
    requires invitation in s.invitations
  {
    var i := s.invitations[invitation];
    n == s.(invitations := s.invitations[invitation := i.(status := Accepted)],
            members := s.members[memberId := Member(memberId, i.org, u, i.role)],
            teamMembers := if i.team == "" then s.teamMembers else s.teamMembers[seatId := TeamMember(seatId, i.team, u)])
  }

  lemma AcceptPlanIff(c: Config, s: Tables, u: string, email: string, verified: bool, id: string, memberId: string, seatId: string, now: int)
    requires Inv(c, s) && id in s.invitations
    ensures var plan := PlanAccept(c, s, u, email, verified, id, memberId, seatId, now);
            && (plan.Success? <==> verified && MayAccept(c, s, u, email, s.invitations[id], memberId, seatId, now))
            && (plan.Success? ==> Joined(s, Moved(s, plan.value), u, id, memberId, seatId))
  {
    var i := s.invitations[id];
    assert i.org in s.organizations;
    Counted(s, i.org);
    if i.team in s.teams && s.teams[i.team].org == i.org && HasSeat(s.teamMembers, i.team, u) {
      var k :| k in s.teamMembers && Sits(s.teamMembers[k], i.team, u);
      assert SeatOk(s.members, s.teams, s.teamMembers[k]);
    }
  }

  lemma RejectInvitationIff(c: Config, s: Tables, u: string, email: string, verified: bool, invitation: string)
    ensures var call := RejectInvitation(u, email, verified, invitation);
            var plan, n := PlanOf(c, s, call), Next(c, s, call);
            && (plan.Success? <==>
                  && verified && invitation in s.invitations && s.invitations[invitation].status == Pending
                  && Strings.ToLower(s.invitations[invitation].email) == Strings.ToLower(email))
            && (plan.Success? ==> n == s.(invitations := s.invitations[invitation := s.invitations[invitation].(status := Rejected)]))
  {
  }

  lemma CancelInvitationIff(c: Config, s: Tables, u: string, invitation: string)
    requires Inv(c, s)
    ensures var plan, n := PlanOf(c, s, CancelInvitation(u, invitation)), Next(c, s, CancelInvitation(u, invitation));
            && (plan.Success? <==>
                  && invitation in s.invitations && s.invitations[invitation].status == Pending
                  && May(c, s, s.invitations[invitation].org, u, "invitation", "cancel"))
            && (plan.Success? ==> n == s.(invitations := s.invitations[invitation := s.invitations[invitation].(status := Canceled)]))
  {
    if invitation in s.invitations { AuthorizedIff(c, s, s.invitations[invitation].org, u, InvitationCancel); }
  }

  // ---------------------------------------------------------------- roles

  /** Known rights, all of which the user holds. */
  predicate MayGrant(c: Config, s: Tables, o: string, u: string, rights: set<Right>) {
    && rights != {} && rights <= c.statements
    && forall right | right in rights :: May(c, s, o, u, right.resource, right.action)
  }

  lemma NamedRole(s: Tables, o: string, name: string)
    ensures RoleRow(s, o, name).Some? <==> HasRole(s, o, name)
  {
    if HasRole(s, o, name) {
      var i :| i in s.roles && s.roles[i].org == o && s.roles[i].name == name;
      assert IsRole(s.roles[i], o, name);
    }
  }

  predicate MayCreateRole(c: Config, s: Tables, u: string, r: Role) {
    && MayGrant(c, s, r.org, u, r.rights)
    && ValidName(r.name) && r.name !in c.statics && !HasRole(s, r.org, r.name)
    && CountRoles(s, r.org) < c.maxRoles
    && r.id != "" && r.id !in s.roles
  }

  /** A new role takes the right to create roles and every right it grants. */
  ghost predicate CreateRoleVerdict(c: Config, s: Tables, u: string, r: Role, plan: Plan, n: Tables) {
    && (plan.Success? <==> May(c, s, r.org, u, "ac", "create") && MayCreateRole(c, s, u, r))
    && (!May(c, s, r.org, u, "ac", "create") ==> plan == Failure(Forbidden))
    && n == (if plan.Success? then s.(roles := s.roles[r.id := r]) else s)
  }

  lemma CreateRoleDecides(c: Config, s: Tables, u: string, r: Role)
    requires Inv(c, s)
    ensures var plan := PlanCreateRole(c, s, u, r);
            CreateRoleVerdict(c, s, u, r, plan, if plan.Success? then Moved(s, plan.value) else s)
  {
    AuthorizedIff(c, s, r.org, u, RoleCreate);
    if Authorized(c, s, r.org, u, RoleCreate).Success? { GrantableIff(c, s, r.org, u, RoleCreate, r.rights); }
    NamedRole(s, r.org, r.name);
    Counted(s, r.org);
  }

  lemma CreateRoleIff(c: Config, s: Tables, call: Call)
    requires Inv(c, s) && call.CreateRole?
    ensures var r := Role(call.id, call.o, Strings.ToLower(call.name), call.rights);
            CreateRoleVerdict(c, s, call.u, r, PlanOf(c, s, call), Next(c, s, call))
  {
    PlanOfRole(c, s, call);
    CreateRoleDecides(c, s, call.u, Role(call.id, call.o, Strings.ToLower(call.name), call.rights));
  }

  lemma PlanOfRole(c: Config, s: Tables, call: Call)
    requires call.CreateRole?
    ensures PlanOf(c, s, call) == PlanCreateRole(c, s, call.u, Role(call.id, call.o, Strings.ToLower(call.name), call.rights))
  {
  }

  lemma UpdateRoleIff(c: Config, s: Tables, u: string, o: string, raw: string, rights: set<Right>)
    requires Inv(c, s)
    ensures var plan, n, name := PlanOf(c, s, UpdateRole(u, o, raw, rights)), Next(c, s, UpdateRole(u, o, raw, rights)), Strings.ToLower(raw);
            && (plan.Success? <==> May(c, s, o, u, "ac", "update") && MayGrant(c, s, o, u, rights) && name !in c.statics && HasRole(s, o, name))
            && (!May(c, s, o, u, "ac", "update") ==> plan == Failure(Forbidden))
            && (plan.Success? ==> n == s.(roles := Regranted(s.roles, o, name, rights)))
  {
    AuthorizedIff(c, s, o, u, RoleUpdate);
    if Authorized(c, s, o, u, RoleUpdate).Success? { GrantableIff(c, s, o, u, RoleUpdate, rights); }
    NamedRole(s, o, Strings.ToLower(raw));
    var row := RoleRow(s, o, Strings.ToLower(raw));
    if row.Some? {
      OnlyRole(s, o, Strings.ToLower(raw), row.value, rights);
    }
  }

  /** The roles with the named one of the organization granting other rights. */
  function Regranted(roles: map<string, Role>, o: string, name: string, rights: set<Right>): map<string, Role> {
    map i | i in roles :: if roles[i].org == o && roles[i].name == name then roles[i].(rights := rights) else roles[i]
  }

  /** The roles without the named one of the organization. */
  function Ungranted(roles: map<string, Role>, o: string, name: string): map<string, Role> {
    map i | i in roles && !(roles[i].org == o && roles[i].name == name) :: roles[i]
  }

  lemma OnlyRole(s: Tables, o: string, name: string, id: string, rights: set<Right>)
    requires Keyed(s) && OneRole(s.roles) && id in s.roles && IsRole(s.roles[id], o, name)
    ensures Moved(s, PutRole(s.roles[id].(rights := rights))) == s.(roles := Regranted(s.roles, o, name, rights))
    ensures Moved(s, DropRole(id)) == s.(roles := Ungranted(s.roles, o, name))
  {
    assert s.roles[id].id == id;
    OnlyRoleIn(s.roles, o, name, id);
    assert Regranted(s.roles, o, name, rights) == s.roles[id := s.roles[id].(rights := rights)];
    assert Ungranted(s.roles, o, name) == s.roles - {id};
  }

  lemma OnlyRoleIn(roles: map<string, Role>, o: string, name: string, id: string)
    requires OneRole(roles) && id in roles && IsRole(roles[id], o, name)
    ensures forall i | i in roles :: roles[i].org == o && roles[i].name == name <==> i == id
  {
    forall i | i in roles && roles[i].org == o && roles[i].name == name
      ensures i == id
    {
      assert IsRole(roles[i], roles[id].org, roles[id].name);
    }
  }

  predicate NamedBySomeone(s: Tables, o: string, name: string) {
    || (exists i | i in s.members :: s.members[i].org == o && name in Strings.Split(s.members[i].role, ','))
    || exists i | i in s.invitations ::
         s.invitations[i].org == o && s.invitations[i].status == Pending && name in Strings.Split(s.invitations[i].role, ',')
  }

  lemma UnusedIff(s: Tables, r: Role)
    ensures Unused(s, r) <==> !NamedBySomeone(s, r.org, r.name)
  {
  }

  /** A role that a member or a pending invitation of the organization still names stays. */
  lemma DeleteRoleIff(c: Config, s: Tables, u: string, o: string, raw: string)
    requires Inv(c, s)
    ensures var plan, n, name := PlanOf(c, s, DeleteRole(u, o, raw)), Next(c, s, DeleteRole(u, o, raw)), Strings.ToLower(raw);
            && (plan.Success? <==>
                  && May(c, s, o, u, "ac", "delete") && name !in c.statics && HasRole(s, o, name)
                  && !NamedBySomeone(s, o, name))
            && (!May(c, s, o, u, "ac", "delete") ==> plan == Failure(Forbidden))
            && (plan.Success? ==> n == s.(roles := Ungranted(s.roles, o, name)))
  {
    AuthorizedIff(c, s, o, u, RoleDelete);
    NamedRole(s, o, Strings.ToLower(raw));
    var row := RoleRow(s, o, Strings.ToLower(raw));
    if row.Some? {
      OnlyRole(s, o, Strings.ToLower(raw), row.value, {});
      UnusedIff(s, s.roles[row.value]);
    }
  }

  // ---------------------------------------------------------------- members

  /** Removing an owner takes an owner, and the last owner stays. */
  lemma RemoveMemberIff(c: Config, s: Tables, u: string, o: string, id: string)
    requires Inv(c, s)
    ensures var plan, n := PlanOf(c, s, RemoveMember(u, o, id)), Next(c, s, RemoveMember(u, o, id));
            && (plan.Success? <==>
                  && May(c, s, o, u, "member", "delete") && id in s.members && s.members[id].org == o
                  && (c.creator in Strings.Split(s.members[id].role, ',') ==> Owns(c, s, o, u) && OtherOwner(c, s.members, id)))
            && (!May(c, s, o, u, "member", "delete") ==> plan == Failure(Forbidden))
            && (plan.Success? ==> Left(s, n, id))
  {
    AuthorizedIff(c, s, o, u, MemberDelete);
    if Authorized(c, s, o, u, MemberDelete).Success? { ActorIs(c, s, o, u, MemberDelete, MemberDelete); }
    if id in s.members {
      LastOwnerIff(c, s, id);
      PartedIsLeft(c, s, id);
    }
  }

  predicate MayRegrade(c: Config, s: Tables, u: string, o: string, id: string, names: string) {
    && id in s.members && s.members[id].org == o && MayHandOut(c, s, o, u, names)
    && (c.creator in Strings.Split(s.members[id].role, ',') && c.creator !in Strings.Split(names, ',') ==>
          Owns(c, s, o, u) && OtherOwner(c, s.members, id))
  }

  lemma MovedMember(s: Tables, id: string, names: string)
    requires id in s.members
    ensures Moved(s, Regrade(id, names)) == s.(members := s.members[id := s.members[id].(role := names)])
  {
  }

  lemma RegradePlanIff(c: Config, s: Tables, u: string, o: string, id: string, role: string)
    requires Inv(c, s)
    ensures var plan, names := PlanUpdateRoleOf(c, s, u, o, id, role), Canonical([role]);
            && (plan.Success? <==> May(c, s, o, u, "member", "update") && names.Some? && MayRegrade(c, s, u, o, id, names.value))
            && (!May(c, s, o, u, "member", "update") ==> plan == Failure(Forbidden))
            && (plan.Success? ==> plan.value == Regrade(id, names.value))
  {
    AuthorizedIff(c, s, o, u, MemberUpdate);
    if Authorized(c, s, o, u, MemberUpdate).Success? && Canonical([role]).Some? {
      ActorIs(c, s, o, u, MemberUpdate, MemberUpdate);
      HandOutIff(c, s, o, u, MemberUpdate, Canonical([role]).value);
    }
    if id in s.members { LastOwnerIff(c, s, id); }
  }

  lemma UpdateMemberRoleIff(c: Config, s: Tables, u: string, o: string, id: string, role: string)
    requires Inv(c, s)
    ensures var plan, n, names := PlanOf(c, s, UpdateMemberRole(u, o, id, role)), Next(c, s, UpdateMemberRole(u, o, id, role)), Canonical([role]);
            && (plan.Success? <==> May(c, s, o, u, "member", "update") && names.Some? && MayRegrade(c, s, u, o, id, names.value))
            && (!May(c, s, o, u, "member", "update") ==> plan == Failure(Forbidden))
            && (plan.Success? ==> n == s.(members := s.members[id := s.members[id].(role := names.value)]))
  {
    assert PlanOf(c, s, UpdateMemberRole(u, o, id, role)) == PlanUpdateRoleOf(c, s, u, o, id, role);
    RegradePlanIff(c, s, u, o, id, role);
    if id in s.members && Canonical([role]).Some? { MovedMember(s, id, Canonical([role]).value); }
  }

  /** Any member leaves but the last owner. */
  lemma LeaveOrganizationIff(c: Config, s: Tables, u: string, o: string)
    requires Inv(c, s)
    ensures var plan, n := PlanOf(c, s, LeaveOrganization(u, o)), Next(c, s, LeaveOrganization(u, o));
            && (!IsMember(s.members, o, u) ==> plan == Failure(Forbidden))
            && forall id | id in s.members && s.members[id].org == o && s.members[id].user == u ::
                 && (plan.Success? <==> (c.creator in Strings.Split(s.members[id].role, ',') ==> OtherOwner(c, s.members, id)))
                 && (plan.Success? ==> Left(s, n, id))
  {
    var row := MemberRow(s, o, u);
    if row.Some? {
      LastOwnerIff(c, s, row.value);
      PartedIsLeft(c, s, row.value);
      forall id | id in s.members && s.members[id].org == o && s.members[id].user == u
        ensures id == row.value
      {
        assert Belongs(s.members[id], s.members[row.value].org, s.members[row.value].user);
      }
    }
  }

  predicate MayJoin(c: Config, s: Tables, o: string, user: string, role: string, id: string) {
    && o in s.organizations && user != "" && role != "" && AllKnown(c, s, o, role)
    && CountMembers(s, o) < c.maxMembers
    && id != "" && id !in s.members && !IsMember(s.members, o, user)
  }

  /** A known user joins an organization below its limit, once, with roles that exist. */
  ghost predicate JoinVerdict(c: Config, s: Tables, o: string, user: string, names: seq<string>, id: string, known: bool, plan: Plan, n: Tables) {
    var role := Canonical(names);
    && (plan.Success? <==> known && role.Some? && MayJoin(c, s, o, user, role.value, id))
    && n == (if plan.Success? then s.(members := s.members[id := Member(id, o, user, role.value)]) else s)
  }

  lemma JoinDecides(c: Config, s: Tables, o: string, user: string, names: seq<string>, id: string, known: bool)
    requires Inv(c, s)
    ensures var plan := PlanAddMember(c, s, o, user, names, id, known);
            JoinVerdict(c, s, o, user, names, id, known, plan, if plan.Success? then Moved(s, plan.value) else s)
  {
    JoinPlanIff(c, s, o, user, names, id, known);
  }

  lemma JoinPlanIff(c: Config, s: Tables, o: string, user: string, names: seq<string>, id: string, known: bool)
    requires Inv(c, s)
    ensures var plan, role := PlanAddMember(c, s, o, user, names, id, known), Canonical(names);
            && (plan.Success? <==> known && role.Some? && MayJoin(c, s, o, user, role.value, id))
            && (plan.Success? ==> plan.value == Join(Member(id, o, user, role.value)))
  {
    Counted(s, o);
    if Canonical(names).Some? { AllKnownIff(c, s, o, Canonical(names).value); }
  }

  lemma AddMemberIff(c: Config, s: Tables, call: Call)
    requires Inv(c, s) && call.AddMember?
    ensures JoinVerdict(c, s, call.o, call.user, call.names, call.id, call.known, PlanOf(c, s, call), Next(c, s, call))
  {
    PlanOfJoin(c, s, call);
    JoinDecides(c, s, call.o, call.user, call.names, call.id, call.known);
  }

  lemma PlanOfJoin(c: Config, s: Tables, call: Call)
    requires call.AddMember?
    ensures PlanOf(c, s, call) == PlanAddMember(c, s, call.o, call.user, call.names, call.id, call.known)
  {
  }
}
