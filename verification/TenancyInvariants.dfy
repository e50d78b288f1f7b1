/**
 Every allowed change of the organization tables keeps every invariant. The lemmas follow the
 invariants: each is stated over the tables it reads.
 */
module TenancyInvariants {
  import opened Wrappers
  import opened Tenancy

  // ---------------------------------------------------------------- memberships that stay

  /** Every membership of before is one of after. */
  ghost predicate Covers(before: map<string, Member>, after: map<string, Member>) {
    forall o, u {:trigger IsMember(after, o, u)} :: IsMember(before, o, u) ==> IsMember(after, o, u)
  }

  lemma PutMemberCovers(members: map<string, Member>, m: Member)
    requires m.id in members ==> Belongs(members[m.id], m.org, m.user)
    ensures Covers(members, members[m.id := m]) && IsMember(members[m.id := m], m.org, m.user)
  {
    var after := members[m.id := m];
    assert after[m.id] == m && Belongs(m, m.org, m.user);
    forall o, u | IsMember(members, o, u)
      ensures IsMember(after, o, u)
    {
      var id :| id in members && Belongs(members[id], o, u);
      assert id in after && Belongs(after[id], o, u);
    }
  }

  ghost predicate SeatsCover(before: map<string, TeamMember>, after: map<string, TeamMember>) {
    forall t, u {:trigger HasSeat(after, t, u)} :: HasSeat(before, t, u) ==> HasSeat(after, t, u)
  }

  lemma PutSeatCovers(seats: map<string, TeamMember>, x: TeamMember)
    requires x.id !in seats
    ensures SeatsCover(seats, seats[x.id := x])
  {
    var after := seats[x.id := x];
    forall t, u | HasSeat(seats, t, u)
      ensures HasSeat(after, t, u)
    {
      var id :| id in seats && Sits(seats[id], t, u);
      assert id in after && Sits(after[id], t, u);
    }
  }

  /** Members other than one, or outside one organization, are still there. */
  lemma DropCovers(members: map<string, Member>, gone: set<string>, o: string, u: string)
    requires IsMember(members, o, u) && forall id | id in gone && id in members :: !Belongs(members[id], o, u)
    ensures IsMember(members - gone, o, u)
  {
    var id :| id in members && Belongs(members[id], o, u);
    assert id in members - gone && Belongs((members - gone)[id], o, u);
  }

  lemma DropSeatsCover(seats: map<string, TeamMember>, gone: set<string>, t: string, u: string)
    requires HasSeat(seats, t, u) && forall id | id in gone && id in seats :: !Sits(seats[id], t, u)
    ensures HasSeat(seats - gone, t, u)
  {
    var id :| id in seats && Sits(seats[id], t, u);
    assert id in seats - gone && Sits((seats - gone)[id], t, u);
  }

  // ---------------------------------------------------------------- seats

  ghost predicate TeamsKept(before: map<string, Team>, after: map<string, Team>) {
    forall t | t in before :: t in after && after[t] == before[t]
  }

  lemma SeatedGrows(members: map<string, Member>, members': map<string, Member>, teams: map<string, Team>, teams': map<string, Team>, seats: map<string, TeamMember>)
    requires Seated(members, teams, seats) && Covers(members, members') && TeamsKept(teams, teams')
    ensures Seated(members', teams', seats)
  {
    forall id | id in seats
      ensures SeatOk(members', teams', seats[id])
    {
      assert SeatOk(members, teams, seats[id]);
    }
  }

  lemma SeatedPut(members: map<string, Member>, teams: map<string, Team>, seats: map<string, TeamMember>, x: TeamMember)
    requires Seated(members, teams, seats) && SeatOk(members, teams, x)
    ensures Seated(members, teams, seats[x.id := x])
  {
    var after := seats[x.id := x];
    forall id | id in after
      ensures SeatOk(members, teams, after[id])
    {
      if id != x.id { assert SeatOk(members, teams, seats[id]); }
    }
  }

  lemma SeatedDrop(members: map<string, Member>, teams: map<string, Team>, seats: map<string, TeamMember>, gone: set<string>)
    requires Seated(members, teams, seats)
    ensures Seated(members, teams, seats - gone)
  {
    forall id | id in seats - gone
      ensures SeatOk(members, teams, (seats - gone)[id])
    {
      assert SeatOk(members, teams, seats[id]);
    }
  }

  /** Seats stay sound when no member loses an organization that a remaining seat needs. */
  lemma SeatedShrinks(members: map<string, Member>, gone: set<string>, teams: map<string, Team>, teams': map<string, Team>, seats: map<string, TeamMember>)
    requires Seated(members, teams, seats)
    requires forall id | id in seats :: seats[id].team in teams' && (seats[id].team in teams ==> teams'[seats[id].team] == teams[seats[id].team])
    requires forall id, m | id in seats && m in gone && m in members && seats[id].team in teams ::
               !Belongs(members[m], teams[seats[id].team].org, seats[id].user)
    ensures Seated(members - gone, teams', seats)
  {
    forall id | id in seats
      ensures SeatOk(members - gone, teams', seats[id])
    {
      assert SeatOk(members, teams, seats[id]);
      DropCovers(members, gone, teams[seats[id].team].org, seats[id].user);
    }
  }

  // ---------------------------------------------------------------- active sessions

  lemma ActiveGrows(s: Tables, members: map<string, Member>, teams: map<string, Team>, seats: map<string, TeamMember>)
    requires Active(s.members, s.teams, s.teamMembers, s.sessions)
    requires Covers(s.members, members) && TeamsKept(s.teams, teams) && SeatsCover(s.teamMembers, seats)
    ensures Active(members, teams, seats, s.sessions)
  {
    forall id | id in s.sessions
      ensures ActiveOk(members, teams, seats, s.sessions[id])
    {
      assert ActiveOk(s.members, s.teams, s.teamMembers, s.sessions[id]);
    }
  }

  lemma ActiveOpens(members: map<string, Member>, teams: map<string, Team>, seats: map<string, TeamMember>, sessions: map<string, Session>, x: Session, ended: set<string>)
    requires Active(members, teams, seats, sessions) && ActiveOk(members, teams, seats, x)
    ensures Active(members, teams, seats, End(sessions, ended)[x.id := x])
  {
    var after := End(sessions, ended)[x.id := x];
    forall id | id in after
      ensures ActiveOk(members, teams, seats, after[id])
    {
      if id != x.id { assert ActiveOk(members, teams, seats, sessions[id]); }
    }
  }

  lemma ActiveAttaches(s: Tables, x: Session)
    requires Active(s.members, s.teams, s.teamMembers, s.sessions) && ActiveOk(s.members, s.teams, s.teamMembers, x)
    requires x.id in s.sessions
    ensures Active(s.members, s.teams, s.teamMembers, s.sessions[x.id := x])
  {
    var after := s.sessions[x.id := x];
    forall id | id in after
      ensures ActiveOk(s.members, s.teams, s.teamMembers, after[id])
    {
      if id != x.id { assert ActiveOk(s.members, s.teams, s.teamMembers, s.sessions[id]); }
    }
  }

  lemma ActiveForgets(members: map<string, Member>, teams: map<string, Team>, seats: map<string, TeamMember>, sessions: map<string, Session>, gone: set<string>)
    requires Active(members, teams, seats, sessions)
    ensures Active(members, teams, seats, sessions - gone)
  {
    forall id | id in sessions - gone
      ensures ActiveOk(members, teams, seats, (sessions - gone)[id])
    {
      assert ActiveOk(members, teams, seats, sessions[id]);
    }
  }

  lemma ActiveParts(s: Tables, m: Member)
    requires Active(s.members, s.teams, s.teamMembers, s.sessions) && m.id in s.members && s.members[m.id] == m
    ensures var p := Parted(s, m); Active(p.members, p.teams, p.teamMembers, p.sessions)
  {
    var p := Parted(s, m);
    forall id | id in p.sessions
      ensures ActiveOk(p.members, p.teams, p.teamMembers, p.sessions[id])
    {
      assert ActiveOk(s.members, s.teams, s.teamMembers, s.sessions[id]);
      if p.sessions[id].org.Some? { ActivePartsOrg(s, m, id); }
    }
  }

  /** A session that keeps its organization is of another user or in another organization. */
  lemma ActivePartsOrg(s: Tables, m: Member, id: string)
    requires m.id in s.members && s.members[m.id] == m && id in s.sessions
    requires ActiveOk(s.members, s.teams, s.teamMembers, s.sessions[id]) && Parted(s, m).sessions[id].org.Some?
    ensures var p := Parted(s, m); ActiveOk(p.members, p.teams, p.teamMembers, p.sessions[id])
  {
    var p, x := Parted(s, m), s.sessions[id];
    assert p.sessions[id] == x;
    DropCovers(s.members, {m.id}, x.org.value, x.user);
    if x.team.Some? {
      DropSeatsCover(s.teamMembers, SeatsOf(s.teamMembers, TeamsOf(s.teams, m.org), m.user), x.team.value, x.user);
    }
  }

  lemma ActiveDissolves(s: Tables, o: string)
    requires Active(s.members, s.teams, s.teamMembers, s.sessions)
    ensures var d := Dissolved(s, o); Active(d.members, d.teams, d.teamMembers, d.sessions)
  {
    var d := Dissolved(s, o);
    forall id | id in d.sessions
      ensures ActiveOk(d.members, d.teams, d.teamMembers, d.sessions[id])
    {
      assert ActiveOk(s.members, s.teams, s.teamMembers, s.sessions[id]);
      ActiveDissolvesAt(s, o, id);
    }
  }

  lemma ActiveDissolvesAt(s: Tables, o: string, id: string)
    requires id in s.sessions && ActiveOk(s.members, s.teams, s.teamMembers, s.sessions[id])
    ensures var d := Dissolved(s, o); ActiveOk(d.members, d.teams, d.teamMembers, d.sessions[id])
  {
    var x := s.sessions[id];
    if x.org.Some? && x.org != Some(o) {
      DropCovers(s.members, MembersOf(s.members, o), x.org.value, x.user);
      if x.team.Some? {
        DropSeatsCover(s.teamMembers, SeatsIn(s.teamMembers, TeamsOf(s.teams, o)), x.team.value, x.user);
      }
    }
  }

  lemma ActiveUnseats(s: Tables, seats: map<string, TeamMember>, teams: map<string, Team>, left: set<string>)
    requires Active(s.members, s.teams, s.teamMembers, s.sessions)
    requires forall id | id in s.sessions && id !in left && s.sessions[id].team.Some? ::
               && (HasSeat(s.teamMembers, s.sessions[id].team.value, s.sessions[id].user) ==> HasSeat(seats, s.sessions[id].team.value, s.sessions[id].user))
               && (s.sessions[id].team.value in s.teams ==> s.sessions[id].team.value in teams && teams[s.sessions[id].team.value] == s.teams[s.sessions[id].team.value])
    ensures Active(s.members, teams, seats, LeaveTeam(s.sessions, left))
  {
    var after := LeaveTeam(s.sessions, left);
    forall id | id in after
      ensures ActiveOk(s.members, teams, seats, after[id])
    {
      assert ActiveOk(s.members, s.teams, s.teamMembers, s.sessions[id]);
    }
  }

  // ---------------------------------------------------------------- limits

  lemma SubsetSize(a: set<string>, b: set<string>)
    requires a <= b
    ensures |a| <= |b|
  {
    if a != {} {
      var x :| x in a;
      SubsetSize(a - {x}, b - {x});
    }
  }

  lemma MembersOfPut(members: map<string, Member>, m: Member, o: string)
    requires m.id !in members
    ensures MembersOf(members[m.id := m], o) == if o == m.org then MembersOf(members, o) + {m.id} else MembersOf(members, o)
  {
  }

  lemma MembersWithinPut(c: Config, members: map<string, Member>, m: Member)
    requires MembersWithin(c, members) && m.id !in members && |MembersOf(members, m.org)| < c.maxMembers
    ensures MembersWithin(c, members[m.id := m])
  {
    var changed := members[m.id := m];
    forall o
      ensures |MembersOf(changed, o)| <= c.maxMembers
    {
      MembersOfPut(members, m, o);
    }
  }

  lemma MembersWithinDrop(c: Config, members: map<string, Member>, gone: set<string>)
    requires MembersWithin(c, members)
    ensures MembersWithin(c, members - gone)
  {
    var changed := members - gone;
    forall o
      ensures |MembersOf(changed, o)| <= c.maxMembers
    {
      SubsetSize(MembersOf(changed, o), MembersOf(members, o));
    }
  }

  lemma MembersWithinRegrade(c: Config, members: map<string, Member>, id: string, names: string)
    requires MembersWithin(c, members) && id in members
    ensures MembersWithin(c, members[id := members[id].(role := names)])
  {
    var changed := members[id := members[id].(role := names)];
    forall o
      ensures |MembersOf(changed, o)| <= c.maxMembers
    {
      assert MembersOf(changed, o) == MembersOf(members, o);
    }
  }

  lemma TeamsOfPut(teams: map<string, Team>, t: Team, o: string)
    requires t.id !in teams
    ensures TeamsOf(teams[t.id := t], o) == if o == t.org then TeamsOf(teams, o) + {t.id} else TeamsOf(teams, o)
  {
  }

  lemma TeamsWithinPut(c: Config, teams: map<string, Team>, t: Team)
    requires TeamsWithin(c, teams) && t.id !in teams && |TeamsOf(teams, t.org)| < c.maxTeams
    ensures TeamsWithin(c, teams[t.id := t])
  {
    var changed := teams[t.id := t];
    forall o
      ensures |TeamsOf(changed, o)| <= c.maxTeams
    {
      TeamsOfPut(teams, t, o);
    }
  }

  lemma TeamsWithinDrop(c: Config, teams: map<string, Team>, gone: set<string>)
    requires TeamsWithin(c, teams)
    ensures TeamsWithin(c, teams - gone)
  {
    var changed := teams - gone;
    forall o
      ensures |TeamsOf(changed, o)| <= c.maxTeams
    {
      SubsetSize(TeamsOf(changed, o), TeamsOf(teams, o));
    }
  }

  lemma PendingWithinPut(c: Config, invitations: map<string, Invitation>, i: Invitation)
    requires PendingWithin(c, invitations) && |PendingOf(invitations, i.org)| < c.maxInvitations
    requires i.id in invitations ==> invitations[i.id].org == i.org
    ensures PendingWithin(c, invitations[i.id := i])
  {
    var changed := invitations[i.id := i];
    forall o
      ensures |PendingOf(changed, o)| <= c.maxInvitations
    {
      var before, after := PendingOf(invitations, o), PendingOf(changed, o);
      assert after <= if o == i.org then before + {i.id} else before;
      SubsetSize(after, if o == i.org then before + {i.id} else before);
    }
  }

  lemma PendingWithinShrinks(c: Config, invitations: map<string, Invitation>, after: map<string, Invitation>)
    requires PendingWithin(c, invitations)
    requires forall id | id in after && after[id].status == Pending :: id in invitations && after[id] == invitations[id]
    ensures PendingWithin(c, after)
  {
    forall o
      ensures |PendingOf(after, o)| <= c.maxInvitations
    {
      SubsetSize(PendingOf(after, o), PendingOf(invitations, o));
    }
  }

  lemma RolesWithinPut(c: Config, roles: map<string, Role>, r: Role)
    requires RolesWithin(c, roles)
    requires if r.id in roles then roles[r.id].org == r.org else |RolesOf(roles, r.org)| < c.maxRoles
    ensures RolesWithin(c, roles[r.id := r])
  {
    var changed := roles[r.id := r];
    forall o
      ensures |RolesOf(changed, o)| <= c.maxRoles
    {
      RolesOfPut(roles, r, o);
    }
  }

  lemma RolesOfPut(roles: map<string, Role>, r: Role, o: string)
    requires r.id in roles ==> roles[r.id].org == r.org
    ensures RolesOf(roles[r.id := r], o) == if o == r.org then RolesOf(roles, o) + {r.id} else RolesOf(roles, o)
  {
  }

  lemma RolesWithinDrop(c: Config, roles: map<string, Role>, gone: set<string>)
    requires RolesWithin(c, roles)
    ensures RolesWithin(c, roles - gone)
  {
    var changed := roles - gone;
    forall o
      ensures |RolesOf(changed, o)| <= c.maxRoles
    {
      SubsetSize(RolesOf(changed, o), RolesOf(roles, o));
    }
  }

  // ---------------------------------------------------------------- defined roles

  /** A role string stays defined when every role of its organization that it names stays. */
  lemma StaysDefined(c: Config, roles: map<string, Role>, roles': map<string, Role>, o: string, role: string)
    requires AllDefined(c, roles, o, role)
    requires forall id | id in roles && roles[id].org == o && Includes(role, roles[id].name) ::
               exists j | j in roles' :: IsRole(roles'[j], o, roles[id].name)
    ensures AllDefined(c, roles', o, role)
  {
    forall name | name in Names(role)
      ensures Defined(c, roles', o, name)
    {
      assert Defined(c, roles, o, name);
      if name !in c.statics {
        var id :| id in roles && IsRole(roles[id], o, name);
        assert Includes(role, roles[id].name);
      }
    }
  }

  lemma PutRoleDefined(c: Config, roles: map<string, Role>, r: Role, o: string, role: string)
    requires AllDefined(c, roles, o, role) && (r.id in roles ==> IsRole(roles[r.id], r.org, r.name))
    ensures AllDefined(c, roles[r.id := r], o, role)
  {
    var after := roles[r.id := r];
    forall id | id in roles && roles[id].org == o
      ensures exists j | j in after :: IsRole(after[j], o, roles[id].name)
    {
      assert id in after && IsRole(after[id], o, roles[id].name);
    }
    StaysDefined(c, roles, after, o, role);
  }

  lemma DropRoleDefined(c: Config, roles: map<string, Role>, gone: set<string>, o: string, role: string)
    requires AllDefined(c, roles, o, role)
    requires forall id | id in gone && id in roles && roles[id].org == o :: !Includes(role, roles[id].name)
    ensures AllDefined(c, roles - gone, o, role)
  {
    var after := roles - gone;
    forall id | id in roles && roles[id].org == o && Includes(role, roles[id].name)
      ensures exists j | j in after :: IsRole(after[j], o, roles[id].name)
    {
      assert id in after && IsRole(after[id], o, roles[id].name);
    }
    StaysDefined(c, roles, after, o, role);
  }

  // ---------------------------------------------------------------- owners

  lemma OwnerStays(c: Config, members: map<string, Member>, after: map<string, Member>, o: string, id: string)
    requires id in after && after[id].org == o && Includes(after[id].role, c.creator)
    ensures HasOwner(c, after, o)
  {
  }

  lemma OwnedPut(c: Config, organizations: map<string, Organization>, members: map<string, Member>, m: Member)
    requires Owned(c, organizations, members)
    requires m.id in members ==> members[m.id].org == m.org && (Includes(members[m.id].role, c.creator) ==> Includes(m.role, c.creator) || OtherOwner(c, members, m.id))
    ensures Owned(c, organizations, members[m.id := m])
  {
    var after := members[m.id := m];
    forall o | o in organizations
      ensures HasOwner(c, after, o)
    {
      assert HasOwner(c, members, o);
      var id :| id in members && members[id].org == o && Includes(members[id].role, c.creator);
      if id == m.id && !Includes(m.role, c.creator) {
        var j :| j in members && j != id && members[j].org == members[id].org && Includes(members[j].role, c.creator);
        OwnerStays(c, members, after, o, j);
      } else {
        OwnerStays(c, members, after, o, id);
      }
    }
  }

  lemma OwnedDrop(c: Config, organizations: map<string, Organization>, members: map<string, Member>, id: string)
    requires Owned(c, organizations, members) && id in members && KeepsOwner(c, members, id)
    ensures Owned(c, organizations, members - {id})
  {
    var after := members - {id};
    forall o | o in organizations
      ensures HasOwner(c, after, o)
    {
      assert HasOwner(c, members, o);
      var i :| i in members && members[i].org == o && Includes(members[i].role, c.creator);
      if i == id {
        var j :| j in members && j != id && members[j].org == members[id].org && Includes(members[j].role, c.creator);
        OwnerStays(c, members, after, o, j);
      } else {
        OwnerStays(c, members, after, o, i);
      }
    }
  }

  lemma OwnedDissolve(c: Config, organizations: map<string, Organization>, members: map<string, Member>, gone: string)
    requires Owned(c, organizations, members)
    ensures Owned(c, organizations - {gone}, members - MembersOf(members, gone))
  {
    var after := members - MembersOf(members, gone);
    forall o | o in organizations - {gone}
      ensures HasOwner(c, after, o)
    {
      assert HasOwner(c, members, o);
      var id :| id in members && members[id].org == o && Includes(members[id].role, c.creator);
      OwnerStays(c, members, after, o, id);
    }
  }

  // ---------------------------------------------------------------- every change, every invariant

  lemma MoveKeepsKeyed(c: Config, s: Tables, m: Move)
    requires Keyed(s) && Allowed(c, s, m)
    ensures Keyed(Moved(s, m))
  {
    MoveKeepsPeopleKeyed(s, m);
    MoveKeepsInvitationsKeyed(s, m);
    MoveKeepsRolesKeyed(s, m);
  }

  lemma MoveKeepsPeopleKeyed(s: Tables, m: Move)
    requires KeyedPeople(s.members, s.teams, s.teamMembers)
    ensures var n := Moved(s, m); KeyedPeople(n.members, n.teams, n.teamMembers)
  {
  }

  lemma MoveKeepsInvitationsKeyed(s: Tables, m: Move)
    requires KeyedInvitations(s.invitations)
    ensures KeyedInvitations(Moved(s, m).invitations)
  {
  }

  lemma MoveKeepsRolesKeyed(s: Tables, m: Move)
    requires KeyedRoles(s.roles, s.sessions)
    ensures KeyedRoles(Moved(s, m).roles, Moved(s, m).sessions)
  {
  }

  lemma NewMembership(members: map<string, Member>, m: Member)
    requires OneMembership(members) && !IsMember(members, m.org, m.user)
    ensures OneMembership(members[m.id := m])
  {
  }

  lemma StrangerInNewOrg(organizations: map<string, Organization>, members: map<string, Member>, o: string, u: string)
    requires MembersHome(organizations, members) && o !in organizations
    ensures !IsMember(members, o, u)
  {
  }

  lemma MoveKeepsOneMembership(c: Config, s: Tables, m: Move)
    requires OneMembership(s.members) && Keyed(s) && Homes(s) && Allowed(c, s, m)
    ensures OneMembership(Moved(s, m).members)
  {
    if m.Found? {
      StrangerInNewOrg(s.organizations, s.members, m.owner.org, m.owner.user);
      NewMembership(s.members, m.owner);
    } else if m.Accept? || m.Join? {
      NewMembership(s.members, m.member);
    }
  }

  lemma NewSeatIsOne(seats: map<string, TeamMember>, x: TeamMember)
    requires OneSeat(seats) && !HasSeat(seats, x.team, x.user)
    ensures OneSeat(seats[x.id := x])
  {
  }

  lemma MoveKeepsOneSeat(c: Config, s: Tables, m: Move)
    requires OneSeat(s.teamMembers) && Allowed(c, s, m)
    ensures OneSeat(Moved(s, m).teamMembers)
  {
    if m.Seat? { NewSeatIsOne(s.teamMembers, m.seat); }
    else if m.Accept? && m.taken.Some? { NewSeatIsOne(s.teamMembers, m.taken.value); }
  }

  lemma MoveKeepsOneRole(c: Config, s: Tables, m: Move)
    requires OneRole(s.roles) && Allowed(c, s, m)
    ensures OneRole(Moved(s, m).roles)
  {
  }

  lemma MoveKeepsOneInvitation(c: Config, s: Tables, m: Move)
    requires OneInvitation(s.invitations) && Allowed(c, s, m)
    ensures OneInvitation(Moved(s, m).invitations)
  {
  }

  lemma MoveKeepsPeopleHome(c: Config, s: Tables, m: Move)
    requires MembersHome(s.organizations, s.members) && TeamsHome(s.organizations, s.teams) && Allowed(c, s, m)
    ensures var n := Moved(s, m); MembersHome(n.organizations, n.members) && TeamsHome(n.organizations, n.teams)
  {
  }

  lemma MoveKeepsRestHome(c: Config, s: Tables, m: Move)
    requires InvitationsHome(s.organizations, s.invitations) && RolesHome(s.organizations, s.roles) && "" !in s.organizations
    requires Allowed(c, s, m)
    ensures var n := Moved(s, m);
            InvitationsHome(n.organizations, n.invitations) && RolesHome(n.organizations, n.roles) && "" !in n.organizations
  {
  }

  lemma MoveKeepsHomes(c: Config, s: Tables, m: Move)
    requires Homes(s) && Allowed(c, s, m)
    ensures Homes(Moved(s, m))
  {
    MoveKeepsPeopleHome(c, s, m);
    MoveKeepsRestHome(c, s, m);
  }

  lemma JoinKeepsSeated(s: Tables, m: Member)
    requires Seated(s.members, s.teams, s.teamMembers) && (m.id in s.members ==> Belongs(s.members[m.id], m.org, m.user))
    ensures Seated(s.members[m.id := m], s.teams, s.teamMembers)
  {
    PutMemberCovers(s.members, m);
    SeatedGrows(s.members, s.members[m.id := m], s.teams, s.teams, s.teamMembers);
  }

  lemma TakeKeepsSeated(s: Tables, m: Member, x: TeamMember)
    requires Seated(s.members, s.teams, s.teamMembers) && m.id !in s.members
    requires x.team in s.teams && s.teams[x.team].org == m.org && x.user == m.user
    ensures Seated(s.members[m.id := m], s.teams, s.teamMembers[x.id := x])
  {
    JoinKeepsSeated(s, m);
    PutMemberCovers(s.members, m);
    SeatedPut(s.members[m.id := m], s.teams, s.teamMembers, x);
  }

  lemma RemoveTeamKeepsSeated(s: Tables, t: string)
    requires Seated(s.members, s.teams, s.teamMembers)
    ensures var n := Moved(s, RemoveTeam(t)); Seated(n.members, n.teams, n.teamMembers)
  {
    var n := Moved(s, RemoveTeam(t));
    SeatedDrop(s.members, s.teams, s.teamMembers, SeatsIn(s.teamMembers, {t}));
    assert s.members - {} == s.members;
    SeatedShrinks(s.members, {}, s.teams, n.teams, n.teamMembers);
  }

  lemma PartKeepsSeated(s: Tables, id: string)
    requires Seated(s.members, s.teams, s.teamMembers) && Keyed(s) && id in s.members
    ensures var n := Moved(s, Part(id)); Seated(n.members, n.teams, n.teamMembers)
  {
    var n := Moved(s, Part(id));
    SeatedDrop(s.members, s.teams, s.teamMembers, SeatsOf(s.teamMembers, TeamsOf(s.teams, s.members[id].org), s.members[id].user));
    SeatedShrinks(s.members, {id}, s.teams, s.teams, n.teamMembers);
  }

  lemma DissolveKeepsSeated(s: Tables, o: string)
    requires Seated(s.members, s.teams, s.teamMembers)
    ensures var n := Dissolved(s, o); Seated(n.members, n.teams, n.teamMembers)
  {
    var n := Dissolved(s, o);
    SeatedDrop(s.members, s.teams, s.teamMembers, SeatsIn(s.teamMembers, TeamsOf(s.teams, o)));
    SeatedShrinks(s.members, MembersOf(s.members, o), s.teams, n.teams, n.teamMembers);
  }

  predicate Adds(m: Move) {
    m.Found? || m.Join? || m.Regrade? || m.Accept? || m.AddTeam? || m.Seat?
  }

  lemma AddingKeepsSeated(c: Config, s: Tables, m: Move)
    requires Seated(s.members, s.teams, s.teamMembers) && Keyed(s) && Allowed(c, s, m) && Adds(m)
    ensures var n := Moved(s, m); Seated(n.members, n.teams, n.teamMembers)
  {
    var n := Moved(s, m);
    if m.Found? { JoinKeepsSeated(s, m.owner); }
    else if m.Join? { JoinKeepsSeated(s, m.member); }
    else if m.Regrade? { JoinKeepsSeated(s, s.members[m.id].(role := m.names)); }
    else if m.AddTeam? { SeatedGrows(s.members, s.members, s.teams, n.teams, s.teamMembers); }
    else if m.Seat? { SeatedPut(s.members, s.teams, s.teamMembers, m.seat); }
    else {
      JoinKeepsSeated(s, m.member);
      if m.taken.Some? { TakeKeepsSeated(s, m.member, m.taken.value); }
    }
  }

  lemma MoveKeepsSeated(c: Config, s: Tables, m: Move)
    requires Seated(s.members, s.teams, s.teamMembers) && Keyed(s) && Allowed(c, s, m)
    ensures var n := Moved(s, m); Seated(n.members, n.teams, n.teamMembers)
  {
    if Adds(m) { AddingKeepsSeated(c, s, m); }
    else if m.Unseat? { SeatedDrop(s.members, s.teams, s.teamMembers, SeatsOf(s.teamMembers, {m.teamId}, m.user)); }
    else if m.RemoveTeam? { RemoveTeamKeepsSeated(s, m.teamId); }
    else if m.Part? { PartKeepsSeated(s, m.id); }
    else if m.Dissolve? { DissolveKeepsSeated(s, m.org); }
  }

  lemma JoinKeepsActive(s: Tables, m: Member, seats: map<string, TeamMember>)
    requires Active(s.members, s.teams, s.teamMembers, s.sessions) && (m.id in s.members ==> Belongs(s.members[m.id], m.org, m.user))
    requires SeatsCover(s.teamMembers, seats)
    ensures Active(s.members[m.id := m], s.teams, seats, s.sessions)
  {
    PutMemberCovers(s.members, m);
    ActiveGrows(s, s.members[m.id := m], s.teams, seats);
  }

  lemma AddingKeepsActive(c: Config, s: Tables, m: Move)
    requires Active(s.members, s.teams, s.teamMembers, s.sessions) && Keyed(s) && Allowed(c, s, m) && Adds(m)
    ensures var n := Moved(s, m); Active(n.members, n.teams, n.teamMembers, n.sessions)
  {
    var n := Moved(s, m);
    if m.Found? { JoinKeepsActive(s, m.owner, s.teamMembers); }
    else if m.Join? { JoinKeepsActive(s, m.member, s.teamMembers); }
    else if m.Regrade? { JoinKeepsActive(s, s.members[m.id].(role := m.names), s.teamMembers); }
    else if m.AddTeam? { ActiveGrows(s, n.members, n.teams, n.teamMembers); }
    else if m.Seat? {
      PutSeatCovers(s.teamMembers, m.seat);
      ActiveGrows(s, n.members, n.teams, n.teamMembers);
    } else {
      if m.taken.Some? { PutSeatCovers(s.teamMembers, m.taken.value); }
      JoinKeepsActive(s, m.member, n.teamMembers);
    }
  }

  lemma MoveKeepsActive(c: Config, s: Tables, m: Move)
    requires Active(s.members, s.teams, s.teamMembers, s.sessions) && Keyed(s) && Allowed(c, s, m)
    ensures var n := Moved(s, m); Active(n.members, n.teams, n.teamMembers, n.sessions)
  {
    if Adds(m) { AddingKeepsActive(c, s, m); }
    else if m.Unseat? { UnseatKeepsActive(s, m.teamId, m.user); }
    else if m.RemoveTeam? { RemoveTeamKeepsActive(s, m.teamId); }
    else if m.Part? { ActiveParts(s, s.members[m.id]); }
    else if m.Dissolve? { ActiveDissolves(s, m.org); }
    else if m.Activate? { ActiveOpens(s.members, s.teams, s.teamMembers, s.sessions, m.session, m.ended); }
    else if m.Attach? { ActiveAttaches(s, s.sessions[m.id].(org := m.activeOrg, team := m.activeTeam)); }
    else if m.Forget? { ActiveForgets(s.members, s.teams, s.teamMembers, s.sessions, SessionsOf(s.sessions, m.user)); }
  }

  lemma UnseatKeepsActive(s: Tables, t: string, u: string)
    requires Active(s.members, s.teams, s.teamMembers, s.sessions)
    ensures var n := Moved(s, Unseat(t, u)); Active(n.members, n.teams, n.teamMembers, n.sessions)
  {
    var gone, left := SeatsOf(s.teamMembers, {t}, u), OnTeam(s.sessions, t) * SessionsOf(s.sessions, u);
    forall id | id in s.sessions && id !in left && s.sessions[id].team.Some? && HasSeat(s.teamMembers, s.sessions[id].team.value, s.sessions[id].user)
      ensures HasSeat(s.teamMembers - gone, s.sessions[id].team.value, s.sessions[id].user)
    {
      DropSeatsCover(s.teamMembers, gone, s.sessions[id].team.value, s.sessions[id].user);
    }
    ActiveUnseats(s, s.teamMembers - gone, s.teams, left);
  }

  lemma RemoveTeamKeepsActive(s: Tables, t: string)
    requires Active(s.members, s.teams, s.teamMembers, s.sessions)
    ensures var n := Moved(s, RemoveTeam(t)); Active(n.members, n.teams, n.teamMembers, n.sessions)
  {
    var gone, left := SeatsIn(s.teamMembers, {t}), OnTeam(s.sessions, t);
    forall id | id in s.sessions && id !in left && s.sessions[id].team.Some? && HasSeat(s.teamMembers, s.sessions[id].team.value, s.sessions[id].user)
      ensures HasSeat(s.teamMembers - gone, s.sessions[id].team.value, s.sessions[id].user)
    {
      DropSeatsCover(s.teamMembers, gone, s.sessions[id].team.value, s.sessions[id].user);
    }
    ActiveUnseats(s, s.teamMembers - gone, s.teams - {t}, left);
  }

  lemma FoundKeepsWithin(c: Config, organizations: map<string, Organization>, members: map<string, Member>, owner: Member)
    requires MembersWithin(c, members) && MembersHome(organizations, members) && 1 <= c.maxMembers
    requires owner.org !in organizations && owner.id !in members
    ensures MembersWithin(c, members[owner.id := owner])
  {
    assert MembersOf(members, owner.org) == {};
    MembersWithinPut(c, members, owner);
  }

  lemma MoveKeepsMembersWithin(c: Config, s: Tables, m: Move)
    requires MembersWithin(c, s.members) && MembersHome(s.organizations, s.members) && Allowed(c, s, m)
    ensures MembersWithin(c, Moved(s, m).members)
  {
    if m.Found? { FoundKeepsWithin(c, s.organizations, s.members, m.owner); }
    else if m.Join? || m.Accept? { MembersWithinPut(c, s.members, m.member); }
    else if m.Regrade? { MembersWithinRegrade(c, s.members, m.id, m.names); }
    else if m.Part? { MembersWithinDrop(c, s.members, {s.members[m.id].id}); }
    else if m.Dissolve? { MembersWithinDrop(c, s.members, MembersOf(s.members, m.org)); }
  }

  lemma MoveKeepsOtherLimits(c: Config, s: Tables, m: Move)
    requires Within(c, s) && Allowed(c, s, m)
    ensures var n := Moved(s, m); TeamsWithin(c, n.teams) && PendingWithin(c, n.invitations) && RolesWithin(c, n.roles)
  {
    var n := Moved(s, m);
    if m.AddTeam? { TeamsWithinPut(c, s.teams, m.team); }
    else if m.RemoveTeam? { TeamsWithinDrop(c, s.teams, {m.teamId}); }
    else if m.PutRole? { RolesWithinPut(c, s.roles, m.role); }
    else if m.DropRole? { RolesWithinDrop(c, s.roles, {m.id}); }
    else if m.Invite? { PendingWithinPut(c, s.invitations, m.invitation); }
    else if m.Accept? || m.Close? { PendingWithinShrinks(c, s.invitations, n.invitations); }
    else if m.Dissolve? {
      TeamsWithinDrop(c, s.teams, TeamsOf(s.teams, m.org));
      RolesWithinDrop(c, s.roles, RolesOf(s.roles, m.org));
      PendingWithinShrinks(c, s.invitations, n.invitations);
    }
  }

  /** The role strings of an organization outlive a change of the roles. */
  lemma StringsStayDefined(c: Config, s: Tables, m: Move, o: string, role: string)
    requires Allowed(c, s, m) && (m.PutRole? || m.DropRole? || m.Dissolve?) && AllDefined(c, s.roles, o, role)
    requires m.Dissolve? ==> o != m.org
    requires m.DropRole? && o == s.roles[m.id].org ==> !Includes(role, s.roles[m.id].name)
    ensures AllDefined(c, Moved(s, m).roles, o, role)
  {
    if m.PutRole? { PutRoleDefined(c, s.roles, m.role, o, role); }
    else if m.DropRole? { DropRoleDefined(c, s.roles, {m.id}, o, role); }
    else { DropRoleDefined(c, s.roles, RolesOf(s.roles, m.org), o, role); }
  }

  lemma MoveKeepsMembersDefined(c: Config, s: Tables, m: Move)
    requires MembersDefined(c, s.members, s.roles) && PendingDefined(c, s.invitations, s.roles) && Allowed(c, s, m)
    ensures MembersDefined(c, Moved(s, m).members, Moved(s, m).roles)
  {
    var n := Moved(s, m);
    if m.PutRole? || m.DropRole? || m.Dissolve? {
      forall id | id in n.members
        ensures AllDefined(c, n.roles, n.members[id].org, n.members[id].role)
      {
        StringsStayDefined(c, s, m, s.members[id].org, s.members[id].role);
      }
    }
  }

  lemma MoveKeepsPendingDefined(c: Config, s: Tables, m: Move)
    requires PendingDefined(c, s.invitations, s.roles) && Allowed(c, s, m)
    ensures PendingDefined(c, Moved(s, m).invitations, Moved(s, m).roles)
  {
    var n := Moved(s, m);
    if m.PutRole? || m.DropRole? || m.Dissolve? {
      forall id | id in n.invitations && n.invitations[id].status == Pending
        ensures AllDefined(c, n.roles, n.invitations[id].org, n.invitations[id].role)
      {
        StringsStayDefined(c, s, m, s.invitations[id].org, s.invitations[id].role);
      }
    }
  }

  lemma MoveKeepsOwned(c: Config, s: Tables, m: Move)
    requires Owned(c, s.organizations, s.members) && Keyed(s) && Allowed(c, s, m)
    ensures Owned(c, Moved(s, m).organizations, Moved(s, m).members)
  {
    if m.Found? {
      OwnedPut(c, s.organizations, s.members, m.owner);
      OwnerStays(c, s.members, s.members[m.owner.id := m.owner], m.organization.id, m.owner.id);
    } else if m.Join? || m.Accept? {
      OwnedPut(c, s.organizations, s.members, m.member);
    } else if m.Regrade? {
      OwnedPut(c, s.organizations, s.members, s.members[m.id].(role := m.names));
    } else if m.Part? {
      OwnedDrop(c, s.organizations, s.members, m.id);
    } else if m.Dissolve? {
      OwnedDissolve(c, s.organizations, s.members, m.org);
    }
  }

  lemma MoveKeepsInv(c: Config, s: Tables, m: Move)
    requires Inv(c, s) && Allowed(c, s, m)
    ensures Inv(c, Moved(s, m))
  {
    MoveKeepsKeyed(c, s, m);
    MoveKeepsOneMembership(c, s, m);
    MoveKeepsOneSeat(c, s, m);
    MoveKeepsOneRole(c, s, m);
    MoveKeepsOneInvitation(c, s, m);
    MoveKeepsHomes(c, s, m);
    MoveKeepsSeated(c, s, m);
    MoveKeepsActive(c, s, m);
    MoveKeepsMembersWithin(c, s, m);
    MoveKeepsOtherLimits(c, s, m);
    MoveKeepsMembersDefined(c, s, m);
    MoveKeepsPendingDefined(c, s, m);
    MoveKeepsOwned(c, s, m);
  }
}
