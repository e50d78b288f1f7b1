/**
 The organization handlers. Each works on a copy of the rows, which replaces them only when
 the whole transaction succeeds. Hooks between the steps do not write, so the checks that the
 code repeats around them are made once here.
 */
module TenancyHandlers {
  import opened Wrappers
  import opened Scan
  import opened Tenancy
  import opened TenancyPlans
  import RoleNames
  import Strings

  type Reply = Result<(), Error>

  ghost predicate Answers(reply: Reply, plan: Plan) {
    reply.Success? == plan.Success? && (reply.Failure? ==> reply.error == plan.error)
  }

  /** What a transaction commits, or why it is rolled back. */
  function Outcome(s: Tables, plan: Plan): Result<Tables, Error> {
    if plan.Success? then Success(Moved(s, plan.value)) else Failure(plan.error)
  }

  // ---------------------------------------------------------------- reading

  /** FindOne on the unique key of the member table. */
  method FindMember(s: Tables, o: string, u: string) returns (row: Option<string>)
    requires OneMembership(s.members)
    ensures row == MemberRow(s, o, u)
  {
    row := First(s.members, (m: Member) => Belongs(m, o, u));
    if row.Some? { assert IsMember(s.members, o, u); }
  }

  method FindRole(s: Tables, o: string, name: string) returns (row: Option<string>)
    requires OneRole(s.roles)
    ensures row == RoleRow(s, o, name)
  {
    row := First(s.roles, (r: Role) => IsRole(r, o, name));
  }

  method FindInvitation(s: Tables, o: string, email: string) returns (row: Option<string>)
    requires OneInvitation(s.invitations)
    ensures row == InvitationRow(s, o, email)
  {
    row := First(s.invitations, (i: Invitation) => Invites(i, o, email));
    if row.Some? {
      assert forall j | j in s.invitations && Invites(s.invitations[j], o, email) :: j == row.value;
    }
  }

  /** permission: built-in roles first, then the organization's own. */
  method Permission(c: Config, s: Tables, o: string, role: string, right: Right) returns (allowed: bool)
    requires OneRole(s.roles)
    ensures allowed == Permits(c, s.roles, o, role, right)
  {
    var names := Strings.Split(role, ',');
    for i := 0 to |names|
      invariant forall name | name in names[..i] :: !StaticPermits(c, name, right)
    {
      if names[i] in c.statics && right in c.statics[names[i]] {
        assert StaticPermits(c, names[i], right);
        return true;
      }
    }
    assert names[..|names|] == names;
    for i := 0 to |names|
      invariant forall name | name in names[..i] :: !DynamicPermits(s.roles, o, name, right)
    {
      var row := FindRole(s, o, names[i]);
      if row.Some? && right in s.roles[row.value].rights {
        assert DynamicPermits(s.roles, o, names[i], right);
        return true;
      }
      assert !DynamicPermits(s.roles, o, names[i], right);
    }
    return false;
  }

  /** authorize. */
  method Authorize(c: Config, s: Tables, o: string, u: string, right: Right) returns (actor: Result<Member, Error>)
    requires OneMembership(s.members) && OneRole(s.roles)
    ensures actor == Authorized(c, s, o, u, right)
  {
    var row := FindMember(s, o, u);
    if row.None? {
      return Failure(Forbidden);
    }
    var allowed := Permission(c, s, o, s.members[row.value].role, right);
    return if allowed then Success(s.members[row.value]) else Failure(Forbidden);
  }

  /** requireGrantablePermission. */
  method RequireGrantable(c: Config, s: Tables, o: string, role: string, rights: set<Right>) returns (grantable: bool)
    requires OneRole(s.roles)
    ensures grantable == Grantable(c, s.roles, o, role, rights)
  {
    var rest := rights;
    while rest != {}
      invariant rest <= rights
      invariant forall right | right in rights - rest :: Permits(c, s.roles, o, role, right)
    {
      var right :| right in rest;
      var allowed := Permission(c, s, o, role, right);
      if !allowed {
        return false;
      }
      rest := rest - {right};
    }
    return true;
  }

  /** requireDefinedRoles. */
  method RequireDefined(c: Config, s: Tables, o: string, role: string) returns (defined: bool)
    ensures defined == AllDefined(c, s.roles, o, role)
  {
    var names := Strings.Split(role, ',');
    for i := 0 to |names|
      invariant forall name | name in names[..i] :: Defined(c, s.roles, o, name)
    {
      if names[i] !in c.statics {
        var row := First(s.roles, (r: Role) => IsRole(r, o, names[i]));
        if row.None? {
          assert !Defined(c, s.roles, o, names[i]);
          return false;
        }
      }
      assert Defined(c, s.roles, o, names[i]);
    }
    assert names[..|names|] == names;
    return true;
  }

  /** ownerCount reads every member of the organization, a page at a time. */
  method OwnerCount(c: Config, s: Tables, o: string) returns (count: nat)
    requires ValidConfig(c) && MembersWithin(c, s.members)
    ensures count == |OwnersOf(c, s.members, o)|
  {
    var wanted := (m: Member) => m.org == o;
    assert Matching(s.members, wanted) == MembersOf(s.members, o);
    var ids := FindManyBounded(s.members, wanted, 100_000);
    assert Lists(ids, MembersOf(s.members, o));
    count := CountOwners(c, s, o, ids);
  }

  method CountOwners(c: Config, s: Tables, o: string, ids: seq<string>) returns (count: nat)
    requires Lists(ids, MembersOf(s.members, o))
    ensures count == |OwnersOf(c, s.members, o)|
  {
    count := 0;
    ghost var counted: set<string> := {};
    for i := 0 to |ids|
      invariant count == |counted|
      invariant forall id | id in counted :: id in ids[..i]
      invariant forall id | id in ids[..i] :: id in counted <==> id in OwnersOf(c, s.members, o)
    {
      assert ids[i] in ids && ids[i] !in ids[..i];
      assert ids[..i + 1] == ids[..i] + [ids[i]];
      if c.creator in Strings.Split(s.members[ids[i]].role, ',') {
        count := count + 1;
        counted := counted + {ids[i]};
      }
    }
    assert ids[..|ids|] == ids;
    assert counted == OwnersOf(c, s.members, o);
  }

  /** The scan of deleteRole over the members of the organization. */
  method MembersUse(c: Config, s: Tables, r: Role) returns (used: bool)
    requires ValidConfig(c) && MembersWithin(c, s.members)
    ensures used <==> exists id | id in MembersOf(s.members, r.org) :: Includes(s.members[id].role, r.name)
  {
    var wanted := (m: Member) => m.org == r.org;
    assert Matching(s.members, wanted) == MembersOf(s.members, r.org);
    var ids := FindManyBounded(s.members, wanted, c.maxMembers);
    assert Lists(ids, MembersOf(s.members, r.org));
    for i := 0 to |ids|
      invariant forall id | id in ids[..i] :: id in s.members && !Includes(s.members[id].role, r.name)
    {
      assert ids[i] in ids;
      if Includes(s.members[ids[i]].role, r.name) {
        return true;
      }
    }
    assert ids[..|ids|] == ids;
    return false;
  }

  /** And over its pending invitations. */
  method InvitationsUse(c: Config, s: Tables, r: Role) returns (used: bool)
    requires ValidConfig(c) && PendingWithin(c, s.invitations)
    ensures used <==> exists id | id in PendingOf(s.invitations, r.org) :: Includes(s.invitations[id].role, r.name)
  {
    var wanted := (i: Invitation) => i.org == r.org && i.status == Pending;
    assert Matching(s.invitations, wanted) == PendingOf(s.invitations, r.org);
    var ids := FindManyBounded(s.invitations, wanted, c.maxInvitations);
    assert Lists(ids, PendingOf(s.invitations, r.org));
    for i := 0 to |ids|
      invariant forall id | id in ids[..i] :: id in s.invitations && !Includes(s.invitations[id].role, r.name)
    {
      assert ids[i] in ids;
      if Includes(s.invitations[ids[i]].role, r.name) {
        return true;
      }
    }
    assert ids[..|ids|] == ids;
    return false;
  }

  // ---------------------------------------------------------------- writing

  /** removeUserFromOrganizationTeams: one bulk delete for each team. */
  method RemoveFromTeams(c: Config, s: Tables, o: string, user: string) returns (seats: map<string, TeamMember>)
    requires ValidConfig(c) && TeamsWithin(c, s.teams)
    ensures seats == s.teamMembers - SeatsOf(s.teamMembers, TeamsOf(s.teams, o), user)
  {
    var wanted := (t: Team) => t.org == o;
    assert Matching(s.teams, wanted) == TeamsOf(s.teams, o);
    var ids := FindManyBounded(s.teams, wanted, 100_000);
    assert Lists(ids, TeamsOf(s.teams, o));
    seats := RemoveSeats(s.teamMembers, ids, user);
    assert Prefix(ids, |ids|) == TeamsOf(s.teams, o) by { assert ids[..|ids|] == ids; }
  }

  method RemoveSeats(before: map<string, TeamMember>, ids: seq<string>, user: string) returns (seats: map<string, TeamMember>)
    ensures seats == before - SeatsOf(before, Prefix(ids, |ids|), user)
  {
    seats := before;
    for i := 0 to |ids|
      invariant seats == before - SeatsOf(before, Prefix(ids, i), user)
    {
      var gone := All(seats, (x: TeamMember) => x.team == ids[i] && x.user == user);
      seats := seats - gone;
      assert Prefix(ids, i + 1) == Prefix(ids, i) + {ids[i]};
    }
  }

  /** The first pass of deleteOrganization empties every team. */
  method EmptyTeams(c: Config, s: Tables, o: string) returns (seats: map<string, TeamMember>)
    requires ValidConfig(c) && TeamsWithin(c, s.teams)
    ensures seats == s.teamMembers - SeatsIn(s.teamMembers, TeamsOf(s.teams, o))
  {
    var wanted := (t: Team) => t.org == o;
    assert Matching(s.teams, wanted) == TeamsOf(s.teams, o);
    var ids := FindManyBounded(s.teams, wanted, c.maxTeams);
    assert Lists(ids, TeamsOf(s.teams, o));
    seats := EmptySeats(s.teamMembers, ids);
    assert Prefix(ids, |ids|) == TeamsOf(s.teams, o) by { assert ids[..|ids|] == ids; }
  }

  method EmptySeats(before: map<string, TeamMember>, ids: seq<string>) returns (seats: map<string, TeamMember>)
    ensures seats == before - SeatsIn(before, Prefix(ids, |ids|))
  {
    seats := before;
    for i := 0 to |ids|
      invariant seats == before - SeatsIn(before, Prefix(ids, i))
    {
      var gone := All(seats, (x: TeamMember) => x.team == ids[i]);
      seats := seats - gone;
      assert Prefix(ids, i + 1) == Prefix(ids, i) + {ids[i]};
    }
  }

  function Prefix(ids: seq<string>, n: nat): set<string>
    requires n <= |ids|
  {
    set id | id in ids[..n]
  }

  /** The transaction of deleteOrganization. */
  method DeleteRows(c: Config, s: Tables, o: string) returns (tx: Tables)
    requires ValidConfig(c) && TeamsWithin(c, s.teams)
    ensures tx == Dissolved(s, o)
  {
    var seats := EmptyTeams(c, s, o);
    tx := s.(teamMembers := seats);
    var invitations := All(tx.invitations, (i: Invitation) => i.org == o);
    assert invitations == InvitationsOf(s.invitations, o);
    tx := tx.(invitations := tx.invitations - invitations);
    var members := All(tx.members, (m: Member) => m.org == o);
    assert members == MembersOf(s.members, o);
    tx := tx.(members := tx.members - members);
    var teams := All(tx.teams, (t: Team) => t.org == o);
    assert teams == TeamsOf(s.teams, o);
    tx := tx.(teams := tx.teams - teams);
    var roles := All(tx.roles, (r: Role) => r.org == o);
    assert roles == RolesOf(s.roles, o);
    tx := tx.(roles := tx.roles - roles);
    tx := tx.(organizations := tx.organizations - {o});
    var sessions := All(tx.sessions, (x: Session) => x.org == Some(o));
    assert sessions == ActiveIn(s.sessions, o);
    tx := tx.(sessions := LeaveOrg(tx.sessions, sessions));
  }

  /** The transaction of removeTeam. */
  method DeleteTeam(s: Tables, t: string) returns (tx: Tables)
    ensures tx == Moved(s, RemoveTeam(t))
  {
    var seats := All(s.teamMembers, (x: TeamMember) => x.team == t);
    tx := s.(teamMembers := s.teamMembers - seats);
    tx := tx.(teams := tx.teams - {t});
    var sessions := All(tx.sessions, (x: Session) => x.team == Some(t));
    tx := tx.(sessions := LeaveTeam(tx.sessions, sessions));
    assert seats == SeatsIn(s.teamMembers, {t}) && sessions == OnTeam(s.sessions, t);
  }

  /** The transaction of removeTeamMember. */
  method DeleteSeat(s: Tables, t: string, user: string) returns (tx: Tables)
    requires OneSeat(s.teamMembers)
    ensures tx == Moved(s, Unseat(t, user))
  {
    tx := s;
    var seat := First(tx.teamMembers, (x: TeamMember) => Sits(x, t, user));
    if seat.Some? {
      tx := tx.(teamMembers := tx.teamMembers - {seat.value});
    }
    OneSeatToDrop(s.teamMembers, t, user, seat);
    var sessions := All(tx.sessions, (x: Session) => x.user == user && x.team == Some(t));
    assert sessions == OnTeam(s.sessions, t) * SessionsOf(s.sessions, user);
    tx := tx.(sessions := LeaveTeam(tx.sessions, sessions));
  }

  /** The transaction of removeMember and leaveOrganization, once the member may go. */
  method DeleteMember(c: Config, s: Tables, id: string) returns (tx: Tables)
    requires ValidConfig(c) && TeamsWithin(c, s.teams) && id in s.members && s.members[id].id == id
    ensures tx == Moved(s, Part(id))
  {
    var m := s.members[id];
    tx := s.(members := s.members - {id});
    var seats := RemoveFromTeams(c, tx, m.org, m.user);
    tx := tx.(teamMembers := seats);
    var sessions := All(tx.sessions, (x: Session) => x.user == m.user && x.org == Some(m.org));
    assert sessions == ActiveIn(s.sessions, m.org) * SessionsOf(s.sessions, m.user);
    tx := tx.(sessions := LeaveOrg(tx.sessions, sessions));
  }

  // ---------------------------------------------------------------- checks

  /** Whether the organization has room for another member. With limits of at most 1000 the
      capped count decides it exactly. */
  method MembersFull(c: Config, s: Tables, o: string) returns (full: bool)
    requires ValidConfig(c)
    ensures full == (|MembersOf(s.members, o)| >= c.maxMembers)
  {
    var inOrg := (m: Member) => m.org == o;
    assert Matching(s.members, inOrg) == MembersOf(s.members, o);
    var count := Count(s.members, inOrg);
    return count >= c.maxMembers;
  }

  method InvitationsFull(c: Config, s: Tables, o: string) returns (full: bool)
    requires ValidConfig(c)
    ensures full == (|PendingOf(s.invitations, o)| >= c.maxInvitations)
  {
    var waiting := (x: Invitation) => x.org == o && x.status == Pending;
    assert Matching(s.invitations, waiting) == PendingOf(s.invitations, o);
    var count := Count(s.invitations, waiting);
    return count >= c.maxInvitations;
  }

  /** The role a caller asks for, in canonical form, when it may be given. */
  method CheckRole(c: Config, s: Tables, o: string, actor: Member, raw: string) returns (role: Result<string, Error>)
    ensures var canonical := RoleNames.Canonical([raw]);
            role == if canonical.None? then Failure(BadRequest)
                    else if RoleRefusal(c, s, o, actor, canonical.value).Some? then Failure(RoleRefusal(c, s, o, actor, canonical.value).value)
                    else Success(canonical.value)
  {
    var canonical := RoleNames.CanonicalRoles([raw]);
    if canonical.None? {
      return Failure(BadRequest);
    }
    var defined := RequireDefined(c, s, o, canonical.value);
    if !defined {
      return Failure(BadRequest);
    }
    if Includes(canonical.value, c.creator) && !Includes(actor.role, c.creator) {
      return Failure(Forbidden);
    }
    return Success(canonical.value);
  }

  /** Everything inviteMember checks before it writes. */
  method CheckInvitation(c: Config, s: Tables, u: string, i: Invitation, raw: string, holder: Option<string>) returns (role: Result<string, Error>)
    requires ValidConfig(c) && OneMembership(s.members) && OneRole(s.roles)
    ensures role.Failure? ==> forall now, resend :: PlanInvite(c, s, u, i, raw, now, resend, holder) == Failure(role.error)
    ensures role.Success? ==> forall now, resend ::
              PlanInvite(c, s, u, i, raw, now, resend, holder) == PlanInvitation(s, i.(role := role.value), now, resend)
  {
    var actor :- Authorize(c, s, i.org, u, InvitationCreate);
    var canonical :- CheckRole(c, s, i.org, actor, raw);
    if i.team != "" && (i.team !in s.teams || s.teams[i.team].org != i.org) {
      return Failure(NotFound);
    }
    var full := MembersFull(c, s, i.org);
    if full {
      return Failure(Conflict);
    }
    full := InvitationsFull(c, s, i.org);
    if full {
      return Failure(Conflict);
    }
    if holder.Some? {
      var row := FindMember(s, i.org, holder.value);
      if row.Some? {
        return Failure(Conflict);
      }
    }
    if i.org !in s.organizations {
      return Failure(NotFound);
    }
    return Success(canonical);
  }

  /** The transaction of acceptInvitation. */
  method TakeInvitation(c: Config, s: Tables, u: string, email: string, id: string, memberId: string, seatId: string, now: int) returns (r: Result<Tables, Error>)
    requires ValidConfig(c)
    ensures r == Outcome(s, PlanAccept(c, s, u, email, true, id, memberId, seatId, now))
  {
    if id !in s.invitations || s.invitations[id].status != Pending || s.invitations[id].email != Strings.ToLower(email) {
      return Failure(BadRequest);
    }
    var i := s.invitations[id];
    if i.expiresAt <= now {
      return Failure(BadRequest);
    }
    var defined := RequireDefined(c, s, i.org, i.role);
    if !defined {
      return Failure(BadRequest);
    }
    var full := MembersFull(c, s, i.org);
    if full {
      return Failure(Conflict);
    }
    var tx := s.(invitations := s.invitations[id := i.(status := Accepted)]);
    var member := Member(memberId, i.org, u, i.role);
    if MemberRefusal(tx, member).Some? {
      return Failure(MemberRefusal(tx, member).value);
    }
    tx := tx.(members := tx.members[memberId := member]);
    if i.team != "" {
      if i.team !in tx.teams || tx.teams[i.team].org != i.org {
        return Failure(BadRequest);
      }
      var seat := TeamMember(seatId, i.team, u);
      if SeatInsertRefusal(tx, seat).Some? {
        return Failure(SeatInsertRefusal(tx, seat).value);
      }
      tx := tx.(teamMembers := tx.teamMembers[seatId := seat]);
    }
    return Success(tx);
  }

  /** Everything createRole checks once the actor may create roles. */
  method CheckNewRole(c: Config, s: Tables, actor: Member, r: Role) returns (refusal: Option<Error>)
    requires ValidConfig(c) && OneRole(s.roles)
    ensures forall u | Authorized(c, s, r.org, u, TenancyPlans.RoleCreate) == Success(actor) ::
              PlanCreateRole(c, s, u, r) == if refusal.Some? then Failure(refusal.value) else Success(PutRole(r))
  {
    var valid := RoleNames.ValidRoleName(r.name);
    if !valid {
      return Some(BadRequest);
    }
    if r.name in c.statics {
      return Some(Conflict);
    }
    if r.rights == {} || !(r.rights <= c.statements) {
      return Some(BadRequest);
    }
    var grantable := RequireGrantable(c, s, r.org, actor.role, r.rights);
    if !grantable {
      return Some(Forbidden);
    }
    var mine := (x: Role) => x.org == r.org;
    assert Matching(s.roles, mine) == RolesOf(s.roles, r.org);
    var count := Count(s.roles, mine);
    if count >= c.maxRoles {
      return Some(Conflict);
    }
    if r.id == "" {
      return Some(Internal);
    }
    var row := FindRole(s, r.org, r.name);
    if r.id in s.roles || row.Some? {
      return Some(Conflict);
    }
    return None;
  }

  /** The two scans of deleteRole. */
  method RoleInUse(c: Config, s: Tables, r: Role) returns (used: bool)
    requires ValidConfig(c) && MembersWithin(c, s.members) && PendingWithin(c, s.invitations)
    ensures used == !Unused(s, r)
  {
    used := MembersUse(c, s, r);
    if !used {
      used := InvitationsUse(c, s, r);
    }
    assert forall id | id in s.members && s.members[id].org == r.org :: id in MembersOf(s.members, r.org);
    assert forall id | id in s.invitations && s.invitations[id].org == r.org && s.invitations[id].status == Pending ::
        id in PendingOf(s.invitations, r.org);
  }

  // ---------------------------------------------------------------- transactions

  /** The transaction of addTeamMember. */
  method SeatRows(c: Config, s: Tables, u: string, t: string, user: string, id: string) returns (r: Result<Tables, Error>)
    requires OneMembership(s.members) && OneRole(s.roles)
    ensures r == Outcome(s, PlanSeat(c, s, u, TeamMember(id, t, user)))
  {
    if t !in s.teams {
      return Failure(NotFound);
    }
    var actor :- Authorize(c, s, s.teams[t].org, u, TeamUpdate);
    var row := FindMember(s, s.teams[t].org, user);
    if row.None? {
      return Failure(BadRequest);
    }
    var seat := TeamMember(id, t, user);
    if SeatRefusal(s, seat).Some? {
      return Failure(SeatRefusal(s, seat).value);
    }
    return Success(s.(teamMembers := s.teamMembers[id := seat]));
  }

  /** transitionInvitation for the invited user. */
  method RejectRows(c: Config, s: Tables, email: string, verified: bool, invitation: string) returns (r: Result<Tables, Error>)
    ensures r == Outcome(s, PlanReject(s, email, verified, invitation))
  {
    if invitation !in s.invitations || s.invitations[invitation].status != Pending {
      return Failure(BadRequest);
    }
    if !verified || Strings.ToLower(s.invitations[invitation].email) != Strings.ToLower(email) {
      return Failure(Forbidden);
    }
    return Success(s.(invitations := s.invitations[invitation := s.invitations[invitation].(status := Rejected)]));
  }

  /** transitionInvitation for a manager. */
  method CancelRows(c: Config, s: Tables, u: string, invitation: string) returns (r: Result<Tables, Error>)
    requires OneMembership(s.members) && OneRole(s.roles)
    ensures r == Outcome(s, PlanCancel(c, s, u, invitation))
  {
    if invitation !in s.invitations || s.invitations[invitation].status != Pending {
      return Failure(BadRequest);
    }
    var actor :- Authorize(c, s, s.invitations[invitation].org, u, InvitationCancel);
    return Success(s.(invitations := s.invitations[invitation := s.invitations[invitation].(status := Canceled)]));
  }

  /** The transaction of createRole. */
  method CreateRoleRows(c: Config, s: Tables, u: string, r: Role) returns (result: Result<Tables, Error>)
    requires ValidConfig(c) && OneMembership(s.members) && OneRole(s.roles)
    ensures result == Outcome(s, PlanCreateRole(c, s, u, r))
  {
    var actor :- Authorize(c, s, r.org, u, TenancyPlans.RoleCreate);
    var refusal := CheckNewRole(c, s, actor, r);
    if refusal.Some? {
      return Failure(refusal.value);
    }
    return Success(s.(roles := s.roles[r.id := r]));
  }

  /** The transaction of updateRole. */
  method UpdateRoleRows(c: Config, s: Tables, u: string, o: string, name: string, rights: set<Right>) returns (r: Result<Tables, Error>)
    requires OneMembership(s.members) && OneRole(s.roles)
    requires Keyed(s)
    ensures r == Outcome(s, PlanUpdateRole(c, s, u, o, Strings.ToLower(name), rights))
  {
    var actor :- Authorize(c, s, o, u, RoleUpdate);
    var lower := Strings.ToLower(name);
    if lower in c.statics {
      return Failure(Conflict);
    }
    if rights == {} || !(rights <= c.statements) {
      return Failure(BadRequest);
    }
    var grantable := RequireGrantable(c, s, o, actor.role, rights);
    if !grantable {
      return Failure(Forbidden);
    }
    var row := FindRole(s, o, lower);
    if row.None? {
      return Failure(NotFound);
    }
    return Success(s.(roles := s.roles[row.value := s.roles[row.value].(rights := rights)]));
  }

  /** The transaction of deleteRole. */
  method DeleteRoleRows(c: Config, s: Tables, u: string, o: string, name: string) returns (r: Result<Tables, Error>)
    requires OneMembership(s.members) && OneRole(s.roles)
    requires ValidConfig(c) && MembersWithin(c, s.members) && PendingWithin(c, s.invitations)
    ensures r == Outcome(s, PlanDeleteRole(c, s, u, o, Strings.ToLower(name)))
  {
    var actor :- Authorize(c, s, o, u, RoleDelete);
    var lower := Strings.ToLower(name);
    if lower in c.statics {
      return Failure(Conflict);
    }
    var row := FindRole(s, o, lower);
    if row.None? {
      return Failure(NotFound);
    }
    var used := RoleInUse(c, s, s.roles[row.value]);
    if used {
      return Failure(Conflict);
    }
    return Success(s.(roles := s.roles - {row.value}));
  }

  /** The transaction of updateMemberRole. */
  method RegradeRows(c: Config, s: Tables, u: string, o: string, member: string, role: string) returns (r: Result<Tables, Error>)
    requires OneMembership(s.members) && OneRole(s.roles)
    requires ValidConfig(c) && MembersWithin(c, s.members)
    ensures r == Outcome(s, PlanUpdateRoleOf(c, s, u, o, member, role))
  {
    var actor :- Authorize(c, s, o, u, MemberUpdate);
    var canonical :- CheckRole(c, s, o, actor, role);
    r := RegradeMember(c, s, actor, o, member, canonical);
  }

  method RegradeMember(c: Config, s: Tables, actor: Member, o: string, member: string, role: string) returns (r: Result<Tables, Error>)
    requires ValidConfig(c) && MembersWithin(c, s.members)
    ensures r == Outcome(s, PlanRegrade(c, s, actor, o, member, role))
  {
    if member !in s.members || s.members[member].org != o {
      return Failure(NotFound);
    }
    var current := s.members[member];
    if Includes(current.role, c.creator) && !Includes(role, c.creator) {
      if !Includes(actor.role, c.creator) {
        return Failure(Forbidden);
      }
      var count := OwnerCount(c, s, o);
      if count <= 1 {
        return Failure(Conflict);
      }
    }
    return Success(s.(members := s.members[member := current.(role := role)]));
  }

  /** The transaction of AddMember. */
  method JoinRows(c: Config, s: Tables, o: string, user: string, names: seq<string>, id: string, known: bool) returns (r: Result<Tables, Error>)
    requires ValidConfig(c)
    ensures r == Outcome(s, PlanAddMember(c, s, o, user, names, id, known))
  {
    var role := RoleNames.CanonicalRoles(names);
    if o == "" || user == "" || role.None? {
      return Failure(BadRequest);
    }
    if o !in s.organizations || !known {
      return Failure(NotFound);
    }
    var full := MembersFull(c, s, o);
    if full {
      return Failure(Conflict);
    }
    var defined := RequireDefined(c, s, o, role.value);
    if !defined {
      return Failure(BadRequest);
    }
    var member := Member(id, o, user, role.value);
    if MemberRefusal(s, member).Some? {
      return Failure(MemberRefusal(s, member).value);
    }
    return Success(s.(members := s.members[id := member]));
  }

  /** A session replaces the current one, if the request has one. */
  method IssueRows(s: Tables, x: Session, current: string) returns (r: Result<Tables, Error>)
    ensures r == Outcome(s, Issue(s, x, current))
  {
    if current != "" && (current !in s.sessions || !s.sessions[current].live) {
      return Failure(Internal);
    }
    if x.id == "" || x.id in s.sessions {
      return Failure(Internal);
    }
    return Success(s.(sessions := End(s.sessions, {current})[x.id := x]));
  }

  method AttachRows(s: Tables, u: string, o: string, t: string, id: string) returns (r: Result<Tables, Error>)
    ensures r == Outcome(s, PlanAttach(s, u, o, t, id))
  {
    if o != "" {
      var member := First(s.members, (m: Member) => Belongs(m, o, u));
      if member.None? {
        return Failure(Internal);
      }
    }
    if t != "" {
      if t !in s.teams || s.teams[t].org != o {
        return Failure(Internal);
      }
      var seat := First(s.teamMembers, (x: TeamMember) => Sits(x, t, u));
      if seat.None? {
        return Failure(Internal);
      }
    }
    if id !in s.sessions || s.sessions[id].user != u || !s.sessions[id].live {
      return Failure(Internal);
    }
    return Success(s.(sessions := s.sessions[id := s.sessions[id].(org := Named(o), team := Named(t))]));
  }

  /** The transaction of inviteMember. */
  method InviteRows(c: Config, s: Tables, u: string, i: Invitation, raw: string, now: int, resend: bool, holder: Option<string>) returns (r: Result<Tables, Error>)
    requires ValidConfig(c) && OneMembership(s.members) && OneRole(s.roles) && OneInvitation(s.invitations)
    ensures r == Outcome(s, PlanInvite(c, s, u, i, raw, now, resend, holder))
  {
    var role :- CheckInvitation(c, s, u, i, raw, holder);
    r := PutInvitation(s, i.(role := role), now, resend);
  }

  /** A renewed invitation keeps its row. */
  method PutInvitation(s: Tables, i: Invitation, now: int, resend: bool) returns (r: Result<Tables, Error>)
    requires OneInvitation(s.invitations)
    ensures r == Outcome(s, PlanInvitation(s, i, now, resend))
  {
    var existing := FindInvitation(s, i.org, i.email);
    if existing.Some? {
      var current := s.invitations[existing.value];
      if current.status == Pending && current.expiresAt > now && !resend {
        return Failure(Conflict);
      }
      if i.email == "" {
        return Failure(Internal);
      }
      return Success(s.(invitations := s.invitations[existing.value := i.(id := existing.value)]));
    }
    if i.id == "" {
      return Failure(Internal);
    }
    if i.id in s.invitations {
      return Failure(Conflict);
    }
    if i.email == "" {
      return Failure(Internal);
    }
    return Success(s.(invitations := s.invitations[i.id := i]));
  }

  // ---------------------------------------------------------------- handlers

  ghost predicate Did(c: Config, before: Tables, call: Call, after: Tables, reply: Reply) {
    after == Next(c, before, call) && Answers(reply, PlanOf(c, before, call))
  }

  /** Issuing may be refused; otherwise attaching follows on the rows with the issued session. */
  ghost predicate Rotated(c: Config, before: Tables, u: string, o: string, t: string, id: string, current: string, after: Tables, reply: Reply) {
    var issued := Next(c, before, Call.IssueSession(u, id, current));
    if PlanOf(c, before, Call.IssueSession(u, id, current)).Failure? then Did(c, before, Call.IssueSession(u, id, current), after, reply)
    else Did(c, issued, Call.AttachSession(u, o, t, id), after, reply)
  }

  lemma RotationIsPlanned(c: Config, s: Tables, u: string, o: string, t: string, id: string, current: string)
    requires (o != "" ==> IsMember(s.members, o, u)) && (t != "" ==> TeamIn(s, o, t) && HasSeat(s.teamMembers, t, u))
    ensures forall after, reply | Rotated(c, s, u, o, t, id, current, after, reply) ::
              var plan := Issue(s, Session(id, u, true, Named(o), Named(t)), current);
              Answers(reply, plan) && after == if plan.Success? then Moved(s, plan.value) else s
  {
    if id != "" && id !in s.sessions { IssueThenAttach(s, u, o, t, id, current); }
  }

  lemma InvitePlan(c: Config, s: Tables, call: Call)
    requires call.InviteMember?
    ensures var i := NewInvitation(call.id, call.o, call.email, call.team, call.now, call.ttl);
            var r := Outcome(s, PlanInvite(c, s, call.u, i, call.role, call.now, call.resend, call.holder));
            if r.Success? then Did(c, s, call, r.value, Success(())) else Did(c, s, call, s, Failure(r.error))
  {
  }

  class Organizations {
    const config: Config
    var rows: Tables

    ghost predicate Valid()
      reads this
    {
      ValidConfig(config) && Inv(config, rows)
    }

    constructor (config: Config)
      requires ValidConfig(config)
      ensures Valid() && this.config == config && rows == Empty
    {
      this.config, rows := config, Empty;
      EmptyIsSound(config);
    }

    // -------------------------------------------------------------- organizations

    method CreateOrganization(u: string, id: string, name: string, slug: string, memberId: string) returns (reply: Reply)
      requires Valid()
      modifies this
      ensures Valid() && Did(config, old(rows), Call.CreateOrganization(u, id, name, slug, memberId), rows, reply)
    {
      StepKeepsInv(config, rows, Call.CreateOrganization(u, id, name, slug, memberId));
      var mine := (m: Member) => m.user == u;
      assert Matching(rows.members, mine) == MembershipsOf(rows.members, u);
      var count := Count(rows.members, mine);
      if count >= config.maxOrganizations {
        return Failure(Conflict);
      }
      var organization, owner := Organization(id, name, slug), Member(memberId, id, u, config.creator);
      if OrganizationRefusal(rows, organization).Some? {
        return Failure(OrganizationRefusal(rows, organization).value);
      }
      var tx := rows.(organizations := rows.organizations[id := organization]);
      if MemberRefusal(tx, owner).Some? {
        return Failure(MemberRefusal(tx, owner).value);
      }
      tx := tx.(members := tx.members[memberId := owner]);
      rows := tx;
      return Success(());
    }

    method DeleteOrganization(u: string, o: string) returns (reply: Reply)
      requires Valid()
      modifies this
      ensures Valid() && Did(config, old(rows), Call.DeleteOrganization(u, o), rows, reply)
    {
      StepKeepsInv(config, rows, Call.DeleteOrganization(u, o));
      var actor :- Authorize(config, rows, o, u, OrganizationDelete);
      rows := DeleteRows(config, rows, o);
      return Success(());
    }

    method SetActiveOrganization(u: string, o: string, id: string, current: string) returns (reply: Reply)
      requires Valid()
      modifies this
      ensures Valid() && Did(config, old(rows), Call.SetActiveOrganization(u, o, id, current), rows, reply)
    {
      StepKeepsInv(config, rows, Call.SetActiveOrganization(u, o, id, current));
      if o != "" {
        var row := FindMember(rows, o, u);
        if row.None? {
          return Failure(Forbidden);
        }
        if o !in rows.organizations {
          return Failure(NotFound);
        }
      }
      RotationIsPlanned(config, rows, u, o, "", id, current);
      reply := RotateActiveSession(u, o, "", id, current);
    }

    /** The session that IssueSession hands out replaces the current one. */
    method IssueSession(u: string, id: string, current: string) returns (reply: Reply)
      requires Valid()
      modifies this
      ensures Valid() && Did(config, old(rows), Call.IssueSession(u, id, current), rows, reply)
    {
      StepKeepsInv(config, rows, Call.IssueSession(u, id, current));
      rows :- IssueRows(rows, Session(id, u, true, None, None), current);
      return Success(());
    }

    /** The transaction of rotateActiveSession. */
    method AttachSession(u: string, o: string, t: string, id: string) returns (reply: Reply)
      requires Valid()
      modifies this
      ensures Valid() && Did(config, old(rows), Call.AttachSession(u, o, t, id), rows, reply)
    {
      StepKeepsInv(config, rows, Call.AttachSession(u, o, t, id));
      rows :- AttachRows(rows, u, o, t, id);
      return Success(());
    }

    /** rotateActiveSession: when its transaction fails, the issued session stays, without an active
        organization. */
    method RotateActiveSession(u: string, o: string, t: string, id: string, current: string) returns (reply: Reply)
      requires Valid()
      modifies this
      ensures Valid() && Rotated(config, old(rows), u, o, t, id, current, rows, reply)
    {
      var issued :- IssueSession(u, id, current);
      reply := AttachSession(u, o, t, id);
    }

    // -------------------------------------------------------------- teams

    method CreateTeam(u: string, o: string, id: string, name: string) returns (reply: Reply)
      requires Valid()
      modifies this
      ensures Valid() && Did(config, old(rows), Call.CreateTeam(u, o, id, name), rows, reply)
    {
      StepKeepsInv(config, rows, Call.CreateTeam(u, o, id, name));
      var actor :- Authorize(config, rows, o, u, TeamCreate);
      var mine := (t: Team) => t.org == o;
      assert Matching(rows.teams, mine) == TeamsOf(rows.teams, o);
      var count := Count(rows.teams, mine);
      if count >= config.maxTeams {
        return Failure(Conflict);
      }
      var team := Team(id, o, name);
      if TeamRefusal(rows, team).Some? {
        return Failure(TeamRefusal(rows, team).value);
      }
      rows := rows.(teams := rows.teams[id := team]);
      return Success(());
    }

    method RemoveTeam(u: string, t: string) returns (reply: Reply)
      requires Valid()
      modifies this
      ensures Valid() && Did(config, old(rows), Call.RemoveTeamById(u, t), rows, reply)
    {
      StepKeepsInv(config, rows, Call.RemoveTeamById(u, t));
      if t !in rows.teams {
        return Failure(NotFound);
      }
      var actor :- Authorize(config, rows, rows.teams[t].org, u, TeamDelete);
      rows := DeleteTeam(rows, t);
      return Success(());
    }

    method SetActiveTeam(u: string, t: string, id: string, current: string) returns (reply: Reply)
      requires Valid()
      modifies this
      ensures Valid() && Did(config, old(rows), Call.SetActiveTeam(u, t, id, current), rows, reply)
    {
      StepKeepsInv(config, rows, Call.SetActiveTeam(u, t, id, current));
      if t == "" {
        RotationIsPlanned(config, rows, u, "", "", id, current);
        reply := RotateActiveSession(u, "", "", id, current);
        return;
      }
      if t !in rows.teams {
        return Failure(NotFound);
      }
      var team := rows.teams[t];
      var row := FindMember(rows, team.org, u);
      if row.None? {
        return Failure(Forbidden);
      }
      var seat := First(rows.teamMembers, (x: TeamMember) => Sits(x, t, u));
      if seat.None? {
        return Failure(Forbidden);
      }
      assert team.org in rows.organizations && team.org != "";
      RotationIsPlanned(config, rows, u, team.org, t, id, current);
      reply := RotateActiveSession(u, team.org, t, id, current);
    }

    method AddTeamMember(u: string, t: string, user: string, id: string) returns (reply: Reply)
      requires Valid()
      modifies this
      ensures Valid() && Did(config, old(rows), Call.AddTeamMember(u, t, user, id), rows, reply)
    {
      StepKeepsInv(config, rows, Call.AddTeamMember(u, t, user, id));
      rows :- SeatRows(config, rows, u, t, user, id);
      return Success(());
    }

    method RemoveTeamMember(u: string, t: string, user: string) returns (reply: Reply)
      requires Valid()
      modifies this
      ensures Valid() && Did(config, old(rows), Call.RemoveTeamMember(u, t, user), rows, reply)
    {
      StepKeepsInv(config, rows, Call.RemoveTeamMember(u, t, user));
      if t !in rows.teams {
        return Failure(NotFound);
      }
      var actor :- Authorize(config, rows, rows.teams[t].org, u, TeamUpdate);
      rows := DeleteSeat(rows, t, user);
      return Success(());
    }

    // -------------------------------------------------------------- invitations

    method InviteMember(u: string, o: string, id: string, email: string, role: string, team: string, now: int, ttl: int, resend: bool, holder: Option<string>) returns (reply: Reply)
      requires Valid()
      modifies this
      ensures Valid() && Did(config, old(rows), Call.InviteMember(u, o, id, email, role, team, now, ttl, resend, holder), rows, reply)
    {
      StepKeepsInv(config, rows, Call.InviteMember(u, o, id, email, role, team, now, ttl, resend, holder));
      InvitePlan(config, rows, Call.InviteMember(u, o, id, email, role, team, now, ttl, resend, holder));
      rows :- InviteRows(config, rows, u, NewInvitation(id, o, email, team, now, ttl), role, now, resend, holder);
      return Success(());
    }

    method AcceptInvitation(u: string, email: string, verified: bool, invitation: string, memberId: string, seatId: string, now: int) returns (reply: Reply)
      requires Valid()
      modifies this
      ensures Valid() && Did(config, old(rows), Call.AcceptInvitation(u, email, verified, invitation, memberId, seatId, now), rows, reply)
    {
      StepKeepsInv(config, rows, Call.AcceptInvitation(u, email, verified, invitation, memberId, seatId, now));
      if !verified {
        return Failure(Forbidden);
      }
      rows :- TakeInvitation(config, rows, u, email, invitation, memberId, seatId, now);
      return Success(());
    }

    method RejectInvitation(u: string, email: string, verified: bool, invitation: string) returns (reply: Reply)
      requires Valid()
      modifies this
      ensures Valid() && Did(config, old(rows), Call.RejectInvitation(u, email, verified, invitation), rows, reply)
    {
      StepKeepsInv(config, rows, Call.RejectInvitation(u, email, verified, invitation));
      rows :- RejectRows(config, rows, email, verified, invitation);
      return Success(());
    }

    method CancelInvitation(u: string, invitation: string) returns (reply: Reply)
      requires Valid()
      modifies this
      ensures Valid() && Did(config, old(rows), Call.CancelInvitation(u, invitation), rows, reply)
    {
      StepKeepsInv(config, rows, Call.CancelInvitation(u, invitation));
      rows :- CancelRows(config, rows, u, invitation);
      return Success(());
    }

    // -------------------------------------------------------------- roles

    method CreateRole(u: string, o: string, id: string, name: string, rights: set<Right>) returns (reply: Reply)
      requires Valid()
      modifies this
      ensures Valid() && Did(config, old(rows), Call.CreateRole(u, o, id, name, rights), rows, reply)
    {
      StepKeepsInv(config, rows, Call.CreateRole(u, o, id, name, rights));
      rows :- CreateRoleRows(config, rows, u, Role(id, o, Strings.ToLower(name), rights));
      return Success(());
    }

    method UpdateRole(u: string, o: string, name: string, rights: set<Right>) returns (reply: Reply)
      requires Valid()
      modifies this
      ensures Valid() && Did(config, old(rows), Call.UpdateRole(u, o, name, rights), rows, reply)
    {
      StepKeepsInv(config, rows, Call.UpdateRole(u, o, name, rights));
      rows :- UpdateRoleRows(config, rows, u, o, name, rights);
      return Success(());
    }

    method DeleteRole(u: string, o: string, name: string) returns (reply: Reply)
      requires Valid()
      modifies this
      ensures Valid() && Did(config, old(rows), Call.DeleteRole(u, o, name), rows, reply)
    {
      StepKeepsInv(config, rows, Call.DeleteRole(u, o, name));
      rows :- DeleteRoleRows(config, rows, u, o, name);
      return Success(());
    }

    // -------------------------------------------------------------- members

    method RemoveMember(u: string, o: string, member: string) returns (reply: Reply)
      requires Valid()
      modifies this
      ensures Valid() && Did(config, old(rows), Call.RemoveMember(u, o, member), rows, reply)
    {
      StepKeepsInv(config, rows, Call.RemoveMember(u, o, member));
      var actor :- Authorize(config, rows, o, u, MemberDelete);
      if member !in rows.members || rows.members[member].org != o {
        return Failure(NotFound);
      }
      var removed := rows.members[member];
      if Includes(removed.role, config.creator) {
        if !Includes(actor.role, config.creator) {
          return Failure(Forbidden);
        }
        var count := OwnerCount(config, rows, o);
        if count <= 1 {
          return Failure(Conflict);
        }
      }
      rows := DeleteMember(config, rows, member);
      return Success(());
    }

    method UpdateMemberRole(u: string, o: string, member: string, role: string) returns (reply: Reply)
      requires Valid()
      modifies this
      ensures Valid() && Did(config, old(rows), Call.UpdateMemberRole(u, o, member, role), rows, reply)
    {
      StepKeepsInv(config, rows, Call.UpdateMemberRole(u, o, member, role));
      rows :- RegradeRows(config, rows, u, o, member, role);
      return Success(());
    }

    method LeaveOrganization(u: string, o: string) returns (reply: Reply)
      requires Valid()
      modifies this
      ensures Valid() && Did(config, old(rows), Call.LeaveOrganization(u, o), rows, reply)
    {
      StepKeepsInv(config, rows, Call.LeaveOrganization(u, o));
      var row := FindMember(rows, o, u);
      if row.None? {
        return Failure(Forbidden);
      }
      if Includes(rows.members[row.value].role, config.creator) {
        var count := OwnerCount(config, rows, o);
        if count <= 1 {
          return Failure(Conflict);
        }
      }
      rows := DeleteMember(config, rows, row.value);
      return Success(());
    }

    method AddMember(o: string, user: string, names: seq<string>, id: string, known: bool) returns (reply: Reply)
      requires Valid()
      modifies this
      ensures Valid() && Did(config, old(rows), Call.AddMember(o, user, names, id, known), rows, reply)
    {
      StepKeepsInv(config, rows, Call.AddMember(o, user, names, id, known));
      rows :- JoinRows(config, rows, o, user, names, id, known);
      return Success(());
    }

    // -------------------------------------------------------------- sessions from elsewhere

    method SignIn(id: string, user: string) returns (reply: Reply)
      requires Valid()
      modifies this
      ensures Valid() && Did(config, old(rows), Call.SignIn(id, user), rows, reply)
    {
      StepKeepsInv(config, rows, Call.SignIn(id, user));
      rows :- IssueRows(rows, Session(id, user, true, None, None), "");
      return Success(());
    }

    method DeleteUser(user: string) returns (reply: Reply)
      requires Valid()
      modifies this
      ensures Valid() && Did(config, old(rows), Call.DeleteUser(user), rows, reply)
    {
      StepKeepsInv(config, rows, Call.DeleteUser(user));
      var sessions := All(rows.sessions, (x: Session) => x.user == user);
      assert sessions == SessionsOf(rows.sessions, user);
      rows := rows.(sessions := rows.sessions - sessions);
      return Success(());
    }
  }

  lemma OneSeatToDrop(seats: map<string, TeamMember>, t: string, user: string, row: Option<string>)
    requires OneSeat(seats)
    requires row.Some? ==> row.value in seats && Sits(seats[row.value], t, user)
    requires row.None? ==> forall id | id in seats :: !Sits(seats[id], t, user)
    ensures seats - SeatsOf(seats, {t}, user) == if row.Some? then seats - {row.value} else seats
  {
    if row.Some? {
      assert forall id | id in seats && Sits(seats[id], t, user) :: id == row.value;
      assert SeatsOf(seats, {t}, user) == {row.value};
    } else {
      assert forall id | id in seats :: seats[id].team != t || seats[id].user != user;
      assert SeatsOf(seats, {t}, user) == {};
    }
  }
}
