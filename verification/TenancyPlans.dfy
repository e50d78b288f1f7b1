/**
 What each organization handler does, decided on the rows as they are before the call: either
 it is refused and changes nothing, or it makes one of the changes of the Tenancy module.
 */
module TenancyPlans {
  import opened Wrappers
  import opened Tenancy
  import opened RoleNames
  import Strings
  import TenancyInvariants

  datatype Error = Forbidden | NotFound | Conflict | BadRequest | Internal

  const OrganizationDelete := Right("organization", "delete")
  const TeamCreate := Right("team", "create")
  const TeamUpdate := Right("team", "update")
  const TeamDelete := Right("team", "delete")
  const InvitationCreate := Right("invitation", "create")
  const InvitationCancel := Right("invitation", "cancel")
  const MemberUpdate := Right("member", "update")
  const MemberDelete := Right("member", "delete")
  const RoleCreate := Right("ac", "create")
  const RoleUpdate := Right("ac", "update")
  const RoleDelete := Right("ac", "delete")

  /** What normalizeConfig guarantees, for limits the in-memory adapter's Count can guard. */
  predicate ValidConfig(c: Config) {
    && ValidName(c.creator) && c.creator in c.statics
    && 1 <= c.maxOrganizations <= 1000 && 1 <= c.maxMembers <= 1000 && 1 <= c.maxInvitations <= 1000
    && 1 <= c.maxTeams <= 1000 && 1 <= c.maxRoles <= 1000
  }

  /** `u` is the signed-in user, `o` the selected organization; ids are generated. `holder` is the
      user the invited email was found to belong to. */
  datatype Call =
    | CreateOrganization(u: string, id: string, name: string, slug: string, memberId: string)
    | DeleteOrganization(u: string, o: string)
    | CreateTeam(u: string, o: string, id: string, name: string)
    | RemoveTeamById(u: string, t: string)
    | AddTeamMember(u: string, t: string, user: string, id: string)
    | RemoveTeamMember(u: string, t: string, user: string)
    | SetActiveOrganization(u: string, o: string, id: string, current: string)
    | SetActiveTeam(u: string, t: string, id: string, current: string)
    | IssueSession(u: string, id: string, current: string)
    | AttachSession(u: string, o: string, t: string, id: string)
    | InviteMember(u: string, o: string, id: string, email: string, role: string, team: string, now: int, ttl: int, resend: bool, holder: Option<string>)
    | AcceptInvitation(u: string, email: string, verified: bool, invitation: string, memberId: string, seatId: string, now: int)
    | RejectInvitation(u: string, email: string, verified: bool, invitation: string)
    | CancelInvitation(u: string, invitation: string)
    | CreateRole(u: string, o: string, id: string, name: string, rights: set<Right>)
    | UpdateRole(u: string, o: string, name: string, rights: set<Right>)
    | DeleteRole(u: string, o: string, name: string)
    | RemoveMember(u: string, o: string, member: string)
    | UpdateMemberRole(u: string, o: string, member: string, role: string)
    | LeaveOrganization(u: string, o: string)
    | AddMember(o: string, user: string, names: seq<string>, id: string, known: bool)
    | SignIn(id: string, user: string)
    | DeleteUser(user: string)

  // ---------------------------------------------------------------- finding rows

  ghost function MemberRow(s: Tables, o: string, u: string): (r: Option<string>)
    ensures r.Some? ==> r.value in s.members && Belongs(s.members[r.value], o, u)
    ensures r.None? <==> !IsMember(s.members, o, u)
  {
    if IsMember(s.members, o, u) then var id :| id in s.members && Belongs(s.members[id], o, u); Some(id) else None
  }

  ghost function RoleRow(s: Tables, o: string, name: string): (r: Option<string>)
    ensures r.Some? ==> r.value in s.roles && IsRole(s.roles[r.value], o, name)
    ensures r.None? ==> forall id | id in s.roles :: !IsRole(s.roles[id], o, name)
  {
    if exists id | id in s.roles :: IsRole(s.roles[id], o, name) then
      var id :| id in s.roles && IsRole(s.roles[id], o, name);
      Some(id)
    else None
  }

  predicate Invites(i: Invitation, o: string, email: string) {
    i.org == o && i.email == email
  }

  ghost function InvitationRow(s: Tables, o: string, email: string): (r: Option<string>)
    ensures r.Some? ==> r.value in s.invitations && Invites(s.invitations[r.value], o, email)
    ensures r.None? ==> forall id | id in s.invitations :: !Invites(s.invitations[id], o, email)
  {
    if exists id | id in s.invitations :: Invites(s.invitations[id], o, email) then
      var id :| id in s.invitations && Invites(s.invitations[id], o, email);
      Some(id)
    else None
  }

  function MembershipsOf(members: map<string, Member>, u: string): set<string> {
    set id | id in members && members[id].user == u
  }

  // ---------------------------------------------------------------- authorization

  predicate StaticPermits(c: Config, name: string, right: Right) {
    name in c.statics && right in c.statics[name]
  }

  predicate DynamicPermits(roles: map<string, Role>, o: string, name: string, right: Right) {
    exists id | id in roles :: IsRole(roles[id], o, name) && right in roles[id].rights
  }

  /** permission: some role of the list, built in or of the organization, has the right. */
  predicate Permits(c: Config, roles: map<string, Role>, o: string, role: string, right: Right) {
    exists name | name in Names(role) :: StaticPermits(c, name, right) || DynamicPermits(roles, o, name, right)
  }

  /** authorize: the user's member row, when its roles have the right. */
  ghost function Authorized(c: Config, s: Tables, o: string, u: string, right: Right): (r: Result<Member, Error>)
    ensures r.Success? ==> IsMember(s.members, o, u) && Permits(c, s.roles, o, r.value.role, right) && Belongs(r.value, o, u)
  {
    var row := MemberRow(s, o, u);
    if row.None? || !Permits(c, s.roles, o, s.members[row.value].role, right) then Failure(Forbidden)
    else Success(s.members[row.value])
  }

  /** requireGrantablePermission. */
  predicate Grantable(c: Config, roles: map<string, Role>, o: string, role: string, rights: set<Right>) {
    forall right | right in rights :: Permits(c, roles, o, role, right)
  }

  // ---------------------------------------------------------------- refusals of single writes

  function MemberRefusal(s: Tables, m: Member): Option<Error> {
    if m.id == "" then Some(Internal)
    else if m.id in s.members || IsMember(s.members, m.org, m.user) then Some(Conflict)
    else if m.org == "" || m.user == "" || m.role == "" then Some(Internal) else None
  }

  function TeamRefusal(s: Tables, t: Team): Option<Error> {
    if t.id == "" then Some(Internal)
    else if t.id in s.teams || (exists id | id in s.teams :: s.teams[id].org == t.org && s.teams[id].name == t.name) then Some(Conflict)
    else if t.org == "" || t.name == "" then Some(Internal) else None
  }

  function SeatRefusal(s: Tables, x: TeamMember): Option<Error> {
    if x.id == "" then Some(Internal)
    else if x.id in s.teamMembers || HasSeat(s.teamMembers, x.team, x.user) then Some(Conflict)
    else if x.team == "" || x.user == "" then Some(Internal) else None
  }

  function OrganizationRefusal(s: Tables, o: Organization): Option<Error> {
    if o.id == "" then Some(Internal)
    else if o.id in s.organizations || (exists id | id in s.organizations :: s.organizations[id].slug == o.slug) then Some(Conflict)
    else if o.name == "" || o.slug == "" then Some(Internal) else None
  }

  // ---------------------------------------------------------------- organizations and teams

  type Plan = Result<Move, Error>

  function Unless(refusal: Option<Error>, m: Move): Plan {
    if refusal.Some? then Failure(refusal.value) else Success(m)
  }

  function PlanCreate(c: Config, s: Tables, u: string, o: Organization, memberId: string): Plan {
    var m := Member(memberId, o.id, u, c.creator);
    if |MembershipsOf(s.members, u)| >= c.maxOrganizations then Failure(Conflict)
    else if OrganizationRefusal(s, o).Some? then Failure(OrganizationRefusal(s, o).value)
    else Unless(MemberRefusal(s, m), Found(o, m))
  }

  ghost function PlanCreateTeam(c: Config, s: Tables, u: string, t: Team): Plan {
    var actor :- Authorized(c, s, t.org, u, TeamCreate);
    if |TeamsOf(s.teams, t.org)| >= c.maxTeams then Failure(Conflict) else Unless(TeamRefusal(s, t), AddTeam(t))
  }

  ghost function PlanSeat(c: Config, s: Tables, u: string, x: TeamMember): Plan {
    if x.team !in s.teams then Failure(NotFound)
    else
      var actor :- Authorized(c, s, s.teams[x.team].org, u, TeamUpdate);
      if !IsMember(s.members, s.teams[x.team].org, x.user) then Failure(BadRequest) else Unless(SeatRefusal(s, x), Seat(x))
  }

  ghost function PlanUnseat(c: Config, s: Tables, u: string, t: string, user: string): Plan {
    if t !in s.teams then Failure(NotFound)
    else
      var actor :- Authorized(c, s, s.teams[t].org, u, TeamUpdate);
      Success(Unseat(t, user))
  }

  ghost function PlanRemoveTeam(c: Config, s: Tables, u: string, t: string): Plan {
    if t !in s.teams then Failure(NotFound)
    else
      var actor :- Authorized(c, s, s.teams[t].org, u, TeamDelete);
      Success(RemoveTeam(t))
  }

  /** Issuing the new session ends the current one, and is refused when that has ended since the
      request was resolved to it. A request without a session has none to end. */
  function Issue(s: Tables, x: Session, current: string): Plan {
    if current != "" && (current !in s.sessions || !s.sessions[current].live) then Failure(Internal)
    else if x.id == "" || x.id in s.sessions then Failure(Internal)
    else Success(Activate(x, {current}))
  }

  function Named(name: string): Option<string> {
    if name == "" then None else Some(name)
  }

  /** The second half of rotateActiveSession, a transaction of its own: it checks membership and
      seat again before it gives the issued session its active organization and team. */
  function PlanAttach(s: Tables, u: string, o: string, t: string, id: string): Plan {
    if o != "" && !IsMember(s.members, o, u) then Failure(Internal)
    else if t != "" && (!TeamIn(s, o, t) || !HasSeat(s.teamMembers, t, u)) then Failure(Internal)
    else if id !in s.sessions || s.sessions[id].user != u || !s.sessions[id].live then Failure(Internal)
    else Success(Attach(id, Named(o), Named(t)))
  }

  function PlanActiveOrganization(s: Tables, u: string, o: string, id: string, current: string): Plan {
    if o == "" then Issue(s, Session(id, u, true, None, None), current)
    else if !IsMember(s.members, o, u) then Failure(Forbidden)
    else if o !in s.organizations then Failure(NotFound)
    else Issue(s, Session(id, u, true, Some(o), None), current)
  }

  function PlanActiveTeam(s: Tables, u: string, t: string, id: string, current: string): Plan {
    if t == "" then Issue(s, Session(id, u, true, None, None), current)
    else if t !in s.teams then Failure(NotFound)
    else if !IsMember(s.members, s.teams[t].org, u) || !HasSeat(s.teamMembers, t, u) then Failure(Forbidden)
    else Issue(s, Session(id, u, true, Some(s.teams[t].org), Some(t)), current)
  }

  // ---------------------------------------------------------------- invitations

  /** The row before its role is known. */
  function NewInvitation(id: string, o: string, email: string, team: string, now: int, ttl: int): Invitation {
    Invitation(id, o, Strings.ToLower(email), "", team, Pending, now + ttl)
  }

  /** The role names must be defined, and only an owner hands out ownership. */
  function RoleRefusal(c: Config, s: Tables, o: string, actor: Member, role: string): Option<Error> {
    if !AllDefined(c, s.roles, o, role) then Some(BadRequest)
    else if Includes(role, c.creator) && !Includes(actor.role, c.creator) then Some(Forbidden)
    else None
  }

  predicate TeamIn(s: Tables, o: string, t: string) {
    t in s.teams && s.teams[t].org == o
  }

  ghost function PlanInvite(c: Config, s: Tables, u: string, i: Invitation, raw: string, now: int, resend: bool, holder: Option<string>): Plan {
    var actor :- Authorized(c, s, i.org, u, InvitationCreate);
    var role := Canonical([raw]);
    if role.None? then Failure(BadRequest)
    else if RoleRefusal(c, s, i.org, actor, role.value).Some? then Failure(RoleRefusal(c, s, i.org, actor, role.value).value)
    else if i.team != "" && !TeamIn(s, i.org, i.team) then Failure(NotFound)
    else if |MembersOf(s.members, i.org)| >= c.maxMembers || |PendingOf(s.invitations, i.org)| >= c.maxInvitations then Failure(Conflict)
    else if holder.Some? && IsMember(s.members, i.org, holder.value) then Failure(Conflict)
    else if i.org !in s.organizations then Failure(NotFound)
    else PlanInvitation(s, i.(role := role.value), now, resend)
  }

  /** An invitation for the same email is renewed in place. Reading the row back insists on an
      email. */
  ghost function PlanInvitation(s: Tables, i: Invitation, now: int, resend: bool): Plan {
    var row := InvitationRow(s, i.org, i.email);
    if row.Some? then
      if s.invitations[row.value].status == Pending && s.invitations[row.value].expiresAt > now && !resend then Failure(Conflict)
      else if i.email == "" then Failure(Internal)
      else Success(Invite(i.(id := row.value)))
    else if i.id == "" then Failure(Internal)
    else if i.id in s.invitations then Failure(Conflict)
    else if i.email == "" then Failure(Internal)
    else Success(Invite(i))
  }

  function PlanAccept(c: Config, s: Tables, u: string, email: string, verified: bool, id: string, memberId: string, seatId: string, now: int): Plan {
    if !verified then Failure(Forbidden)
    else if id !in s.invitations || s.invitations[id].status != Pending || s.invitations[id].email != Strings.ToLower(email)
      || s.invitations[id].expiresAt <= now || !AllDefined(c, s.roles, s.invitations[id].org, s.invitations[id].role) then Failure(BadRequest)
    else
      var i := s.invitations[id];
      var m, x := Member(memberId, i.org, u, i.role), TeamMember(seatId, i.team, u);
      if |MembersOf(s.members, i.org)| >= c.maxMembers then Failure(Conflict)
      else if MemberRefusal(s, m).Some? then Failure(MemberRefusal(s, m).value)
      else if i.team == "" then Success(Accept(id, m, None))
      else if !TeamIn(s, i.org, i.team) then Failure(BadRequest)
      else Unless(SeatInsertRefusal(s, x), Accept(id, m, Some(x)))
  }

  /** Creating a team membership without reading it back. */
  function SeatInsertRefusal(s: Tables, x: TeamMember): Option<Error> {
    if x.id == "" then Some(Internal)
    else if x.id in s.teamMembers || HasSeat(s.teamMembers, x.team, x.user) then Some(Conflict) else None
  }

  function PlanReject(s: Tables, email: string, verified: bool, id: string): Plan {
    if id !in s.invitations || s.invitations[id].status != Pending then Failure(BadRequest)
    else if !verified || Strings.ToLower(s.invitations[id].email) != Strings.ToLower(email) then Failure(Forbidden)
    else Success(Close(id, Rejected))
  }

  ghost function PlanCancel(c: Config, s: Tables, u: string, id: string): Plan {
    if id !in s.invitations || s.invitations[id].status != Pending then Failure(BadRequest)
    else
      var actor :- Authorized(c, s, s.invitations[id].org, u, InvitationCancel);
      Success(Close(id, Canceled))
  }

  // ---------------------------------------------------------------- roles

  predicate ValidRights(c: Config, rights: set<Right>) {
    rights != {} && rights <= c.statements
  }

  ghost function PlanCreateRole(c: Config, s: Tables, u: string, r: Role): Plan {
    var actor :- Authorized(c, s, r.org, u, RoleCreate);
    if !ValidName(r.name) then Failure(BadRequest)
    else if r.name in c.statics then Failure(Conflict)
    else if !ValidRights(c, r.rights) then Failure(BadRequest)
    else if !Grantable(c, s.roles, r.org, actor.role, r.rights) then Failure(Forbidden)
    else if |RolesOf(s.roles, r.org)| >= c.maxRoles then Failure(Conflict)
    else if r.id == "" then Failure(Internal)
    else if r.id in s.roles || RoleRow(s, r.org, r.name).Some? then Failure(Conflict)
    else Success(PutRole(r))
  }

  ghost function PlanUpdateRole(c: Config, s: Tables, u: string, o: string, name: string, rights: set<Right>): Plan {
    var actor :- Authorized(c, s, o, u, RoleUpdate);
    var row := RoleRow(s, o, name);
    if name in c.statics then Failure(Conflict)
    else if !ValidRights(c, rights) then Failure(BadRequest)
    else if !Grantable(c, s.roles, o, actor.role, rights) then Failure(Forbidden)
    else if row.None? then Failure(NotFound)
    else Success(PutRole(s.roles[row.value].(rights := rights)))
  }

  ghost function PlanDeleteRole(c: Config, s: Tables, u: string, o: string, name: string): Plan {
    var actor :- Authorized(c, s, o, u, RoleDelete);
    var row := RoleRow(s, o, name);
    if name in c.statics then Failure(Conflict)
    else if row.None? then Failure(NotFound)
    else if !Unused(s, s.roles[row.value]) then Failure(Conflict)
    else Success(DropRole(row.value))
  }

  // ---------------------------------------------------------------- members

  predicate LastOwner(c: Config, s: Tables, m: Member) {
    Includes(m.role, c.creator) && |OwnersOf(c, s.members, m.org)| <= 1
  }

  ghost function PlanRemoveMember(c: Config, s: Tables, u: string, o: string, id: string): Plan {
    var actor :- Authorized(c, s, o, u, MemberDelete);
    if id !in s.members || s.members[id].org != o then Failure(NotFound)
    else if Includes(s.members[id].role, c.creator) && !Includes(actor.role, c.creator) then Failure(Forbidden)
    else if LastOwner(c, s, s.members[id]) then Failure(Conflict)
    else Success(Part(id))
  }

  ghost function PlanUpdateRoleOf(c: Config, s: Tables, u: string, o: string, id: string, raw: string): Plan {
    var actor :- Authorized(c, s, o, u, MemberUpdate);
    var role := Canonical([raw]);
    if role.None? then Failure(BadRequest)
    else if RoleRefusal(c, s, o, actor, role.value).Some? then Failure(RoleRefusal(c, s, o, actor, role.value).value)
    else PlanRegrade(c, s, actor, o, id, role.value)
  }

  function PlanRegrade(c: Config, s: Tables, actor: Member, o: string, id: string, role: string): Plan {
    if id !in s.members || s.members[id].org != o then Failure(NotFound)
    else if Includes(s.members[id].role, c.creator) && !Includes(role, c.creator) && !Includes(actor.role, c.creator) then Failure(Forbidden)
    else if !Includes(role, c.creator) && LastOwner(c, s, s.members[id]) then Failure(Conflict)
    else Success(Regrade(id, role))
  }

  ghost function PlanLeave(c: Config, s: Tables, u: string, o: string): Plan {
    var row := MemberRow(s, o, u);
    if row.None? then Failure(Forbidden)
    else if LastOwner(c, s, s.members[row.value]) then Failure(Conflict)
    else Success(Part(row.value))
  }

  function PlanAddMember(c: Config, s: Tables, o: string, user: string, names: seq<string>, id: string, known: bool): Plan {
    var role := Canonical(names);
    if o == "" || user == "" || role.None? then Failure(BadRequest)
    else if o !in s.organizations || !known then Failure(NotFound)
    else if |MembersOf(s.members, o)| >= c.maxMembers then Failure(Conflict)
    else if !AllDefined(c, s.roles, o, role.value) then Failure(BadRequest)
    else Unless(MemberRefusal(s, Member(id, o, user, role.value)), Join(Member(id, o, user, role.value)))
  }

  // ---------------------------------------------------------------- all calls

  ghost function PlanOf(c: Config, s: Tables, call: Call): Plan {
    match call
    case CreateOrganization(u, id, name, slug, memberId) => PlanCreate(c, s, u, Organization(id, name, slug), memberId)
    case DeleteOrganization(u, o) =>
      var actor :- Authorized(c, s, o, u, OrganizationDelete);
      Success(Dissolve(o))
    case CreateTeam(u, o, id, name) => PlanCreateTeam(c, s, u, Team(id, o, name))
    case RemoveTeamById(u, t) => PlanRemoveTeam(c, s, u, t)
    case AddTeamMember(u, t, user, id) => PlanSeat(c, s, u, TeamMember(id, t, user))
    case RemoveTeamMember(u, t, user) => PlanUnseat(c, s, u, t, user)
    case SetActiveOrganization(u, o, id, current) => PlanActiveOrganization(s, u, o, id, current)
    case SetActiveTeam(u, t, id, current) => PlanActiveTeam(s, u, t, id, current)
    case InviteMember(u, o, id, email, role, team, now, ttl, resend, holder) =>
      PlanInvite(c, s, u, NewInvitation(id, o, email, team, now, ttl), role, now, resend, holder)
    case AcceptInvitation(u, email, verified, invitation, memberId, seatId, now) =>
      PlanAccept(c, s, u, email, verified, invitation, memberId, seatId, now)
    case RejectInvitation(u, email, verified, invitation) => PlanReject(s, email, verified, invitation)
    case CancelInvitation(u, invitation) => PlanCancel(c, s, u, invitation)
    case CreateRole(u, o, id, name, rights) => PlanCreateRole(c, s, u, Role(id, o, Strings.ToLower(name), rights))
    case UpdateRole(u, o, name, rights) => PlanUpdateRole(c, s, u, o, Strings.ToLower(name), rights)
    case DeleteRole(u, o, name) => PlanDeleteRole(c, s, u, o, Strings.ToLower(name))
    case RemoveMember(u, o, member) => PlanRemoveMember(c, s, u, o, member)
    case UpdateMemberRole(u, o, member, role) => PlanUpdateRoleOf(c, s, u, o, member, role)
    case LeaveOrganization(u, o) => PlanLeave(c, s, u, o)
    case AddMember(o, user, names, id, known) => PlanAddMember(c, s, o, user, names, id, known)
    case IssueSession(u, id, current) => Issue(s, Session(id, u, true, None, None), current)
    case AttachSession(u, o, t, id) => PlanAttach(s, u, o, t, id)
    case SignIn(id, user) => Issue(s, Session(id, user, true, None, None), "")
    case DeleteUser(user) => Success(Forget(user))
  }

  /** The rows after a call. */
  ghost function Next(c: Config, s: Tables, call: Call): Tables {
    var plan := PlanOf(c, s, call);
    if plan.Success? then Moved(s, plan.value) else s
  }

  // ---------------------------------------------------------------- plans are allowed

  lemma CreatorNames(c: Config)
    requires ValidConfig(c)
    ensures Names(c.creator) == [c.creator]
  {
    ValidHasNoComma(c.creator);
    Strings.SplitWhole(c.creator, ',');
  }

  lemma CreateAllowed(c: Config, s: Tables, u: string, o: Organization, memberId: string)
    requires ValidConfig(c) && PlanCreate(c, s, u, o, memberId).Success?
    ensures Allowed(c, s, PlanCreate(c, s, u, o, memberId).value)
  {
    CreatorNames(c);
    assert AllDefined(c, s.roles, o.id, c.creator);
  }

  lemma TeamPlansAllowed(c: Config, s: Tables, u: string, t: Team)
    requires Inv(c, s) && PlanCreateTeam(c, s, u, t).Success?
    ensures Allowed(c, s, PlanCreateTeam(c, s, u, t).value)
  {
    var row := MemberRow(s, t.org, u);
    assert s.members[row.value].org in s.organizations;
  }

  lemma SeatAllowed(c: Config, s: Tables, u: string, x: TeamMember)
    requires PlanSeat(c, s, u, x).Success?
    ensures Allowed(c, s, PlanSeat(c, s, u, x).value)
  {
  }

  lemma ActiveOrganizationAllowed(c: Config, s: Tables, u: string, o: string, id: string, current: string)
    requires PlanActiveOrganization(s, u, o, id, current).Success?
    ensures Allowed(c, s, PlanActiveOrganization(s, u, o, id, current).value)
  {
  }

  lemma ActiveTeamAllowed(c: Config, s: Tables, u: string, t: string, id: string, current: string)
    requires PlanActiveTeam(s, u, t, id, current).Success?
    ensures Allowed(c, s, PlanActiveTeam(s, u, t, id, current).value)
  {
  }

  lemma AttachAllowed(c: Config, s: Tables, u: string, o: string, t: string, id: string)
    requires Inv(c, s) && PlanAttach(s, u, o, t, id).Success?
    ensures Allowed(c, s, PlanAttach(s, u, o, t, id).value)
  {
    if t != "" { assert s.teams[t].org in s.organizations; }
  }

  /** With nothing in between, issuing a session and attaching it is what the handlers that choose
      an active organization or team promise. */
  lemma IssueThenAttach(s: Tables, u: string, o: string, t: string, id: string, current: string)
    requires id != "" && id !in s.sessions
    requires (o != "" ==> IsMember(s.members, o, u)) && (t != "" ==> TeamIn(s, o, t) && HasSeat(s.teamMembers, t, u))
    ensures var issued := Moved(s, Activate(Session(id, u, true, None, None), {current}));
            && PlanAttach(issued, u, o, t, id) == Success(Attach(id, Named(o), Named(t)))
            && Moved(issued, Attach(id, Named(o), Named(t))) == Moved(s, Activate(Session(id, u, true, Named(o), Named(t)), {current}))
  {
    AttachIssued(s, Session(id, u, true, None, None), Named(o), Named(t), current);
    IssueOnlySessions(s, Session(id, u, true, None, None), current);
  }

  lemma IssueOnlySessions(s: Tables, x: Session, current: string)
    ensures var issued := Moved(s, Activate(x, {current}));
            && issued.members == s.members && issued.teams == s.teams && issued.teamMembers == s.teamMembers
            && x.id in issued.sessions && issued.sessions[x.id] == x
  {
  }

  lemma AttachIssued(s: Tables, x: Session, o: Option<string>, t: Option<string>, current: string)
    ensures Moved(Moved(s, Activate(x, {current})), Attach(x.id, o, t)) == Moved(s, Activate(x.(org := o, team := t), {current}))
  {
    PutTwice(End(s.sessions, {current}), x, o, t);
  }

  lemma PutTwice(sessions: map<string, Session>, x: Session, o: Option<string>, t: Option<string>)
    ensures sessions[x.id := x][x.id := x.(org := o, team := t)] == sessions[x.id := x.(org := o, team := t)]
  {
  }

  lemma InvitationAllowed(c: Config, s: Tables, i: Invitation, now: int, resend: bool)
    requires Inv(c, s) && i.org in s.organizations && i.status == Pending && AllDefined(c, s.roles, i.org, i.role)
    requires |PendingOf(s.invitations, i.org)| < c.maxInvitations && PlanInvitation(s, i, now, resend).Success?
    ensures Allowed(c, s, PlanInvitation(s, i, now, resend).value)
  {
    var row := InvitationRow(s, i.org, i.email);
    assert forall id | id in s.invitations :: Invites(s.invitations[id], i.org, i.email) ==> row.Some? && id == row.value;
  }

  lemma InviteAllowed(c: Config, s: Tables, u: string, i: Invitation, raw: string, now: int, resend: bool, holder: Option<string>)
    requires Inv(c, s) && i.status == Pending && PlanInvite(c, s, u, i, raw, now, resend, holder).Success?
    ensures Allowed(c, s, PlanInvite(c, s, u, i, raw, now, resend, holder).value)
  {
    InvitationAllowed(c, s, i.(role := Canonical([raw]).value), now, resend);
  }

  lemma AcceptAllowed(c: Config, s: Tables, u: string, email: string, verified: bool, id: string, memberId: string, seatId: string, now: int)
    requires Inv(c, s) && PlanAccept(c, s, u, email, verified, id, memberId, seatId, now).Success?
    ensures Allowed(c, s, PlanAccept(c, s, u, email, verified, id, memberId, seatId, now).value)
  {
    assert s.invitations[id].org in s.organizations;
  }

  lemma RolePlansAllowed(c: Config, s: Tables, u: string, r: Role)
    requires Inv(c, s) && PlanCreateRole(c, s, u, r).Success?
    ensures Allowed(c, s, PlanCreateRole(c, s, u, r).value)
  {
    var row := MemberRow(s, r.org, u);
    assert s.members[row.value].org in s.organizations;
  }

  lemma UpdateRoleAllowed(c: Config, s: Tables, u: string, o: string, name: string, rights: set<Right>)
    requires Inv(c, s) && PlanUpdateRole(c, s, u, o, name, rights).Success?
    ensures Allowed(c, s, PlanUpdateRole(c, s, u, o, name, rights).value)
  {
    var row := RoleRow(s, o, name);
    assert s.roles[row.value].org in s.organizations;
  }

  /** An owner who is not the last one leaves another behind. */
  lemma NotLastOwner(c: Config, s: Tables, id: string)
    requires id in s.members && !LastOwner(c, s, s.members[id])
    ensures KeepsOwner(c, s.members, id)
  {
    var owners := OwnersOf(c, s.members, s.members[id].org);
    if Includes(s.members[id].role, c.creator) {
      if owners - {id} == {} {
        TenancyInvariants.SubsetSize(owners, {id});
      } else {
        var j :| j in owners - {id};
        assert j in s.members && j != id;
      }
    }
  }

  lemma RemoveMemberAllowed(c: Config, s: Tables, u: string, o: string, id: string)
    requires PlanRemoveMember(c, s, u, o, id).Success?
    ensures Allowed(c, s, PlanRemoveMember(c, s, u, o, id).value)
  {
    NotLastOwner(c, s, id);
  }

  lemma LeaveAllowed(c: Config, s: Tables, u: string, o: string)
    requires PlanLeave(c, s, u, o).Success?
    ensures Allowed(c, s, PlanLeave(c, s, u, o).value)
  {
    NotLastOwner(c, s, MemberRow(s, o, u).value);
  }

  lemma UpdateRoleOfAllowed(c: Config, s: Tables, u: string, o: string, id: string, raw: string)
    requires PlanUpdateRoleOf(c, s, u, o, id, raw).Success?
    ensures Allowed(c, s, PlanUpdateRoleOf(c, s, u, o, id, raw).value)
  {
    if !Includes(Canonical([raw]).value, c.creator) { NotLastOwner(c, s, id); }
  }

  lemma AddMemberAllowed(c: Config, s: Tables, o: string, user: string, names: seq<string>, id: string, known: bool)
    requires PlanAddMember(c, s, o, user, names, id, known).Success?
    ensures Allowed(c, s, PlanAddMember(c, s, o, user, names, id, known).value)
  {
  }

  /** The calls that create or delete organizations and teams, or choose the active ones. */
  predicate Structural(call: Call) {
    call.CreateOrganization? || call.DeleteOrganization? || call.CreateTeam? || call.RemoveTeamById? || call.AddTeamMember?
    || call.RemoveTeamMember? || call.SetActiveOrganization? || call.SetActiveTeam? || call.IssueSession? || call.AttachSession?
  }

  predicate AboutRoles(call: Call) {
    call.CreateRole? || call.UpdateRole? || call.DeleteRole? || call.UpdateMemberRole?
  }

  lemma StructuralAllowed(c: Config, s: Tables, call: Call)
    requires ValidConfig(c) && Inv(c, s) && Structural(call) && PlanOf(c, s, call).Success?
    ensures Allowed(c, s, PlanOf(c, s, call).value)
  {
    if call.CreateOrganization? { CreateAllowed(c, s, call.u, Organization(call.id, call.name, call.slug), call.memberId); }
    else if call.CreateTeam? { TeamPlansAllowed(c, s, call.u, Team(call.id, call.o, call.name)); }
    else if call.AddTeamMember? { SeatAllowed(c, s, call.u, TeamMember(call.id, call.t, call.user)); }
    else if call.SetActiveOrganization? { ActiveOrganizationAllowed(c, s, call.u, call.o, call.id, call.current); }
    else if call.SetActiveTeam? { ActiveTeamAllowed(c, s, call.u, call.t, call.id, call.current); }
    else if call.AttachSession? { AttachAllowed(c, s, call.u, call.o, call.t, call.id); }
  }

  lemma RoleCallsAllowed(c: Config, s: Tables, call: Call)
    requires ValidConfig(c) && Inv(c, s) && AboutRoles(call) && PlanOf(c, s, call).Success?
    ensures Allowed(c, s, PlanOf(c, s, call).value)
  {
    if call.CreateRole? { RolePlansAllowed(c, s, call.u, Role(call.id, call.o, Strings.ToLower(call.name), call.rights)); }
    else if call.UpdateRole? { UpdateRoleAllowed(c, s, call.u, call.o, Strings.ToLower(call.name), call.rights); }
    else if call.UpdateMemberRole? { UpdateRoleOfAllowed(c, s, call.u, call.o, call.member, call.role); }
  }

  predicate AboutInvitations(call: Call) {
    call.InviteMember? || call.AcceptInvitation? || call.RejectInvitation? || call.CancelInvitation?
  }

  lemma InvitationCallsAllowed(c: Config, s: Tables, call: Call)
    requires ValidConfig(c) && Inv(c, s) && AboutInvitations(call) && PlanOf(c, s, call).Success?
    ensures Allowed(c, s, PlanOf(c, s, call).value)
  {
    if call.InviteMember? {
      InviteAllowed(c, s, call.u, NewInvitation(call.id, call.o, call.email, call.team, call.now, call.ttl),
                    call.role, call.now, call.resend, call.holder);
    } else if call.AcceptInvitation? {
      AcceptAllowed(c, s, call.u, call.email, call.verified, call.invitation, call.memberId, call.seatId, call.now);
    }
  }

  lemma MemberCallsAllowed(c: Config, s: Tables, call: Call)
    requires ValidConfig(c) && Inv(c, s) && PlanOf(c, s, call).Success?
    requires !Structural(call) && !AboutRoles(call) && !AboutInvitations(call)
    ensures Allowed(c, s, PlanOf(c, s, call).value)
  {
    if call.RemoveMember? { RemoveMemberAllowed(c, s, call.u, call.o, call.member); }
    else if call.LeaveOrganization? { LeaveAllowed(c, s, call.u, call.o); }
    else if call.AddMember? { AddMemberAllowed(c, s, call.o, call.user, call.names, call.id, call.known); }
  }

  /** Whatever a handler decides to do is allowed in every state that satisfies the invariants. */
  lemma PlansAreAllowed(c: Config, s: Tables, call: Call)
    requires ValidConfig(c) && Inv(c, s) && PlanOf(c, s, call).Success?
    ensures Allowed(c, s, PlanOf(c, s, call).value)
  {
    if Structural(call) { StructuralAllowed(c, s, call); }
    else if AboutRoles(call) { RoleCallsAllowed(c, s, call); }
    else if AboutInvitations(call) { InvitationCallsAllowed(c, s, call); }
    else { MemberCallsAllowed(c, s, call); }
  }

  // ---------------------------------------------------------------- runs

  lemma StepKeepsInv(c: Config, s: Tables, call: Call)
    requires ValidConfig(c) && Inv(c, s)
    ensures Inv(c, Next(c, s, call))
  {
    if PlanOf(c, s, call).Success? {
      PlansAreAllowed(c, s, call);
      TenancyInvariants.MoveKeepsInv(c, s, PlanOf(c, s, call).value);
    }
  }

  ghost function After(c: Config, s: Tables, calls: seq<Call>): Tables
    decreases |calls|
  {
    if calls == [] then s else After(c, Next(c, s, calls[0]), calls[1..])
  }

  const Empty := Tables(map[], map[], map[], map[], map[], map[], map[])

  lemma EmptyIsSound(c: Config)
    ensures Inv(c, Empty)
  {
    assert forall o :: MembersOf(Empty.members, o) == {} && TeamsOf(Empty.teams, o) == {};
    assert forall o :: PendingOf(Empty.invitations, o) == {} && RolesOf(Empty.roles, o) == {};
  }

  /** In every reachable state the tenancy graph is sound, the limits hold, every role name in
      use is defined, and every organization has an owner. */
  lemma {:induction false} RunsKeepInv(c: Config, s: Tables, calls: seq<Call>)
    requires ValidConfig(c) && Inv(c, s)
    ensures Inv(c, After(c, s, calls))
    decreases |calls|
  {
    if calls != [] {
      StepKeepsInv(c, s, calls[0]);
      RunsKeepInv(c, Next(c, s, calls[0]), calls[1..]);
    }
  }

  lemma EveryReachableState(c: Config, calls: seq<Call>)
    requires ValidConfig(c)
    ensures Inv(c, After(c, Empty, calls))
  {
    EmptyIsSound(c);
    RunsKeepInv(c, Empty, calls);
  }

  // ---------------------------------------------------------------- what single calls guarantee

  /** No row of the organization in any table, and no session or seat that points to one. */
  ghost predicate Gone(before: Tables, n: Tables, o: string) {
    && o !in n.organizations
    && MembersOf(n.members, o) == {} && TeamsOf(n.teams, o) == {} && RolesOf(n.roles, o) == {}
    && InvitationsOf(n.invitations, o) == {} && ActiveIn(n.sessions, o) == {}
    && (forall id | id in n.teamMembers :: n.teamMembers[id].team in n.teams)
    && (forall id | id in n.sessions && n.sessions[id].team.Some? :: n.sessions[id].team.value !in TeamsOf(before.teams, o))
  }

  lemma DissolvedIsGone(s: Tables, o: string)
    requires Seated(s.members, s.teams, s.teamMembers) && Active(s.members, s.teams, s.teamMembers, s.sessions)
    ensures Gone(s, Dissolved(s, o), o)
  {
    var n := Dissolved(s, o);
    forall id | id in n.teamMembers
      ensures n.teamMembers[id].team in n.teams
    {
      assert SeatOk(s.members, s.teams, s.teamMembers[id]);
    }
    forall id | id in n.sessions && n.sessions[id].team.Some?
      ensures n.sessions[id].team.value !in TeamsOf(s.teams, o)
    {
      assert ActiveOk(s.members, s.teams, s.teamMembers, s.sessions[id]);
    }
  }

  /** Deleting an organization leaves nothing of it: no row in any table, no membership of its
      teams and no session in which it or one of its teams is active. */
  lemma DeletionLeavesNothing(c: Config, s: Tables, u: string, o: string)
    requires Inv(c, s) && PlanOf(c, s, DeleteOrganization(u, o)).Success?
    ensures Gone(s, Next(c, s, DeleteOrganization(u, o)), o)
  {
    DissolvedIsGone(s, o);
    assert Next(c, s, DeleteOrganization(u, o)) == Dissolved(s, o);
  }

  /** A member who leaves or is removed keeps no seat in the organization's teams and no session
      in which the organization is active. */
  lemma PartingLeavesNothing(c: Config, s: Tables, id: string)
    requires Inv(c, s) && id in s.members
    ensures var m, n := s.members[id], Moved(s, Part(id));
            && !IsMember(n.members, m.org, m.user)
            && SeatsOf(n.teamMembers, TeamsOf(n.teams, m.org), m.user) == {}
            && ActiveIn(n.sessions, m.org) * SessionsOf(n.sessions, m.user) == {}
  {
    var m, n := s.members[id], Moved(s, Part(id));
    assert m.id == id;
    forall i | i in n.members
      ensures !Belongs(n.members[i], m.org, m.user)
    {
      assert i in s.members && i != id;
    }
  }

  /** Nobody hands out a right they do not hold. */
  lemma RightsAreNotRaised(c: Config, s: Tables, u: string, r: Role, name: string, right: Right)
    requires right in r.rights
    ensures PlanCreateRole(c, s, u, r).Success? ==> HoldsRight(c, s, r.org, u, right)
    ensures PlanUpdateRole(c, s, u, r.org, name, r.rights).Success? ==> HoldsRight(c, s, r.org, u, right)
  {
    var row := MemberRow(s, r.org, u);
    if row.Some? && Permits(c, s.roles, r.org, s.members[row.value].role, right) { assert HoldsRight(c, s, r.org, u, right); }
  }

  predicate HoldsRight(c: Config, s: Tables, o: string, u: string, right: Right) {
    exists id | id in s.members :: Belongs(s.members[id], o, u) && Permits(c, s.roles, o, s.members[id].role, right)
  }

  predicate IsOwner(c: Config, s: Tables, o: string, u: string) {
    exists id | id in s.members :: Belongs(s.members[id], o, u) && Includes(s.members[id].role, c.creator)
  }

  /** Only an owner makes another member an owner, demotes an owner or removes one. */
  lemma OnlyOwnersTouchOwners(c: Config, s: Tables, u: string, o: string, id: string, raw: string)
    requires id in s.members
    ensures var plan := PlanUpdateRoleOf(c, s, u, o, id, raw);
            plan.Success? && Includes(s.members[id].role, c.creator) != Includes(plan.value.names, c.creator) ==> IsOwner(c, s, o, u)
    ensures PlanRemoveMember(c, s, u, o, id).Success? && Includes(s.members[id].role, c.creator) ==> IsOwner(c, s, o, u)
  {
    var row := MemberRow(s, o, u);
    if row.Some? && Includes(s.members[row.value].role, c.creator) { assert IsOwner(c, s, o, u); }
  }

  /** Nor does anybody else invite one. */
  lemma OnlyOwnersInviteOwners(c: Config, s: Tables, u: string, i: Invitation, raw: string, now: int, resend: bool, holder: Option<string>)
    requires PlanInvite(c, s, u, i, raw, now, resend, holder).Success?
    ensures Canonical([raw]).Some? && (Includes(Canonical([raw]).value, c.creator) ==> IsOwner(c, s, i.org, u))
  {
    var actor := Authorized(c, s, i.org, u, InvitationCreate).value;
    assert RoleRefusal(c, s, i.org, actor, Canonical([raw]).value).None?;
    var row := MemberRow(s, i.org, u);
    assert Includes(actor.role, c.creator) ==> Belongs(s.members[row.value], i.org, u) && s.members[row.value] == actor;
  }
}
