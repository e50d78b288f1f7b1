/**
 The rows of the organization plugin, the changes its handlers make to them, and the
 invariants those changes keep.
 */
module Tenancy {
  import opened Wrappers
  import Strings

  datatype Right = Right(resource: string, action: string)

  datatype Organization = Organization(id: string, name: string, slug: string)

  /** `role` is a comma-separated list of role names. */
  datatype Member = Member(id: string, org: string, user: string, role: string)

  datatype Team = Team(id: string, org: string, name: string)

  datatype TeamMember = TeamMember(id: string, team: string, user: string)

  datatype Status = Pending | Accepted | Rejected | Canceled

  /** An empty `team` means none. */
  datatype Invitation = Invitation(id: string, org: string, email: string, role: string, team: string, status: Status, expiresAt: int)

  datatype Role = Role(id: string, org: string, name: string, rights: set<Right>)

  datatype Session = Session(id: string, user: string, live: bool, org: Option<string>, team: Option<string>)

  datatype Tables = Tables(
    organizations: map<string, Organization>,
    members: map<string, Member>,
    teams: map<string, Team>,
    teamMembers: map<string, TeamMember>,
    invitations: map<string, Invitation>,
    roles: map<string, Role>,
    sessions: map<string, Session>)

  datatype Config = Config(
    creator: string,
    statics: map<string, set<Right>>,
    statements: set<Right>,
    maxOrganizations: nat,
    maxMembers: nat,
    maxInvitations: nat,
    maxTeams: nat,
    maxRoles: nat)

  // ---------------------------------------------------------------- reading the rows

  function Names(role: string): seq<string> {
    Strings.Split(role, ',')
  }

  /** roleIncludes. */
  predicate Includes(role: string, name: string) {
    name in Names(role)
  }

  predicate Belongs(m: Member, o: string, u: string) {
    m.org == o && m.user == u
  }

  predicate IsMember(members: map<string, Member>, o: string, u: string) {
    exists id | id in members :: Belongs(members[id], o, u)
  }

  predicate Sits(x: TeamMember, t: string, u: string) {
    x.team == t && x.user == u
  }

  predicate HasSeat(teamMembers: map<string, TeamMember>, t: string, u: string) {
    exists id | id in teamMembers :: Sits(teamMembers[id], t, u)
  }

  function MembersOf(members: map<string, Member>, o: string): set<string> {
    set id | id in members && members[id].org == o
  }

  function OwnersOf(c: Config, members: map<string, Member>, o: string): set<string> {
    set id | id in members && members[id].org == o && Includes(members[id].role, c.creator)
  }

  function TeamsOf(teams: map<string, Team>, o: string): set<string> {
    set id | id in teams && teams[id].org == o
  }

  function PendingOf(invitations: map<string, Invitation>, o: string): set<string> {
    set id | id in invitations && invitations[id].org == o && invitations[id].status == Pending
  }

  function RolesOf(roles: map<string, Role>, o: string): set<string> {
    set id | id in roles && roles[id].org == o
  }

  predicate IsRole(r: Role, o: string, name: string) {
    r.org == o && r.name == name
  }

  predicate Defined(c: Config, roles: map<string, Role>, o: string, name: string) {
    name in c.statics || exists id | id in roles :: IsRole(roles[id], o, name)
  }

  /** requireDefinedRoles. */
  predicate AllDefined(c: Config, roles: map<string, Role>, o: string, role: string) {
    forall name | name in Names(role) :: Defined(c, roles, o, name)
  }

  // ---------------------------------------------------------------- the invariants

  ghost predicate KeyedPeople(members: map<string, Member>, teams: map<string, Team>, teamMembers: map<string, TeamMember>) {
    && (forall id | id in members :: members[id].id == id)
    && (forall id | id in teams :: teams[id].id == id)
    && (forall id | id in teamMembers :: teamMembers[id].id == id)
  }

  ghost predicate KeyedInvitations(invitations: map<string, Invitation>) {
    forall id | id in invitations :: invitations[id].id == id
  }

  ghost predicate KeyedRoles(roles: map<string, Role>, sessions: map<string, Session>) {
    && (forall id | id in roles :: roles[id].id == id)
    && (forall id | id in sessions :: sessions[id].id == id)
  }

  /** Every row sits under its own id. */
  ghost predicate Keyed(s: Tables) {
    KeyedPeople(s.members, s.teams, s.teamMembers) && KeyedInvitations(s.invitations) && KeyedRoles(s.roles, s.sessions)
  }

  ghost predicate OneMembership(members: map<string, Member>) {
    forall i, j | i in members && j in members && Belongs(members[i], members[j].org, members[j].user) :: i == j
  }

  ghost predicate OneSeat(teamMembers: map<string, TeamMember>) {
    forall i, j | i in teamMembers && j in teamMembers && Sits(teamMembers[i], teamMembers[j].team, teamMembers[j].user) :: i == j
  }

  ghost predicate OneRole(roles: map<string, Role>) {
    forall i, j | i in roles && j in roles && IsRole(roles[i], roles[j].org, roles[j].name) :: i == j
  }

  ghost predicate OneInvitation(invitations: map<string, Invitation>) {
    forall i, j | i in invitations && j in invitations
      && invitations[i].org == invitations[j].org && invitations[i].email == invitations[j].email :: i == j
  }

  /** Every row belongs to an organization that exists. */
  ghost predicate MembersHome(organizations: map<string, Organization>, members: map<string, Member>) {
    forall id | id in members :: members[id].org in organizations
  }

  ghost predicate TeamsHome(organizations: map<string, Organization>, teams: map<string, Team>) {
    forall id | id in teams :: teams[id].org in organizations
  }

  ghost predicate InvitationsHome(organizations: map<string, Organization>, invitations: map<string, Invitation>) {
    forall id | id in invitations :: invitations[id].org in organizations
  }

  ghost predicate RolesHome(organizations: map<string, Organization>, roles: map<string, Role>) {
    forall id | id in roles :: roles[id].org in organizations
  }

  predicate SeatOk(members: map<string, Member>, teams: map<string, Team>, x: TeamMember) {
    x.team in teams && IsMember(members, teams[x.team].org, x.user)
  }

  /** Each team membership belongs to a live team whose organization has that user as a member. */
  ghost predicate Seated(members: map<string, Member>, teams: map<string, Team>, teamMembers: map<string, TeamMember>) {
    forall id {:trigger teamMembers[id]} | id in teamMembers :: SeatOk(members, teams, teamMembers[id])
  }

  predicate ActiveOk(members: map<string, Member>, teams: map<string, Team>, teamMembers: map<string, TeamMember>, x: Session) {
    && (x.org.Some? ==> IsMember(members, x.org.value, x.user))
    && (x.team.Some? ==> x.team.value in teams && x.org == Some(teams[x.team.value].org) && HasSeat(teamMembers, x.team.value, x.user))
  }

  /** Each session's active organization is one its user belongs to; its active team is one the
      user is in, and belongs to that organization. */
  ghost predicate Active(members: map<string, Member>, teams: map<string, Team>, teamMembers: map<string, TeamMember>, sessions: map<string, Session>) {
    forall id {:trigger sessions[id]} | id in sessions :: ActiveOk(members, teams, teamMembers, sessions[id])
  }

  ghost predicate MembersWithin(c: Config, members: map<string, Member>) {
    forall o {:trigger MembersOf(members, o)} :: |MembersOf(members, o)| <= c.maxMembers
  }

  ghost predicate TeamsWithin(c: Config, teams: map<string, Team>) {
    forall o {:trigger TeamsOf(teams, o)} :: |TeamsOf(teams, o)| <= c.maxTeams
  }

  ghost predicate PendingWithin(c: Config, invitations: map<string, Invitation>) {
    forall o {:trigger PendingOf(invitations, o)} :: |PendingOf(invitations, o)| <= c.maxInvitations
  }

  ghost predicate RolesWithin(c: Config, roles: map<string, Role>) {
    forall o {:trigger RolesOf(roles, o)} :: |RolesOf(roles, o)| <= c.maxRoles
  }

  ghost predicate MembersDefined(c: Config, members: map<string, Member>, roles: map<string, Role>) {
    forall id | id in members :: AllDefined(c, roles, members[id].org, members[id].role)
  }

  ghost predicate PendingDefined(c: Config, invitations: map<string, Invitation>, roles: map<string, Role>) {
    forall id | id in invitations && invitations[id].status == Pending :: AllDefined(c, roles, invitations[id].org, invitations[id].role)
  }

  predicate HasOwner(c: Config, members: map<string, Member>, o: string) {
    exists id | id in members :: members[id].org == o && Includes(members[id].role, c.creator)
  }

  /** Each existing organization has at least one member holding the creator role. */
  ghost predicate Owned(c: Config, organizations: map<string, Organization>, members: map<string, Member>) {
    forall o {:trigger HasOwner(c, members, o)} | o in organizations :: HasOwner(c, members, o)
  }

  ghost predicate Unique(s: Tables) {
    OneMembership(s.members) && OneSeat(s.teamMembers) && OneRole(s.roles) && OneInvitation(s.invitations)
  }

  ghost predicate Homes(s: Tables) {
    && "" !in s.organizations
    && MembersHome(s.organizations, s.members) && TeamsHome(s.organizations, s.teams)
    && InvitationsHome(s.organizations, s.invitations) && RolesHome(s.organizations, s.roles)
  }

  ghost predicate Within(c: Config, s: Tables) {
    MembersWithin(c, s.members) && TeamsWithin(c, s.teams) && PendingWithin(c, s.invitations) && RolesWithin(c, s.roles)
  }

  ghost predicate Inv(c: Config, s: Tables) {
    && Keyed(s) && Unique(s) && Homes(s)
    && Seated(s.members, s.teams, s.teamMembers)
    && Active(s.members, s.teams, s.teamMembers, s.sessions)
    && Within(c, s)
    && MembersDefined(c, s.members, s.roles) && PendingDefined(c, s.invitations, s.roles)
    && Owned(c, s.organizations, s.members)
  }

  // ---------------------------------------------------------------- changes

  datatype Move =
    | Found(organization: Organization, owner: Member)
    | Dissolve(org: string)
    | AddTeam(team: Team)
    | RemoveTeam(teamId: string)
    | Seat(seat: TeamMember)
    | Unseat(teamId: string, user: string)
    | Invite(invitation: Invitation)
    | Accept(id: string, member: Member, taken: Option<TeamMember>)
    | Close(id: string, status: Status)
    | PutRole(role: Role)
    | DropRole(id: string)
    | Join(member: Member)
    | Regrade(id: string, names: string)
    | Part(id: string)
    | Activate(session: Session, ended: set<string>)
    | Attach(id: string, activeOrg: Option<string>, activeTeam: Option<string>)
    | Forget(user: string)

  function SeatsIn(teamMembers: map<string, TeamMember>, teams: set<string>): set<string> {
    set id | id in teamMembers && teamMembers[id].team in teams
  }

  function SeatsOf(teamMembers: map<string, TeamMember>, teams: set<string>, user: string): set<string> {
    set id | id in teamMembers && teamMembers[id].team in teams && teamMembers[id].user == user
  }

  function InvitationsOf(invitations: map<string, Invitation>, o: string): set<string> {
    set id | id in invitations && invitations[id].org == o
  }

  function SessionsOf(sessions: map<string, Session>, user: string): set<string> {
    set id | id in sessions && sessions[id].user == user
  }

  /** Sessions with the organization active, of one user or of all. */
  function ActiveIn(sessions: map<string, Session>, o: string): set<string> {
    set id | id in sessions && sessions[id].org == Some(o)
  }

  function OnTeam(sessions: map<string, Session>, t: string): set<string> {
    set id | id in sessions && sessions[id].team == Some(t)
  }

  function LeaveOrg(sessions: map<string, Session>, ids: set<string>): (r: map<string, Session>)
    ensures r.Keys == sessions.Keys
  {
    map id | id in sessions :: if id in ids then sessions[id].(org := None, team := None) else sessions[id]
  }

  function LeaveTeam(sessions: map<string, Session>, ids: set<string>): (r: map<string, Session>)
    ensures r.Keys == sessions.Keys
  {
    map id | id in sessions :: if id in ids then sessions[id].(team := None) else sessions[id]
  }

  function End(sessions: map<string, Session>, ids: set<string>): (r: map<string, Session>)
    ensures r.Keys == sessions.Keys
  {
    map id | id in sessions :: if id in ids then sessions[id].(live := false) else sessions[id]
  }

  function Dissolved(s: Tables, o: string): Tables {
    Tables(
      s.organizations - {o},
      s.members - MembersOf(s.members, o),
      s.teams - TeamsOf(s.teams, o),
      s.teamMembers - SeatsIn(s.teamMembers, TeamsOf(s.teams, o)),
      s.invitations - InvitationsOf(s.invitations, o),
      s.roles - RolesOf(s.roles, o),
      LeaveOrg(s.sessions, ActiveIn(s.sessions, o)))
  }

  function Parted(s: Tables, m: Member): Tables {
    s.(members := s.members - {m.id},
       teamMembers := s.teamMembers - SeatsOf(s.teamMembers, TeamsOf(s.teams, m.org), m.user),
       sessions := LeaveOrg(s.sessions, ActiveIn(s.sessions, m.org) * SessionsOf(s.sessions, m.user)))
  }

  function Moved(s: Tables, m: Move): Tables {
    match m
    case Found(o, owner) => s.(organizations := s.organizations[o.id := o], members := s.members[owner.id := owner])
    case Dissolve(o) => Dissolved(s, o)
    case AddTeam(t) => s.(teams := s.teams[t.id := t])
    case RemoveTeam(t) =>
      s.(teamMembers := s.teamMembers - SeatsIn(s.teamMembers, {t}), teams := s.teams - {t},
         sessions := LeaveTeam(s.sessions, OnTeam(s.sessions, t)))
    case Seat(x) => s.(teamMembers := s.teamMembers[x.id := x])
    case Unseat(t, u) =>
      s.(teamMembers := s.teamMembers - SeatsOf(s.teamMembers, {t}, u),
         sessions := LeaveTeam(s.sessions, OnTeam(s.sessions, t) * SessionsOf(s.sessions, u)))
    case Invite(i) => s.(invitations := s.invitations[i.id := i])
    case Accept(id, m, taken) =>
      s.(invitations := if id in s.invitations then s.invitations[id := s.invitations[id].(status := Accepted)] else s.invitations,
         members := s.members[m.id := m],
         teamMembers := if taken.Some? then s.teamMembers[taken.value.id := taken.value] else s.teamMembers)
    case Close(id, status) =>
      s.(invitations := if id in s.invitations then s.invitations[id := s.invitations[id].(status := status)] else s.invitations)
    case PutRole(r) => s.(roles := s.roles[r.id := r])
    case DropRole(id) => s.(roles := s.roles - {id})
    case Join(m) => s.(members := s.members[m.id := m])
    case Regrade(id, names) =>
      s.(members := if id in s.members then s.members[id := s.members[id].(role := names)] else s.members)
    case Part(id) => if id in s.members then Parted(s, s.members[id]) else s
    case Activate(x, ended) => s.(sessions := End(s.sessions, ended)[x.id := x])
    case Attach(id, o, t) =>
      s.(sessions := if id in s.sessions then s.sessions[id := s.sessions[id].(org := o, team := t)] else s.sessions)
    case Forget(u) => s.(sessions := s.sessions - SessionsOf(s.sessions, u))
  }

  // ---------------------------------------------------------------- when a change is allowed

  predicate NewMember(c: Config, s: Tables, m: Member) {
    && m.id !in s.members && !IsMember(s.members, m.org, m.user)
    && m.org in s.organizations && |MembersOf(s.members, m.org)| < c.maxMembers
  }

  predicate NewSeat(s: Tables, x: TeamMember) {
    x.id !in s.teamMembers && x.team in s.teams && !HasSeat(s.teamMembers, x.team, x.user)
  }

  predicate OtherOwner(c: Config, members: map<string, Member>, id: string)
    requires id in members
  {
    exists j | j in members :: j != id && members[j].org == members[id].org && Includes(members[j].role, c.creator)
  }

  predicate KeepsOwner(c: Config, members: map<string, Member>, id: string)
    requires id in members
  {
    Includes(members[id].role, c.creator) ==> OtherOwner(c, members, id)
  }

  predicate Unused(s: Tables, r: Role) {
    && (forall id | id in s.members && s.members[id].org == r.org :: !Includes(s.members[id].role, r.name))
    && (forall id | id in s.invitations && s.invitations[id].org == r.org && s.invitations[id].status == Pending ::
          !Includes(s.invitations[id].role, r.name))
  }

  predicate Allowed(c: Config, s: Tables, m: Move) {
    match m
    case Found(o, owner) =>
      && o.id != "" && o.id !in s.organizations && owner.org == o.id && owner.id !in s.members && 1 <= c.maxMembers
      && Includes(owner.role, c.creator) && AllDefined(c, s.roles, o.id, owner.role)
    case Dissolve(o) => true
    case AddTeam(t) => t.id !in s.teams && t.org in s.organizations && |TeamsOf(s.teams, t.org)| < c.maxTeams
    case RemoveTeam(t) => true
    case Seat(x) => NewSeat(s, x) && IsMember(s.members, s.teams[x.team].org, x.user)
    case Unseat(t, u) => true
    case Invite(i) =>
      && i.org in s.organizations && i.status == Pending && AllDefined(c, s.roles, i.org, i.role)
      && |PendingOf(s.invitations, i.org)| < c.maxInvitations
      && (i.id in s.invitations ==> s.invitations[i.id].org == i.org)
      && (forall id | id in s.invitations :: s.invitations[id].org == i.org && s.invitations[id].email == i.email ==> id == i.id)
    case Accept(id, m, taken) =>
      && id in s.invitations && s.invitations[id].status == Pending
      && m.org == s.invitations[id].org && m.role == s.invitations[id].role && NewMember(c, s, m)
      && (taken.Some? ==> NewSeat(s, taken.value) && taken.value.user == m.user && s.teams[taken.value.team].org == m.org)
    case Close(id, status) => status != Pending
    case PutRole(r) =>
      && r.org in s.organizations
      && (if r.id in s.roles then IsRole(s.roles[r.id], r.org, r.name)
          else |RolesOf(s.roles, r.org)| < c.maxRoles && forall id | id in s.roles :: !IsRole(s.roles[id], r.org, r.name))
    case DropRole(id) => id in s.roles && Unused(s, s.roles[id])
    case Join(m) => NewMember(c, s, m) && AllDefined(c, s.roles, m.org, m.role)
    case Regrade(id, names) =>
      id in s.members && AllDefined(c, s.roles, s.members[id].org, names) && (!Includes(names, c.creator) ==> KeepsOwner(c, s.members, id))
    case Part(id) => id in s.members && KeepsOwner(c, s.members, id)
    case Activate(x, ended) => x.id !in s.sessions && ActiveOk(s.members, s.teams, s.teamMembers, x)
    case Attach(id, o, t) =>
      id in s.sessions && ActiveOk(s.members, s.teams, s.teamMembers, s.sessions[id].(org := o, team := t))
    case Forget(u) => true
  }
}
