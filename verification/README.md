# Verification of the authentication server's core

This Dafny project models the logic of the authentication server that decides who is signed
in, who owns what and which rows a store may hold, and proves what that logic promises. The
modules follow the components of the server.

| modules | component |
|---|---|
| `Records`, `MemoryStore`, `MemoryLaws` | rows, predicates, and the transactional in-memory adapter |
| `SqlCompiler` | predicates and assignments compiled to numbered-placeholder SQL |
| `SchemaMapping`, `SchemaSimulation`, `SchemaExactness`, `SchemaBooleans`, `MappingAdapter` | the adapter that maps logical to stored names and values |
| `DatabaseHooks` | after hooks deferred to the end of the outermost transaction |
| `Migration`, `IndexNames` | additive SQL migration and schema comparison |
| `AuthState`, `AuthSessions`, `AuthAccounts`, `AuthTokens`, `AuthStore`, `AuthLaws` | sessions, accounts and one-time tokens |
| `Tenancy`, `TenancyInvariants`, `TenancyPlans`, `TenancyLaws`, `TenancyHandlers`, `RoleNames`, `Scan` | organizations, members, teams, invitations, roles and active sessions |
| `AccountRekey` | the re-keying of accounts for version 17 |
| `SchemaGate` | the single-flight gate in front of the schema check |
| `PluginOrder`, `PluginRoutes` | plugin dependencies and plugin routes |
| `ScimFilter` | the SCIM filter parser (section 3.4.2.2 of RFC 7644) |
| `Strings`, `Wrappers` | string functions, option and result types |

Code that changes things step by step is modelled by classes and methods with loops. Each is
proved against a specification function or predicate, and the results about whole runs are
lemmas about those specifications. What each specification says is stated once more by the
modules `TenancyLaws`, `AuthLaws` and `MemoryLaws`, without its branches: exactly when a call
succeeds, and what each row is afterwards. `dafny verify dfyconfig.toml` checks everything.

How the parts are put together:

- An adapter may visit rows in any order. The in-memory adapter takes the order as a parameter
  of its specification; scans of the organization plugin take a new one for every page.
- Every method of the database store is one atomic step. Its specification `AuthState.Step`
  says in one expression over the state before the call what the method does in several
  adapter calls on a transaction copy. Sessions are followed through runs with a history of
  sign-ins and exchanged tokens; one-time tokens with a ledger of issued and spent values.
  Ids and tokens come from a random source, so a run never repeats one; that is the only
  assumption on runs.
- Every organization handler is one atomic step too. `TenancyPlans.PlanOf` decides on the rows
  before the call whether the handler is refused and which change of `Tenancy.Move` it makes;
  the handlers of `TenancyHandlers.Organizations` do it with scans, loops and several writes.
  Limits are at most 1000, as the defaults are: above that the in-memory count never reaches a
  limit, and unsorted pages can miss rows (`MemoryStore.GuardIsExactUpTo1000`,
  `Scan.ScanIsCompleteIff`). The rotation of an active session is also there as its two atomic
  halves, so that other calls may come between them.

Where the code does not do what one would expect, the code was followed:

- `templatesOverlap` does not see an overlap with one extra final wildcard
  (`PluginRoutes.MissedOverlap`; `OverlapIsExact` gives the exact condition).
- Plugin endpoints are looked up before core routes, and neither provider callbacks nor reset
  callbacks are on the list of guarded routes, so a plugin endpoint can answer one
  (`PluginRoutes.CallbackStaysCore` and `ResetStaysCore` give the exact conditions).
- The SQL adapter leaves the literal field "id" out of assignments, the in-memory adapter the
  mapped id field (`SqlCompiler.AssignmentsMatchMemory`, `MappedIdDiffers`).
- A table that exists without columns stays incomplete after migration, unless creating its
  indexes makes the migration fail (`Migration.MigrationIsComplete`,
  `IndexNames.IndexedMigrationIsComplete`).
- The collision report joins provider and id with NUL and can name rows that do not collide
  (`AccountRekey.ReportIsExact` gives the exact condition).
- In a model without an id that stores another field as "id", records without an id are
  accepted, and of a record with an id and that field both values are written to "id" in map
  order, so one is lost (`SchemaExactness.AlikeIffKept` gives the exact condition).
- Index names belong to the whole database and "a_b"."c" and "a"."b_c" ask for the same one, so
  the second is silently not made (`IndexNames.AllIndexedIff` gives the exact condition).
- SQL and the in-memory adapter select differently on NULL columns and, ignoring case, by lists
  (`SqlCompiler.NullIsExact` and `FoldedIsExact` give the exact conditions).
- Without booleans, boolean fields are numbers to order tests, lists and increments
  (`SchemaMapping.BooleanTests`, `SchemaBooleans.IncrementDiffers`).
- `compilePlugins` checks trimmed ids but visits untrimmed ones, so a plugin with blanks around
  its id is refused (`PluginOrder.CompilePlugins`).
- An unmapped field named "" can be mistaken for any other unmapped field
  (`SchemaMapping.SearchIsInverse`).
- Three token consumers spend their token before they can fail
  (`AuthAccounts.RefusalsChangeNothing` says exactly which refused calls leave a trace).

## Model

| member | source | states |
|---|---|---|
| TenancyInvariants.MoveKeepsSeated | plugin/organization/teams.go:131-154 | Every change keeps this: each team membership belongs to an existing team whose organization has that user as a member. |
| TenancyInvariants.MoveKeepsActive | plugin/organization/organizations.go:537-585 | Every change keeps this: a session's active organization is one its user belongs to; its active team is one the user sits in, and belongs to that organization. |
| TenancyInvariants.MoveKeepsOwned | plugin/organization/members.go:39-52 | Every change leaves each existing organization at least one member holding the creator role. |
| TenancyInvariants.MoveKeepsMembersDefined | plugin/organization/roles.go:203-239 | Every change, deleting a role included, leaves every member with defined role names only. |
| TenancyInvariants.MoveKeepsPendingDefined | plugin/organization/roles.go:221-239 | The same for the role names of pending invitations. |
| TenancyInvariants.MoveKeepsMembersWithin | plugin/organization/invitations.go:264-280 | No change takes an organization over its member limit. |
| TenancyInvariants.MoveKeepsOtherLimits | plugin/organization/invitations.go:69-91 | No change takes an organization over its team, pending-invitation or role limit; renewing an invitation that is already pending does not count twice. |
| TenancyInvariants.MoveKeepsOneMembership | plugin/organization/config.go:444-447 | (organization, user) stays unique among members. |
| TenancyInvariants.MoveKeepsHomes | plugin/organization/organizations.go:274-291 | Members, teams, invitations and roles always refer to an existing organization. |
| TenancyInvariants.MoveKeepsInv | plugin/organization/config.go:416-507 | All the invariants together survive every allowed change. |
| TenancyPlans.PlansAreAllowed | plugin/organization/storage.go:317-336 | In every state that satisfies the invariants, whatever any of the 23 modelled calls decides to do is an allowed change. |
| TenancyPlans.RunsKeepInv | plugin/organization/members.go:11-110 | The invariants hold after every sequence of calls, refused ones included. |
| TenancyPlans.EveryReachableState | plugin/organization/organizations.go:11-129 | Starting from empty tables, every reachable state satisfies all of them. |
| TenancyPlans.NotLastOwner | plugin/organization/members.go:398-422 | An owner count above one means that another owner stays behind. |
| TenancyPlans.DeletionLeavesNothing | plugin/organization/organizations.go:255-300 | After an organization is deleted no table holds a row of it, every remaining team membership has its team, and no session has the organization or one of its teams active. |
| TenancyPlans.PartingLeavesNothing | plugin/organization/members.go:68-94 | A removed member has no membership, no seat in the organization's teams and no session in which it is active. |
| TenancyPlans.RightsAreNotRaised | plugin/organization/roles.go:484-504 | Creating or updating a role succeeds only when the actor holds every right it grants. |
| TenancyPlans.OnlyOwnersTouchOwners | plugin/organization/members.go:39-42 | Ownership is given, taken away or removed only by a member who is an owner. |
| TenancyPlans.OnlyOwnersInviteOwners | plugin/organization/invitations.go:33-36 | Only an owner invites somebody as an owner. |
| TenancyPlans.RemoveMemberAllowed | plugin/organization/members.go:39-52 | A removal that passes the checks leaves an owner. |
| TenancyPlans.UpdateRoleOfAllowed | plugin/organization/members.go:150-164 | A role change that passes the checks names defined roles only and leaves an owner. |
| TenancyPlans.LeaveAllowed | plugin/organization/members.go:259-269 | A member who may leave leaves an owner behind. |
| TenancyPlans.InviteAllowed | plugin/organization/invitations.go:145-187 | An accepted invitation request keeps (organization, email) unique, the pending limit and defined roles, also when it renews a row in place. |
| TenancyPlans.AcceptAllowed | plugin/organization/invitations.go:224-376 | An invitation that can be accepted gives a new member with defined roles, under the limit, and a seat only in a team of that organization. |
| TenancyPlans.IssueThenAttach | plugin/organization/organizations.go:506-606 | With nothing in between, issuing and attaching give the session with the organization and team active that the two handlers promise. |
| TenancyLaws.AuthorizedIff | plugin/organization/storage.go:317-336 | authorize succeeds for exactly the users one of whose member rows in the organization names a built-in or stored role that grants the right, and answers "forbidden" to all others. |
| TenancyLaws.GrantableIff | plugin/organization/roles.go:484-504 | The rights of a role are grantable exactly when the user holds each of them. |
| TenancyLaws.DeleteOrganizationIff | plugin/organization/organizations.go:225-315 | Succeeds exactly for users with "organization:delete" there; everybody else is forbidden and nothing changes. All rows of the organization go, its sessions lose it, and every other row stays. |
| TenancyLaws.CreateOrganizationIff | plugin/organization/organizations.go:11-129 | Succeeds exactly below the limit of memberships of the user, with a name and an unused id and slug; adds the organization and its owner. |
| TenancyLaws.SetActiveOrganizationIff | plugin/organization/organizations.go:369-408 | Succeeds exactly for members, or to choose none, with a live or no current session; the new session replaces it. |
| TenancyLaws.SetActiveTeamIff | plugin/organization/teams.go:277-325 | Succeeds exactly for those who sit in the team, or to choose none; the session is active in the team and its organization. |
| TenancyLaws.IssueSessionIff | plugin/organization/organizations.go:520-523 | A session is issued exactly with a new id and a current session that is live or missing, and replaces that. |
| TenancyLaws.AttachSessionIff | plugin/organization/organizations.go:534-591 | Succeeds exactly for a live session of the user who belongs to the organization and sits in the team. |
| TenancyLaws.DeleteUserIff | plugin/organization/organizations.go:537-585 | A deleted user keeps no session. |
| TenancyLaws.CreateTeamIff | plugin/organization/teams.go:11-95 | Succeeds exactly with "team:create", below the limit and with an unused name; adds the team. |
| TenancyLaws.RemoveTeamIff | plugin/organization/teams.go:97-170 | Succeeds exactly with "team:delete" in the organization of the team; team and seats go, sessions lose the team, every other row stays. |
| TenancyLaws.AddTeamMemberIff | plugin/organization/teams.go:412-497 | Succeeds exactly with "team:update", for a member of the organization without a seat; adds the seat. |
| TenancyLaws.RemoveTeamMemberIff | plugin/organization/teams.go:499-569 | Succeeds exactly with "team:update"; the seat goes, and the team from the sessions of that user only. |
| TenancyLaws.InviteMemberIff | plugin/organization/invitations.go:11-222 | Succeeds exactly with "invitation:create", defined roles, ownership handed out by owners only, a team of the organization, room for a member and an invitation, no member of that email, and an earlier invitation that may be renewed; the row has the lower-cased email, the canonical role, pending, until now plus the lifetime. |
| TenancyLaws.AcceptInvitationIff | plugin/organization/invitations.go:224-376 | Succeeds exactly for the verified email the pending, unexpired invitation is for, with room in the organization; marks it, and adds the member with its role and the seat in its team. |
| TenancyLaws.RejectInvitationIff | plugin/organization/invitations.go:390-484 | Succeeds exactly for the verified email a pending invitation is for, and marks it rejected. |
| TenancyLaws.CancelInvitationIff | plugin/organization/invitations.go:390-484 | Succeeds exactly for a pending invitation with "invitation:cancel", and marks it cancelled. |
| TenancyLaws.CreateRoleIff | plugin/organization/roles.go:44-155 | Succeeds exactly with "ac:create" and every granted right, below the limit, with a valid and unused name; adds the role. |
| TenancyLaws.UpdateRoleIff | plugin/organization/roles.go:346-446 | Succeeds exactly with "ac:update" and every granted right, for a stored role; replaces the rights of that one. |
| TenancyLaws.DeleteRoleIff | plugin/organization/roles.go:157-274 | Succeeds exactly with "ac:delete", for a stored role that no member and no pending invitation names; removes that one. |
| TenancyLaws.RemoveMemberIff | plugin/organization/members.go:11-110 | Succeeds exactly with "member:delete"; an owner is removed by owners only, and not the last one. The member, the seats in the organization and its active sessions go, nothing else. |
| TenancyLaws.UpdateMemberRoleIff | plugin/organization/members.go:112-219 | Succeeds exactly with "member:update", defined roles, and ownership given or taken by owners only and not from the last one; changes that role. |
| TenancyLaws.LeaveOrganizationIff | plugin/organization/members.go:237-318 | Every member leaves but the last owner. |
| TenancyLaws.AddMemberIff | plugin/organization/config.go:122-282 | Succeeds exactly for a known user, an existing organization with room, defined roles, and nobody who belongs to it already. |
| TenancyHandlers.FindMember | plugin/organization/storage.go:263-282 | Finds the one member row of a user in an organization, or none. |
| TenancyHandlers.Permission | plugin/organization/storage.go:284-315 | True exactly when some role in the comma-separated list, built in or the organization's own, holds the right. |
| TenancyHandlers.Authorize | plugin/organization/storage.go:317-336 | Returns the actor's member row exactly when it exists and its roles hold the right. |
| TenancyHandlers.RequireGrantable | plugin/organization/roles.go:484-504 | True exactly when the roles hold every right of the set. |
| TenancyHandlers.RequireDefined | plugin/organization/members.go:433-458 | True exactly when every name in the list is built in or a role of the organization. |
| TenancyHandlers.OwnerCount | plugin/organization/members.go:398-422 | The paged scan counts exactly the members holding the creator role, because the member limit keeps them on one page. |
| TenancyHandlers.MembersUse | plugin/organization/roles.go:203-219 | The bounded scan finds a member with the role exactly when there is one, because of the member limit. |
| TenancyHandlers.InvitationsUse | plugin/organization/roles.go:221-239 | The same for pending invitations, because of the invitation limit. |
| TenancyHandlers.RemoveFromTeams | plugin/organization/members.go:460-488 | Removes exactly the user's seats in the teams of the organization. |
| TenancyHandlers.EmptyTeams | plugin/organization/organizations.go:255-273 | Removes exactly the seats in the teams of the organization. |
| TenancyHandlers.MembersFull | plugin/organization/invitations.go:69-79 | With a limit of at most 1000 the capped count tells exactly whether the organization is full. |
| TenancyHandlers.DeleteRows | plugin/organization/organizations.go:255-300 | The cascade removes and clears exactly what dissolving the organization means. |
| TenancyHandlers.DeleteSeat | plugin/organization/teams.go:534-553 | Deleting the first matching seat removes every one, and the active team is cleared in the sessions of that user only. |
| TenancyHandlers.DeleteMember | plugin/organization/members.go:68-94 | Row, seats and sessions of a departing member are removed and cleared, exactly. |
| TenancyHandlers.CheckInvitation | plugin/organization/invitations.go:14-106 | Passes exactly when every check of an invitation passes, and names the first reason otherwise. |
| TenancyHandlers.TakeInvitation | plugin/organization/invitations.go:241-346 | Marks the invitation accepted, adds the member and the seat, or changes nothing and says why. |
| TenancyHandlers.PutInvitation | plugin/organization/invitations.go:145-187 | Renews the row of the same email in place or creates one; refuses an unexpired pending one unless it is sent again. |
| TenancyHandlers.RegradeMember | plugin/organization/members.go:135-164 | Changes the role unless the member is gone, the actor may not demote an owner, or the owner is the last. |
| TenancyHandlers.Organizations.CreateOrganization | plugin/organization/organizations.go:11-129 | Creates organization and owner together or neither; keeps all invariants. |
| TenancyHandlers.Organizations.DeleteOrganization | plugin/organization/organizations.go:225-315 | Refused without the right; otherwise dissolves the organization completely; keeps all invariants. |
| TenancyHandlers.Organizations.SetActiveOrganization | plugin/organization/organizations.go:369-408 | Opens a session with the organization active only for a member of an existing organization; keeps all invariants. |
| TenancyHandlers.Organizations.IssueSession | plugin/organization/organizations.go:520-523 | A new session without an active organization replaces the current one; refused when that has ended since the request was resolved to it; keeps all invariants. |
| TenancyHandlers.Organizations.AttachSession | plugin/organization/organizations.go:534-591 | The transaction checks membership, team and seat again before it makes them active in the issued session, and else changes nothing; keeps all invariants. |
| TenancyHandlers.Organizations.RotateActiveSession | plugin/organization/organizations.go:506-606 | The two one after the other; when the second is refused the issued session stays, without an active organization. |
| TenancyHandlers.Organizations.CreateTeam | plugin/organization/teams.go:11-95 | Adds the team below the limit with an unused name; keeps all invariants. |
| TenancyHandlers.Organizations.RemoveTeam | plugin/organization/teams.go:97-170 | Removes the team with its seats and clears it in sessions; keeps all invariants. |
| TenancyHandlers.Organizations.SetActiveTeam | plugin/organization/teams.go:277-325 | Opens a session with the team active only for one who sits in it; keeps all invariants. |
| TenancyHandlers.Organizations.AddTeamMember | plugin/organization/teams.go:412-497 | Seats only members of the organization, once; keeps all invariants. |
| TenancyHandlers.Organizations.RemoveTeamMember | plugin/organization/teams.go:499-569 | Removes the seat and clears the active team; keeps all invariants. |
| TenancyHandlers.Organizations.InviteMember | plugin/organization/invitations.go:11-222 | Creates or renews an invitation, or refuses with the stated reason; keeps all invariants. |
| TenancyHandlers.Organizations.AcceptInvitation | plugin/organization/invitations.go:224-376 | Turns a pending, unexpired invitation of the verified email into a membership; keeps all invariants. |
| TenancyHandlers.Organizations.RejectInvitation | plugin/organization/invitations.go:390-484 | Only the invited, verified user closes a pending invitation this way. |
| TenancyHandlers.Organizations.CancelInvitation | plugin/organization/invitations.go:390-484 | Only a member with the right closes a pending invitation this way. |
| TenancyHandlers.Organizations.CreateRole | plugin/organization/roles.go:44-155 | Creates a role with a free, valid name and grantable rights below the limit; keeps all invariants. |
| TenancyHandlers.Organizations.UpdateRole | plugin/organization/roles.go:346-446 | Replaces the rights of an existing role with grantable ones; keeps all invariants. |
| TenancyHandlers.Organizations.DeleteRole | plugin/organization/roles.go:157-274 | Deletes a role that no member and no pending invitation uses; keeps all invariants. |
| TenancyHandlers.Organizations.RemoveMember | plugin/organization/members.go:11-110 | Removes a member unless it is an owner the actor may not touch or the last owner; keeps all invariants. |
| TenancyHandlers.Organizations.UpdateMemberRole | plugin/organization/members.go:112-219 | Gives a member canonical, defined roles under the ownership rules; keeps all invariants. |
| TenancyHandlers.Organizations.LeaveOrganization | plugin/organization/members.go:237-318 | A member leaves unless it is the last owner; keeps all invariants. |
| TenancyHandlers.Organizations.AddMember | plugin/organization/config.go:122-282 | Adds an existing user below the limit with defined roles, once; keeps all invariants. |
| Scan.FindManyBounded | plugin/organization/storage.go:473-502 | Returns what some choice of order for each page leads to: only matching rows, at most the maximum; complete and without repetition when all of them fit the maximum and one page of 1000. |
| Scan.PagesCanMiss | plugin/organization/storage.go:489-491 | Pages without a sort can miss rows: for every listing of more than 1000 rows there is another order and a row that neither the first page of the one nor any later page of the other shows. |
| Scan.ScanIsCompleteIff | plugin/organization/storage.go:473-502 | For rows within the maximum the scan is sure to return each of them once, whatever the orders, if and only if there are at most 1000. |
| RoleNames.ValidRoleName | plugin/organization/config.go:364-376 | Accepts exactly 1 to 64 letters a to z, digits, hyphens and underscores. |
| RoleNames.CanonicalRoles | plugin/organization/access.go:64-77 | Fails exactly when some trimmed, lower-cased name is invalid. |
| RoleNames.CanonicalSplits | plugin/organization/access.go:64-77 | Splitting a canonical role string gives the requested names, each once, in ascending order. |
| RoleNames.CanonicalIsIdempotent | plugin/organization/access.go:64-77 | Making a role string canonical twice changes nothing more. |
| AuthSessions.MoveIsExact | store.go:539-559 | Every store call does to the sessions one of: nothing, one new session, ending live ones, both, or dropping one user's; it ends only live sessions and adds only a new id with a new token. |
| AuthSessions.ChainsOverRuns | store.go:957-986 | Over every run of all calls in any order, the rotation chain of a sign-in never has two live sessions, and a token that was exchanged is never live again. |
| AuthSessions.EveryReachableChain | store.go:539-559 | The same in every state reachable from an empty store. |
| AuthSessions.OneSuccessor | store.go:539-559 | A token gets a successor only if it has none yet. |
| AuthSessions.RevokedOnce | store.go:561-576 | A session that is revoked keeps its time of revocation under every call. |
| AuthSessions.OnlyRevoked | store.go:561-627 | No call changes anything else of a stored session. |
| AuthSessions.RevocationIsFinal | store.go:601-627 | Over a whole run a revoked session never comes back to life, also after its user was deleted. |
| AuthSessions.PasswordChangeLeavesOne | store.go:122-169 | A password change that revokes the others leaves the user exactly one live session, the new one; a refused one changes nothing. |
| AuthSessions.RevocationIsComplete | store.go:571-627 | Revoking all leaves no live session of the user; revoking the others leaves only the current one. |
| AuthSessions.RevocationIsConfined | store.go:571-627 | Revocations of one user leave another user's sessions alone. |
| AuthAccounts.KeysStayUnique | account_identity.go:13-15 | No call lets two accounts share a (provider, account id) key or two users share an email. |
| AuthAccounts.OwnersNeverChange | store.go:383-431 | No call changes the owner or the provider of an account row that stays. |
| AuthAccounts.AccountsOverRuns | store.go:383-431 | Over whole runs keys stay unique, and a row that stays keeps its owner. |
| AuthAccounts.UpsertTies | store.go:812-955 | A successful provider sign-in leaves the profile's key, the returned user and the new session on one existing user; a refused one leaves the store as it was. |
| AuthAccounts.UpsertRespectsOwner | store.go:812-955 | It signs in the owner of an existing account, links an existing user only by the same email and under the policy, and creates users only when sign-up is allowed. |
| AuthAccounts.LinkTies | store.go:383-431 | Linking succeeds exactly when nobody else owns the new or the previous key, and then the user owns the key; a refusal undoes the re-key. |
| AuthAccounts.RefusalsChangeNothing | store.go:302-381 | A refused call leaves the store as it was if and only if it is not one of: a session stored that cannot be read back, a user changed to an empty email, or a token that one of the three consumers spending first has found. |
| AuthAccounts.WrongUserSpendsToken | store.go:302-320 | A deletion token presented by another user is refused and yet gone. |
| AuthAccounts.SpentByRefusal | store.go:302-320 | A concrete store and call of that kind. |
| AuthTokens.PurposesAreDisjoint | types.go:144-154 | The consumer of a purpose recognises the rows of that purpose and of no other, prefixes included. |
| AuthTokens.IdentifierNamesUser | store.go:650-674 | For the two email-change purposes the identifier tells users apart. |
| AuthTokens.StepKeepsInv | store.go:650-674 | Every stored token is unspent and carries the identifier, user and expiry it was issued with; no two tokens for an email change share an identifier. |
| AuthTokens.TokensOverRuns | store.go:650-674 | The same over every run. |
| AuthTokens.SpentOnceForItsPurpose | store.go:302-381 | A call spends a value only if it was issued for that purpose, is unspent and has not expired. |
| AuthTokens.SpentAtMostOnce | store.go:696-763 | Over every run each value is spent at most once, and never again once it was. |
| AuthTokens.IdentifiersCountUsers | store.go:650-674 | So each user has at most one outstanding token for each of the two email-change purposes. |
| AuthTokens.EveryReachableToken | store.go:650-674 | From an empty store on: every value is spent at most once, and a user never has two tokens for one email-change purpose. |
| AuthTokens.SuccessSpends | store.go:783-810 | A consumer that succeeds has spent its token, whatever its purpose. |
| AuthTokens.ConsumeRemoves | store.go:322-357 | A consumer removes exactly its row or changes nothing at all. |
| AuthStore.StepKeepsSound | store.go:21-52 | Every call keeps ids, emails, keys, token hashes and one-time values unique. |
| AuthStore.FindAccountByKey | account_identity.go:27-46 | Reports ambiguity exactly when two rows share the key; otherwise finds the row or shows that there is none. |
| AuthStore.AccountByKey | account_identity.go:27-46 | With the unique key in place the answer is the one row or none. |
| AuthStore.FindProfileAccount | account_identity.go:52-84 | Finds the row under the current key, else the one under the previous key and moves it to the current one. |
| AuthStore.UpsertBranches | store.go:822-945 | The transaction is one of three branches followed by opening the session, and is undone as a whole when either part is refused. |
| AuthLaws.OpenIff | store.go:518-524 | A session opens exactly with an owner, a token and an id, the last two unused; it is added and nothing else changes. |
| AuthLaws.RotateIff | store.go:539-559 | Succeeds exactly when the old token is live and the new session may open; the old one ends at that time, the new one is stored, every other session stays. |
| AuthLaws.RevocationsEnd | store.go:561-627 | Each bulk revocation ends exactly the live sessions it names, at the time given. |
| AuthLaws.RevokeByIdIff | store.go:601-614 | Ends the session exactly when it is live and of that user. |
| AuthLaws.SetPasswordIff | store.go:95-120 | After success the account with provider "credential", the user's id as its key and the user as its owner holds the password, and no other account has changed; it is created when there is none, and refused when another row is in the way. |
| AuthLaws.ReplacePasswordReplaces | store.go:88-93 | The new hash stands exactly where the previous one stood in the credential account with the user's key. |
| AuthLaws.ChangePasswordIff | store.go:122-169 | Succeeds exactly when the user's own credential holds the previous password, the current session is live (unless all are ended) and the new one may open; then the password is written, exactly these sessions have ended, and the new one is stored. |
| AuthLaws.SignUpIff | store.go:21-52 | Succeeds exactly with a new user with a new email, a free credential and, if asked for, a session that may be stored; all of them are there afterwards, or nothing has changed. |
| AuthLaws.ChangeUserIff | store.go:171-189 | Field by field what a change does, refused exactly when another user has the email. |
| AuthLaws.DeleteUserDeletes | store.go:286-300 | The user, exactly its accounts and exactly its sessions are gone. |
| AuthLaws.UnlinkIff | store.go:210-284 | One account of the user goes exactly when that is allowed for the last one or another is left; so without that permission the user never ends without an account. |
| AuthLaws.ProfileRowIs | account_identity.go:52-84 | The account of a profile is the one with its key, or else the one with its previous key. |
| AuthLaws.LinkIff | store.go:383-431 | The user's own account moves to the key, another user's refuses, and without one a new account is added; nothing else changes. |
| AuthLaws.OwnerSignsIn | store.go:812-955 | With an account of the profile: succeeds exactly when its owner exists and the session may open; the account moves to the key and the owner is verified by a verified profile of the same email. |
| AuthLaws.KnownUserSignsIn | store.go:812-955 | Without one but with a user of the email: succeeds exactly when the policy allows linking, adds the account and the session, and completes the user as the policy says. |
| AuthLaws.NewUserSignsUp | store.go:812-955 | With neither: succeeds exactly when sign-up is allowed, and adds user, account and session. |
| AuthLaws.PutIff | store.go:650-674 | A token is stored under the identifier of its purpose exactly with a new id and value; only an earlier one for the same email change goes. |
| AuthLaws.TakableIff | types.go:144-154 | A consumer takes exactly the rows that are stored under an identifier of its purpose, with the value, before they expire. |
| AuthLaws.NothingToTake | store.go:696-763 | Without such a row a consumer refuses and changes nothing. |
| AuthLaws.PasswordResetIff | store.go:696-745 | Succeeds exactly when the token's user can be read and the password can be written; then the token is gone and the password stands in the user's own credential account, and every other row is as it was. A refusal changes nothing. |
| AuthLaws.EmailChangeIff | store.go:322-357 | Succeeds exactly when the user exists and nobody else has the new email; then the token is gone and the user has the email, verified. |
| AuthLaws.OtherTokensIff | store.go:302-381 | The other four consumers remove exactly the row they take, and answer as the token says. |
| AuthStore.DatabaseStore.OpenSession | store.go:518-524 | A new id and hash give a new session. |
| AuthStore.DatabaseStore.RotateSession | store.go:539-559 | Exactly the live session with the old hash ends and the replacement opens, or nothing changes. |
| AuthStore.DatabaseStore.RevokeSession | store.go:561-569 | The live session with the hash ends, if there is one. |
| AuthStore.DatabaseStore.RevokeUserSessions | store.go:571-576 | All live sessions of the user end. |
| AuthStore.DatabaseStore.RevokeSessionById | store.go:601-614 | Only a live session of that user ends. |
| AuthStore.DatabaseStore.RevokeOtherSessions | store.go:616-627 | All live sessions of the user but the current one end. |
| AuthStore.DatabaseStore.ChangePasswordAndRotate | store.go:122-169 | Password and sessions change together, or not at all. |
| AuthStore.DatabaseStore.CreateEmailUser | store.go:21-52 | User, credential and session are created together, or not at all. |
| AuthStore.DatabaseStore.SetPasswordHash | store.go:95-120 | Writes the credential the user owns, creating it when there is none. |
| AuthStore.DatabaseStore.ReplacePasswordHash | store.go:88-93 | Replaces the hash only where the previous one is still stored. |
| AuthStore.DatabaseStore.UpdateUser | store.go:171-189 | Changes one user, and refuses an email another user has. |
| AuthStore.DatabaseStore.UnlinkAccount | store.go:210-249 | Removes one matching account of the user, never the last one unless told so. |
| AuthStore.DatabaseStore.UnlinkAccountById | store.go:251-284 | The same for one account row. |
| AuthStore.DatabaseStore.RemoveUser | store.go:286-300 | The user, the accounts and the sessions go together. |
| AuthStore.DatabaseStore.LinkOAuthAccount | store.go:383-431 | Links or refuses as a whole; a refusal undoes the re-key. |
| AuthStore.DatabaseStore.UpsertOAuthUser | store.go:812-955 | Signs in, links or signs up as a whole. |
| AuthStore.DatabaseStore.PutOneTimeToken | store.go:650-674 | Stores the token; for the email-change purposes it replaces the one before in the same step. |
| AuthStore.DatabaseStore.ConsumeFirst | store.go:302-320 | Four consumers: the token is gone whatever comes after. |
| AuthStore.DatabaseStore.ConsumeEmailChange | store.go:322-357 | Token and email change together; a refusal puts the token back. |
| AuthStore.DatabaseStore.ConsumePasswordReset | store.go:696-745 | Token and password change together; a refusal puts the token back. |
| Records.MatchRecord | adapter/memory/memory.go:423-440 | True exactly when all AND conditions hold and, if there are OR conditions, at least one of them. |
| MemoryStore.FindConflict | adapter/memory/memory.go:390-421 | Finds a conflict exactly when another row shares a unique key in which no field is nil. |
| MemoryStore.ApplyKeepsSound | adapter/memory/memory.go:122-136 | Every command keeps each row under its own id and unique keys unique, also a bulk update that stops part-way and an increment of any field. |
| MemoryStore.UpdateEachKeepsSound | adapter/memory/memory.go:232-258 | The rows a bulk update wrote before it failed are sound too. |
| MemoryStore.UpdateEachExact | adapter/memory/memory.go:232-258 | A bulk update changes exactly the matching rows and no other table, and counts them, or reports a conflict. |
| MemoryStore.RunAllKeepsSound | adapter/memory/memory.go:205-346 | The invariant holds after every sequence of commands, under every iteration order. |
| MemoryStore.MemoryAdapter.Execute | adapter/memory/memory.go:122-346 | Each operation, performed row by row on the maps, changes the rows and answers as the specification says for the order in which it visited them. |
| MemoryStore.MemoryAdapter.UpdateRows | adapter/memory/memory.go:232-258 | The loop of a bulk update equals its specification, part-way failure included. |
| MemoryStore.MemoryAdapter.Transaction | adapter/memory/memory.go:348-361 | A failed transaction leaves the rows unchanged; a successful one leaves what its flattened commands do. |
| MemoryStore.CountIsCapped | adapter/memory/memory.go:200-203 | Count never answers more than 1000. |
| MemoryStore.GuardIsExactUpTo1000 | adapter/memory/memory.go:200-203 | A guard "count reached the limit" is exact for every number of rows if and only if the limit is at most 1000. |
| MemoryStore.AllMatchesDistinct | adapter/memory/memory.go:156-198 | No row is returned twice. |
| MemoryLaws.ConsumeOneTakes | adapter/memory/memory.go:294-309 | Consuming answers a matching row and removes exactly that one, or answers none because no row matches; no other table changes. |
| MemoryLaws.RemoveOneTakes | adapter/memory/memory.go:260-275 | Deleting removes exactly one matching row, or none because no row matches. |
| MemoryLaws.SetOneUpdates | adapter/memory/memory.go:205-230 | Updating changes in one matching row exactly the fields it names but the id field, or is refused because that would repeat a unique key of another row. |
| MemoryLaws.IncrementOneAdds | adapter/memory/memory.go:311-346 | Incrementing adds each amount to a number and then takes the update, in one matching row; refused for other values, for no amounts, and for a repeated key. |
| MemoryLaws.CreateIff | adapter/memory/memory.go:122-136 | A row is added under its id exactly when the id is text, not empty and unused and no unique key is repeated. |
| MemoryLaws.RemoveManyRemoves | adapter/memory/memory.go:277-292 | A bulk deletion removes exactly the matching rows and counts them. |
| MemoryLaws.SetManyUpdates | adapter/memory/memory.go:232-258 | A bulk update changes every matching row and no other and counts them, or stops at one whose update repeats a unique key, with only matching rows changed. |
| MemoryLaws.FindOneFinds | adapter/memory/memory.go:138-154 | Finds a matching row, or none because there is none. |
| MemoryLaws.FindManyLists | adapter/memory/memory.go:156-198 | Lists the matching rows, each once, in the direction asked for, from the offset on and at most the limit: 100 by default and never more than 1000. |
| MemoryLaws.SortingSorts | adapter/memory/memory.go:174-182 | Sorting puts no two neighbours the wrong way round, keeps exactly the rows, and keeps those with the same value in their order. |
| MemoryLaws.NumbersAscend | adapter/memory/memory.go:174-182 | So on a column of numbers an earlier row never has the larger one, or the smaller one when descending. |
| MemoryLaws.CountCounts | adapter/memory/memory.go:200-203 | Counts the matching rows up to 1000. |
| MemoryLaws.UnnamedIsRefused | adapter/memory/memory.go:122-346 | A command is refused as invalid exactly when a condition names no field, or a write has no condition. |
| MemoryLaws.ScriptsRunInOrder | adapter/memory/memory.go:348-361 | A script runs its commands one after the other, and a nested transaction in place. |
| SqlCompiler.Condition | adapter/sqladapter/sqladapter.go:788-872 | Compiles one condition to its expression and arguments exactly when its operand fits its operator, and refuses it otherwise. |
| SqlCompiler.CompileWhere | adapter/sqladapter/sqladapter.go:745-786 | Compiles a list, AND and OR parts apart, numbering placeholders across all of them, exactly when it is valid and every condition names a known field and has an operand that fits. |
| SqlCompiler.CompilesIff | adapter/sqladapter/sqladapter.go:745-872 | A list compiles if and only if each condition names a known field and its operand fits: nil with equality and inequality, text with the text operators, a list with IN and NOT IN, any value but nil with an order. |
| SqlCompiler.FirstErrorIsReported | adapter/sqladapter/sqladapter.go:745-872 | Otherwise the error says what is wrong with the first condition that does not. |
| SqlCompiler.CompilationPreservesMeaning | adapter/sqladapter/sqladapter.go:745-872 | The compiled WHERE with its arguments selects exactly the rows the in-memory adapter matches, NULL columns and tests that ignore case included, wherever each condition is one the adapters read alike (`Agrees`). |
| SqlCompiler.ConditionIsExact | adapter/sqladapter/sqladapter.go:788-872 | On such a row one compiled condition is true exactly when the in-memory test holds, and on a column with a value it is false otherwise. |
| SqlCompiler.PatternIsExact | adapter/sqladapter/sqladapter.go:822-832 | LIKE with the escaped pattern is the prefix, suffix or substring test, for all strings. |
| SqlCompiler.LaterArgumentsDoNotMatter | adapter/sqladapter/sqladapter.go:745-786 | Arguments appended later never change what the compiled condition selects. |
| SqlCompiler.CompiledWithin | adapter/sqladapter/sqladapter.go:874-879 | Every placeholder refers to an argument that was returned. |
| SqlCompiler.NullIsExact | adapter/sqladapter/sqladapter.go:788-872 | On a NULL column only an empty NOT IN selects the row; the adapters select alike exactly as follows. Equality to a value: always; inequality: never; IN and NOT IN: if nil is not, or is, in the list; text and order tests: if what nil prints as fails them. |
| SqlCompiler.FoldedIsExact | adapter/sqladapter/sqladapter.go:793-795 | Ignoring case on a text column the adapters select alike for every operator and operand, except that a list must not hold the text; against nil on any column, exactly when the stored value does not print as nil does. |
| SqlCompiler.LowerPattern | adapter/sqladapter/sqladapter.go:822-832 | Lowering a LIKE pattern lowers the text looked for and disturbs no escape. |
| SqlCompiler.NotEqualDiffersOnNull | adapter/memory/memory.go:442-485 | An example in which the adapters differ: inequality on a row without the field. |
| SqlCompiler.Assignments | adapter/sqladapter/sqladapter.go:725-743 | One placeholder for each assigned field, in order, after the earlier arguments. |
| SqlCompiler.AssignmentsMatchMemory | adapter/sqladapter/sqladapter.go:725-743 | SET changes a row as the in-memory update does exactly when the update agrees about the literal "id" field, which SQL skips, and the mapped id field, which the in-memory adapter skips. |
| SqlCompiler.MappedIdDiffers | adapter/sqladapter/sqladapter.go:725-743 | A record and an update of its id field, stored as "key", which SQL writes and the in-memory adapter does not. |
| SchemaMapping.ValidateSchema | schema_adapter.go:305-351 | Accepts exactly the schemas with distinct stored names, and named, distinct indexes of at least two declared fields. |
| SchemaMapping.InputRecord | schema_adapter.go:191-200 | Every field ends under its stored name with its value converted, also when names are swapped. |
| SchemaMapping.OutputRecord | schema_adapter.go:202-212 | Reading a stored record back finds every field under its own logical name. |
| SchemaMapping.SearchIsInverse | schema_adapter.go:148-155 | The search for the logical name inverts the mapping, in every search order, exactly when no unmapped field named "" stands beside another unmapped one. |
| SchemaMapping.ValuesRoundTrip | schema_adapter.go:214-303 | Output of input is the identity on well-typed records, with and without native booleans. |
| SchemaMapping.BooleanTests | schema_adapter.go:230-238 | In a store without booleans, with the operand the adapter passes on, a test of a boolean field against a boolean or nil means the same unless it is an order test, which does if and only if both sides or neither is nil; a list is not converted, so a membership test agrees if and only if the field is nil or its value is not in the list. |
| SchemaMapping.BooleansCompare | schema_adapter.go:230-238 | As numbers, booleans sort as before, except that nil moves from before them to after them. |
| SchemaMapping.MapWhere | schema_adapter.go:168-177 | Predicates are mapped field by field. |
| SchemaMapping.RenameMatches | adapter/memory/memory.go:423-440 | A mapped row satisfies a mapped predicate exactly when the logical row satisfies the logical one. |
| SchemaMapping.RenameConflicts | adapter/memory/memory.go:390-421 | A mapped candidate conflicts exactly when the logical one does. |
| SchemaSimulation.RulesFromSchema | adapter/memory/memory.go:60-96 | Gives each stored model its stored id field and exactly the keys of its unique fields and unique indexes. |
| SchemaSimulation.KeysAgree | adapter/memory/memory.go:60-96 | The keys under stored names are the keys of the unmapped schema, renamed. |
| SchemaSimulation.RenameSorted | adapter/memory/memory.go:156-198 | Sorting commutes with the mapping. |
| SchemaSimulation.RenameIncremented | adapter/memory/memory.go:311-346 | Increments commute with the mapping. |
| SchemaSimulation.SimulateUpdateEach | adapter/memory/memory.go:232-258 | Bulk updates commute with the mapping, part-way failure included. |
| SchemaSimulation.SimulateApply | schema_adapter.go:31-126 | On a store that keeps every type, each operation through the mapping leaves corresponding rows and gives the corresponding answer, swapped names included, for the accepted schemas that `SchemaExactness.UsableIsExact` shows to be exactly those for which it can. |
| SchemaExactness.AlikeIffKept | schema_adapter.go:305-351 | For every accepted schema: all commands over declared fields, from all corresponding stores, answer alike and leave corresponding stores, if and only if no model without an id stores another field as "id" and no model stores a field named "" under another name. One command on empty stores already tells. |
| SchemaExactness.UsableIsExact | schema_adapter.go:148-155 | With that, stored names that always read back as their fields are exactly what the simulation asks of an accepted schema. |
| SchemaExactness.CreateDiffers | adapter/memory/memory.go:122-136 | Where another field is stored as "id", a record without an id is refused by the logical store and stored through the mapping. |
| SchemaExactness.FindDiffers | adapter/memory/memory.go:138-154 | Where a field named "" has a stored name, a search for it is refused by the logical store and answered through the mapping. |
| SchemaExactness.HandleDiffers | schema_adapter.go:305-351 | A concrete schema that is accepted and behaves differently: its only field is stored as "id". |
| SchemaExactness.UnnamedDiffers | schema_adapter.go:305-351 | Another one: its only field is named "" and stored as "blank". |
| SchemaExactness.NamesAreInjective | schema_adapter.go:191-200 | The names of a record are one-to-one, "id" included, exactly when an undeclared id is nobody else's stored name. |
| SchemaBooleans.KeptApply | schema_adapter.go:230-238 | On a store without booleans every command that does not sort by, add to or compare by order a boolean field does on the numbers what it does on the booleans: same rows written, same answer, from every well-typed store. |
| SchemaBooleans.KeptMatches | adapter/memory/memory.go:423-440 | A row kept as numbers satisfies the converted predicate exactly when the row satisfies the predicate. |
| SchemaBooleans.KeptConflicts | adapter/memory/memory.go:390-421 | A candidate kept as numbers conflicts exactly when the candidate does. |
| SchemaBooleans.IncrementDiffers | adapter/memory/memory.go:311-346 | Adding to a boolean field is refused on booleans and goes through on their numbers. |
| SchemaSimulation.SimulateScript | schema_adapter.go:128-132 | The same for whole sequences of operations. |
| MappingAdapter.SimulatePassed | schema_adapter.go:31-126 | Name mapping and boolean conversion together: one command leaves the store showing the logical rows and gives the logical answer as the store keeps it. |
| MappingAdapter.StoredInItsColumns | schema_adapter.go:134-200 | A record goes to the stored table of its model, each value into the stored column of its field, with 1 or 0 for a boolean where the store has none. |
| MappingAdapter.SchemaAdapter.Execute | schema_adapter.go:31-126 | A caller of the mapping adapter sees exactly the store with logical names and booleans, over a store with booleans or without. |
| MappingAdapter.SchemaAdapter.Transaction | schema_adapter.go:128-132 | A transaction through the mapping commits what its commands do to the logical store, or nothing. |
| DatabaseHooks.HookedAdapter.Before | database_hooks.go:266-276 | Before hooks run in registration order, each on what the one before returned, up to the first failure. |
| DatabaseHooks.HookedAdapter.Defer | database_hooks.go:278-294 | Inside a transaction the after hooks of one mutation are queued in registration order. |
| DatabaseHooks.HookedAdapter.CallNow | database_hooks.go:278-294 | Outside a transaction the calls made are exactly those of the threaded sequence up to the first failure, and it succeeds exactly when none of them fails. |
| DatabaseHooks.CallsOnceInOrder | database_hooks.go:278-294 | These calls are in registration order, each matching hook at most once; only the last can have failed, every matching hook up to it was called, and all of them when none failed. |
| DatabaseHooks.HookedAdapter.RunInside | database_hooks.go:238-252 | Mutations of nested transactions queue on the same list, in the order they happen. |
| DatabaseHooks.HookedAdapter.Transaction | database_hooks.go:238-264 | A rolled-back transaction calls no after hook; a committed one calls the queue up to the first failure. |
| DatabaseHooks.EffectsExactlyOnce | database_hooks.go:278-294 | The queue holds each matching after hook exactly once for each successful mutation, in mutation then registration order. |
| DatabaseHooks.CalledIsPrefix | database_hooks.go:255-263 | The calls are a prefix of the queue and stop only after a failure. |
| DatabaseHooks.NestedIsFlat | database_hooks.go:239-245 | A nested transaction has the mutations of its body. |
| DatabaseHooks.BeforeThreads | database_hooks.go:266-276 | Each before hook that is for the model and operation gets what the one before it left; the result is what the last one left, and a refusal comes from the first that fails. |
| DatabaseHooks.CountsIff | database_hooks.go:142-160 | A mutation counts exactly when its before hooks pass and the store answers; its after hooks see the answer. |
| DatabaseHooks.CallsThread | database_hooks.go:278-294 | Outside a transaction each after hook gets what the one before it left. |
| DatabaseHooks.MatchesIff | database_hooks.go:304-312 | A hook is for its own model and operations, and "*" and no operations mean all. |
| Migration.PhysicalFields | adapter/sqladapter/sqladapter.go:966-1035 | Fails exactly when a stored name is not an identifier, and otherwise holds exactly the stored fields. |
| Migration.PhysicalSchema | adapter/sqladapter/sqladapter.go:966-1035 | The stored tables hold exactly the stored fields of the models, or the schema is refused. |
| Migration.Database.Preflight | adapter/sqladapter/sqladapter.go:446-483 | Refuses an unsafe migration before anything changes. |
| Migration.Database.Migrate | adapter/sqladapter/sqladapter.go:158-166 | Succeeds only when columns, defaults and the indexes of unique and indexed fields all go through, table after table, and then leaves exactly what that makes; fails only when the schema is badly named or they do not; on any error the database is as it was. |
| Migration.Database.CreateIndexes | adapter/sqladapter/sqladapter.go:529-547 | Makes exactly the wanted indexes whose names no index of any table has, or fails exactly when one of these lacks its column or, being unique, meets repeated values. |
| Migration.CannotRunIff | adapter/sqladapter/sqladapter.go:445-569 | With distinct stored names there is one stored schema, so for well-named schemas success means exactly that it goes through in the order of the tables. |
| Migration.MigrationIsComplete | adapter/sqladapter/sqladapter.go:445-569 | After the changes nothing the schema writes is missing, if and only if no such table existed without columns. |
| Migration.NamesWithin | adapter/sqladapter/sqladapter.go:536-541 | Index names tell the indexes of one table apart, whatever the column names. |
| IndexNames.AllIndexedIff | adapter/sqladapter/sqladapter.go:529-547 | A migration that goes through makes every index the schema wants if and only if none has the name of an index of another table, wanted or there already. |
| IndexNames.ApartIsOrderFree | adapter/sqladapter/sqladapter.go:484-547 | With such names the order of the tables does not matter: the migration goes through exactly when it is safe and each table can be migrated alone, and leaves each as if it had been. |
| IndexNames.SecondIndexSkipped | adapter/sqladapter/sqladapter.go:540-541 | For all names a, b and c, the tables "a" with unique "b_c" and "a_b" with unique "c" migrate into an empty database in either order, and one of the two indexes is never made. |
| IndexNames.FreshRun | adapter/sqladapter/sqladapter.go:445-569 | Into an empty database any schema with valid defaults migrates, in every order. |
| IndexNames.IndexedMigrationIsComplete | adapter/sqladapter/sqladapter.go:445-569 | With names apart, a model with a unique or indexed field is never migrated over a table without columns, so nothing of that model is missing once the migration goes through. |
| Migration.MigrationKeepsColumns | adapter/sqladapter/sqladapter.go:445-569 | No table, column, row or index is dropped or changed. |
| Migration.ColumnsFollowFields | adapter/sqladapter/sqladapter.go:602-622 | An added column is nullable exactly when its field is not required, and has a default exactly when the field does. |
| Migration.RowsStayValid | adapter/sqladapter/sqladapter.go:446-483 | Only columns of the schema are added, and in a table with rows only nullable ones or ones with a default. |
| Migration.UnsafeIff | adapter/sqladapter/sqladapter.go:446-483 | A migration is unsafe exactly when a table with columns and rows misses a required column without a default. |
| IndexNames.IndexesFollowFields | adapter/sqladapter/sqladapter.go:529-547 | With names apart the indexes afterwards are those before, a unique one for each unique column and a plain one for each other indexed column. |
| Migration.MigrationIsIdempotent | adapter/sqladapter/sqladapter.go:445-569 | Running it again, in any order, goes through and adds nothing. |
| Migration.StoredTablesHaveColumns | adapter/sqladapter/sqladapter.go:966-1035 | Stored tables of a well-named schema are never empty. |
| Migration.DiffTable | schema_check.go:218-254 | Reports exactly the missing columns and the unexpected required ones of a table. |
| Migration.DiffSchema | schema_check.go:218-254 | Reports exactly the findings of all written tables, or the missing table. |
| Migration.WrittenIsStored | schema_check.go:168-209 | Every column the schema writes is a column of its stored table. |
| AccountRekey.PlanAll | migration/v17/account_ids.go:79-101 | Planning succeeds exactly when the rows are within the limit, complete, and answered by the resolver with an id of at most 512 bytes; each planned row then has the trimmed answer, or its own id when that is empty. |
| AccountRekey.PlanCovers | migration/v17/account_ids.go:79-101 | The plan lists every account exactly once with its current values. |
| AccountRekey.Collisions | migration/v17/account_ids.go:170-207 | Reports exactly the groups of two or more rows with one target. |
| AccountRekey.ReportIsExact | migration/v17/account_ids.go:170-207 | Something is reported if and only if two rows share a target or two different targets read the same once joined with NUL, which needs one provider to hold a NUL. |
| AccountRekey.FalseReport | migration/v17/account_ids.go:170-207 | Two rows with different providers that are reported. |
| AccountRekey.CheckPlan | migration/v17/account_ids.go:102-110 | Accepts a plan if and only if nothing is reported and there is no chain, and names the right reason otherwise. |
| AccountRekey.ChainIsExact | migration/v17/account_ids.go:221-238 | A plan is refused exactly when some row moves onto the current key of another row that moves. |
| AccountRekey.IntermediateUnique | migration/v17/account_ids.go:112-134 | In every intermediate state of an accepted plan (provider, account id) is unique. |
| AccountRekey.UpdateSucceeds | migration/v17/account_ids.go:112-134 | The next update of an accepted plan neither misses its row nor meets the unique key. |
| AccountRekey.AcceptedRuns | migration/v17/account_ids.go:112-134 | An accepted plan runs to its end. |
| AccountRekey.RunReaches | migration/v17/account_ids.go:112-134 | A run that succeeds ends in exactly the planned rows. |
| AccountRekey.AcceptedIffEveryOrderRuns | migration/v17/account_ids.go:170-238 | The plans without shared targets and chains are exactly those that run without conflict in every order. |
| AccountRekey.AccountTable.ApplyPlan | migration/v17/account_ids.go:112-134 | The update loop ends in the planned rows, or stops at the first update that misses or conflicts. |
| AccountRekey.AccountTable.RewriteAccountIds | migration/v17/account_ids.go:61-140 | Succeeds exactly when every row can be planned, no two would share provider and id joined with NUL, and none takes the key of another that moves. Then each row has the id its resolver answered, trimmed, or its own when that is empty, and the count is that of the rows changed. On any error, and in a dry run, nothing has changed. |
| AccountRekey.PlanAccountIff | migration/v17/account_ids.go:142-168 | One row is planned exactly when it is complete and answered with an id of at most 512 bytes, and gets that id. |
| AccountRekey.ResolvedIff | migration/v17/account_ids.go:170-238 | The checks on a plan refuse exactly when what the resolver wants shares a target or forms a chain. |
| SchemaGate.StepKeepsInv | schema_check.go:324-366 | Every atomic step of every caller keeps the gate consistent. |
| SchemaGate.RunKeepsInv | schema_check.go:324-366 | The same in every state of every interleaving of any number of callers. |
| SchemaGate.SingleFlight | schema_check.go:324-366 | At most one check runs at a time. |
| SchemaGate.CleanIsFinal | schema_check.go:324-366 | clean is set only when a nil result is published and never cleared; once it is set no check runs or starts. |
| SchemaGate.ReturnedVerdict | schema_check.go:324-366 | A nil return implies clean; a follower's verdict is that of a closed call whose leader was not cancelled. |
| SchemaGate.VerdictsAreChecked | schema_check.go:324-366 | A verdict that a caller returns was found by a check: its own, or one whose leader's context had not ended when it failed. |
| SchemaGate.OnlyEndedGiveUp | schema_check.go:324-366 | Only a caller whose own context has ended is told so. |
| SchemaGate.NoLostWakeup | schema_check.go:324-366 | A waiting follower's call is closed or still has an active leader. |
| SchemaGate.SomeoneCanStep | schema_check.go:324-366 | No deadlock: while a caller has not returned, some unreturned caller can step. |
| SchemaGate.StepsMakeProgress | schema_check.go:324-366 | Every step but an arrival or the end of a context brings the callers closer to returning. |
| PluginOrder.Visitor.Visit | plugin.go:397-424 | Places a plugin after all its dependencies, or finds a missing dependency or a cycle; terminates because unvisited ids run out. |
| PluginOrder.SortDependencies | plugin.go:409-412 | Sorts the dependencies by registration position without losing any. |
| PluginOrder.CompilePlugins | plugin.go:375-431 | Succeeds exactly when ids are valid, distinct and trimmed and the graph is closed and acyclic; the result is a permutation with every dependency first, and keeps an order that already was one. |
| PluginOrder.OrderedIsAcyclic | plugin.go:397-424 | A list with dependencies first has no cycle among its plugins. |
| PluginOrder.CycleThroughStack | plugin.go:398-401 | Meeting a plugin on the current path is a cycle of the graph. |
| PluginOrder.SamePlugins | plugin.go:420-431 | The result holds the same plugins, each as often as before. |
| PluginRoutes.PathShape | plugin.go:645-672 | Accepts exactly the valid templates and tells whether they have parameters. |
| PluginRoutes.MatchPath | plugin.go:688-710 | Matches exactly when the segments agree one by one, with a final wildcard taking any rest, also none. |
| PluginRoutes.TemplatesOverlap | plugin.go:725-740 | Compares the segments up to the shorter template. |
| PluginRoutes.OverlapIsExact | plugin.go:725-740 | For valid templates it is true exactly when some path matches both, except when one has exactly one extra segment, a final wildcard. |
| PluginRoutes.MissedOverlap | plugin.go:725-740 | An example of the exception. |
| PluginRoutes.CompileEndpoints | plugin.go:488-554 | Accepts a list exactly when every endpoint is acceptable and no two clash, and then registers exactly these. |
| PluginRoutes.AtMostOneDynamic | plugin.go:541-554 | Without such pairs at most one dynamic endpoint per method matches any path. |
| PluginRoutes.CoreRoutesStayCore | plugin.go:521-540 | No accepted set of plugins takes over a path on the core list. Reset and provider callbacks are not on it; the rows below give their exact conditions. |
| PluginRoutes.ResetStaysCore | plugin_http.go:238-240 | The reset callback of any token, slashes included, stays a core route if and only if no accepted endpoint is that path, and no accepted template starts with a parameter or "reset-password" and goes on with the first segment of the token spelled out, or with a parameter and at least one more segment, and matches the rest. |
| PluginRoutes.OneSegmentResetStaysCore | plugin_http.go:238-240 | For a token of one segment: if and only if no accepted endpoint is the path and no template spells the token out, followed by nothing or a final wildcard. |
| PluginRoutes.ResetTakenOver | plugin.go:629-643 | The path itself is accepted as an endpoint for every token that is a valid literal segment. |
| PluginRoutes.AbcTakenOver | plugin.go:629-643 | An instance of that with the actual list. |
| PluginRoutes.CallbackStaysCore | plugin.go:610-643 | The callback of a provider, which is not on the list, stays a core route if and only if no accepted template spells the provider id out behind a parameter. |
| PluginRoutes.SignUpIsCore | plugin.go:629-643 | The actual list holds the sign-up route that this needs. |
| PluginRoutes.CallbackTakenOver | plugin.go:610-643 | Such a template is accepted whenever no listed path matches it. |
| PluginRoutes.GithubTakenOver | plugin.go:629-643 | An instance of that with the actual list. |
| PluginRoutes.ResolveRoute | plugin_http.go:198-245 | Fixed plugin paths come first, then the templates, with the last match of the method selected and exactly the methods of all matches allowed; core routes answer only after these, with the methods of their kind. |
| PluginRoutes.RouteByRoute | plugin_http.go:230-237 | Five core routes answer GET only, all the others POST only. |
| PluginRoutes.ResetMethods | plugin_http.go:238-240 | A reset link, for every token, answers GET. |
| PluginRoutes.CallbackMethods | plugin_http.go:241-243 | A callback path is that of an id of 1 to 64 small letters, digits, hyphens and underscores, and answers GET and POST. |
| ScimFilter.SplitFilterAnd | plugin/scim/filter.go:49-79 | The byte loop splits exactly at "and" between blanks outside quotes. |
| ScimFilter.ParseEquality | plugin/scim/filter.go:81-124 | Parses exactly one path, "eq" and one quoted value with quote and backslash escapes. |
| ScimFilter.ParseFilter | plugin/scim/filter.go:16-47 | Parses exactly the filters within the limits, or names the reason. |
| ScimFilter.FilterRoundTrip | plugin/scim/filter.go:16-47 | Printing any non-empty clause list within the limits and parsing it gives the list back. |
| ScimFilter.ParsedIsPrintable | plugin/scim/filter.go:16-47 | Whatever parses is such a list. |
| ScimFilter.ParsedReads | plugin/scim/filter.go:9-47 | Each clause reads the stored field of its path: "id" the id, "userName" and "emails.value" the email, "externalId" the account id, in any case; a path is unsupported exactly when it is none of these. |
| ScimFilter.ReadablePathParses | plugin/scim/filter.go:9-47 | A clause with any of the four paths and a value within the limits parses. |
| ScimFilter.ScanPrinted | plugin/scim/filter.go:49-79 | Splitting never cuts inside a quoted value. |
| ScimFilter.ClauseOfPrinted | plugin/scim/filter.go:81-124 | One printed clause parses to itself. |

## Left out

- HTTP handlers, cookies, CSRF, JSON, mail, rate limits, background tasks and the social providers: plumbing around the modelled parts.
- The MongoDB driver, SQL connections and live introspection: foreign input and output; SQL is a small syntax tree with an evaluator and a database is a map from tables to columns.
- Cryptography: hashes and random tokens are opaque fresh values.
- Joins, `Select` projections, audit and outbox rows and error texts: they do not affect the properties.
- Provider access tokens, scopes, and the time stamps other than revocation and expiry: stored and returned only. Stored times are never the zero time.
- Extension fields of users and sessions, so the session update, which writes only those.
- Application hooks: they return and do not write; checks that the organization handlers repeat around them are made once.
- Checks that organization handlers make before their transaction see the rows of the transaction.
- The lookup of the user with an invited email is a parameter (`holder`), as are the user of a request and the ids it generates.
- TenancyHandlers.Organizations.IssueSession: does not look up the user, because users are not among these tables; which session the request belongs to is a parameter, and it is refused when that has ended meanwhile.
- `AuthState` and `Tenancy` keep typed tables instead of generic rows. A bulk update or deletion selects all its rows at once there; the row-by-row loops are those of `MemoryStore`.
- Renaming teams and organizations, listing and reading: easy members.
- Which error is reported when several endpoints of a plugin set are wrong, and the cleaning of request paths before they are matched.
- Records.MatchRecord: numbers print as their integer part and instants as nanoseconds, and lower case is that of characters whose lower case is ASCII, because formatting and Unicode tables belong to libraries.
- SchemaMapping.ValuesRoundTrip: covers booleans; dates, JSON and arrays are native, because their text forms belong to libraries.
- SchemaSimulation.SimulateApply: models and all fields but the id are declared, because the mapping passes other names through unchanged and they could meet stored names.
- SchemaBooleans.KeptApply: boolean fields are tested against booleans and nil only, and not by order, sorting or increments; `SchemaMapping.BooleanTests`, `BooleansCompare` and `IncrementDiffers` show where those differ.
- SqlCompiler.CompilationPreservesMeaning: leaves out operands of another type than the column, which databases convert or refuse each in its own way. LIKE is that of PostgreSQL.
- Migration.Database.Migrate: does not create compound indexes, which can make the migration fail in further cases (a table without columns, repeated combinations of values), takes identifiers with ASCII letters only, and names an index by its full name where longer ones are hashed.
- MemoryStore.MemoryAdapter.Execute: adds numbers as unbounded reals where the code adds 64-bit floating-point numbers, and sorts by insertion, where the stable sort of the library may arrange a column of mixed kinds, which has no order, in another way.
- PluginRoutes.CompileEndpoints: takes the list of core paths as a parameter; `GithubTakenOver` uses the actual list.
- RoleNames.CanonicalRoles: sorts with a specification function, because the sort is a library function.
- Config normalisation, SCIM provisioning, passkeys, one-time-token delivery and the outbox dispatcher: easier or repeated claims.
