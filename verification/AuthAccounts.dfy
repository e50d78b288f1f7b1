/**
 Users and accounts: unique keys, fixed owners, and sign-in through a provider.
 */
module AuthAccounts {
  import opened Wrappers
  import opened AuthState

  // ---------------------------------------------------------------- unique keys

  lemma AddUser(users: map<string, User>, u: User)
    requires SoundUsers(users) && u.id != "" && forall id | id in users :: id == u.id || users[id].email != u.email
    ensures SoundUsers(users[u.id := u])
  {
  }

  lemma AddAccount(accounts: map<string, Account>, a: Account)
    requires SoundAccounts(accounts) && a.id != "" && forall id | id in accounts :: id == a.id || !SameKey(accounts[id], a.provider, a.accountId)
    ensures SoundAccounts(accounts[a.id := a])
  {
  }

  lemma SetPasswordsSound(accounts: map<string, Account>, ids: set<string>, password: string)
    requires SoundAccounts(accounts)
    ensures SoundAccounts(SetPasswords(accounts, ids, password))
  {
  }

  lemma RekeyedSound(s: State, p: Profile)
    requires SoundAccounts(s.accounts) && ProfileRow(s, p).Some?
    ensures SoundAccounts(Rekeyed(s, ProfileRow(s, p).value, p))
  {
    var id := ProfileRow(s, p).value;
    AddAccount(s.accounts, s.accounts[id].(accountId := p.accountId));
  }

  lemma VerifiedKeeps(u: User, p: Profile, policy: Policy)
    ensures Verified(u, p).id == u.id && Verified(u, p).email == u.email
    ensures Completed(u, p, policy).id == u.id && Completed(u, p, policy).email == u.email
  {
  }

  lemma UpsertKeepsSound(s: State, p: Profile, x: Session, rowId: string, policy: Policy)
    requires SoundUsers(s.users) && SoundAccounts(s.accounts)
    ensures var after := Upserted(s, p, x, rowId, policy).0; SoundUsers(after.users) && SoundAccounts(after.accounts)
  {
    var row, known, answer := ProfileRow(s, p), EmailRow(s, p.email), Upserted(s, p, x, rowId, policy).1;
    if answer.Success? {
      if row.Some? {
        var owner := s.accounts[row.value].userId;
        RekeyedSound(s, p);
        VerifiedKeeps(s.users[owner], p, policy);
        AddUser(s.users, Verified(s.users[owner], p));
      } else if known.Some? {
        VerifiedKeeps(s.users[known.value], p, policy);
        AddUser(s.users, Completed(s.users[known.value], p, policy));
        AddAccount(s.accounts, NewAccount(p, rowId, known.value));
      } else {
        AddUser(s.users, NewUser(p, x.userId));
        AddAccount(s.accounts, NewAccount(p, rowId, x.userId));
      }
    }
  }

  lemma LinkKeepsSound(s: State, rowId: string, userId: string, p: Profile)
    requires SoundAccounts(s.accounts)
    ensures SoundAccounts(Linked(s, rowId, userId, p).0.accounts)
  {
    if ProfileRow(s, p).Some? { RekeyedSound(s, p); }
    else if AccountRefusal(s, NewAccount(p, rowId, userId)).None? { AddAccount(s.accounts, NewAccount(p, rowId, userId)); }
  }

  lemma SetPasswordKeepsSound(s: State, userId: string, password: string)
    requires SoundUsers(s.users) && SoundAccounts(s.accounts)
    ensures var after := AccountStep(s, SetPassword(userId, password)).0; after.users == s.users && SoundAccounts(after.accounts)
  {
    var a := CredentialAccount(userId, password);
    SetPasswordsSound(s.accounts, OwnCredential(s, userId), password);
    if OwnCredential(s, userId) == {} && AccountRefusal(s, a).None? { AddAccount(s.accounts, a); }
  }

  lemma ChangeUserKeepsSound(s: State, userId: string, change: UserChange)
    requires SoundUsers(s.users)
    ensures SoundUsers(UserChanged(s, userId, change).0.users)
    ensures UserChanged(s, userId, change).0.accounts == s.accounts
  {
    if userId in s.users && !EmailTaken(s, ChangedUser(s.users[userId], change).email, userId) {
      AddUser(s.users, ChangedUser(s.users[userId], change));
    }
  }

  lemma AccountStepKeepsSound(s: State, c: AccountCall)
    requires SoundUsers(s.users) && SoundAccounts(s.accounts)
    ensures var after := AccountStep(s, c).0; SoundUsers(after.users) && SoundAccounts(after.accounts)
  {
    match c
    case SignUp(u, password, createSession, x) => SignUpKeepsSound(s, u, password, createSession, x);
    case SetPassword(userId, password) => SetPasswordKeepsSound(s, userId, password);
    case ReplacePassword(userId, previous, password) =>
      SetPasswordsSound(s.accounts, WithPassword(s, CredentialOf(s, userId), previous), password);
    case ChangePassword(userId, previous, password, revokeOthers, currentHash, r) =>
      SetPasswordsSound(s.accounts, WithPassword(s, OwnCredential(s, userId), previous), password);
    case ChangeUser(userId, change) => ChangeUserKeepsSound(s, userId, change);
    case Unlink(userId, allowLast, row) =>
    case DeleteUser(userId) =>
    case Link(rowId, userId, profile) => LinkKeepsSound(s, rowId, userId, profile);
    case Upsert(profile, x, rowId, policy) => UpsertKeepsSound(s, profile, x, rowId, policy);
  }

  lemma SignUpKeepsSound(s: State, u: User, password: string, createSession: bool, x: Session)
    requires SoundUsers(s.users) && SoundAccounts(s.accounts)
    ensures var after := SignedUp(s, u, password, createSession, x).0; SoundUsers(after.users) && SoundAccounts(after.accounts)
  {
    var a := CredentialAccount(u.id, password);
    if UserRefusal(s, u).None? { AddUser(s.users, u); }
    if AccountRefusal(s, a).None? { AddAccount(s.accounts, a); }
  }

  lemma TokenStepKeepsSound(s: State, c: TokenCall)
    requires SoundUsers(s.users) && SoundAccounts(s.accounts)
    ensures var after := TokenStep(s, c).0; SoundUsers(after.users) && SoundAccounts(after.accounts)
  {
    if c.Consume? {
      var row := SpendableRow(s, c.purpose, c.hash, c.now);
      if row.Some? {
        var t, after := s.tokens[row.value], s.(tokens := s.tokens - {row.value});
        if c.purpose.EmailChange? {
          ChangeUserKeepsSound(after, t.userId, UserChange(Some(t.newEmail), Some(true), None, None));
        } else if c.purpose.PasswordReset? {
          SetPasswordKeepsSound(after, t.userId, c.argument);
        }
      }
    }
  }

  /** No call ever lets two users share an email or two accounts share a (provider, id) key. */
  lemma KeysStayUnique(s: State, call: Call)
    requires SoundUsers(s.users) && SoundAccounts(s.accounts)
    ensures var after := Step(s, call).0; SoundUsers(after.users) && SoundAccounts(after.accounts)
  {
    match call
    case OnSession(c) => SessionStepKeepsAccounts(s, c);
    case OnAccount(c) => AccountStepKeepsSound(s, c);
    case OnToken(c) => TokenStepKeepsSound(s, c);
  }

  lemma SessionStepKeepsAccounts(s: State, c: SessionCall)
    ensures SessionStep(s, c).0.users == s.users && SessionStep(s, c).0.accounts == s.accounts
  {
  }

  // ---------------------------------------------------------------- owners

  predicate OwnersKept(before: map<string, Account>, after: map<string, Account>) {
    forall id | id in before && id in after :: after[id].userId == before[id].userId && after[id].provider == before[id].provider
  }

  lemma AccountStepKeepsOwners(s: State, c: AccountCall)
    ensures OwnersKept(s.accounts, AccountStep(s, c).0.accounts)
  {
    if c.Upsert? { UpsertKeepsOwners(s, c.profile, c.session, c.rowId, c.policy); }
    else if c.SetPassword? { SetPasswordKeepsOwners(s, c.userId, c.password); }
    else if c.SignUp? { SignUpKeepsOwners(s, c.user, c.password, c.createSession, c.session); }
    else if c.Link? { LinkKeepsOwners(s, c.rowId, c.userId, c.profile); }
  }

  lemma SignUpKeepsOwners(s: State, u: User, password: string, createSession: bool, x: Session)
    ensures OwnersKept(s.accounts, SignedUp(s, u, password, createSession, x).0.accounts)
  {
  }

  lemma LinkKeepsOwners(s: State, rowId: string, userId: string, p: Profile)
    ensures OwnersKept(s.accounts, Linked(s, rowId, userId, p).0.accounts)
  {
  }

  lemma SetPasswordKeepsOwners(s: State, userId: string, password: string)
    ensures OwnersKept(s.accounts, AccountStep(s, SetPassword(userId, password)).0.accounts)
  {
  }

  lemma UpsertKeepsOwners(s: State, p: Profile, x: Session, rowId: string, policy: Policy)
    ensures OwnersKept(s.accounts, Upserted(s, p, x, rowId, policy).0.accounts)
  {
  }

  lemma SpendingKeepsOwners(s: State, p: Purpose, t: Token, after: State, argument: string)
    requires after.accounts == s.accounts
    ensures OwnersKept(s.accounts, Spent(s, p, t, after, argument).0.accounts)
  {
    SetPasswordKeepsOwners(after, t.userId, argument);
  }

  lemma TokenStepKeepsOwners(s: State, c: TokenCall)
    ensures OwnersKept(s.accounts, TokenStep(s, c).0.accounts)
  {
    if c.Consume? && SpendableRow(s, c.purpose, c.hash, c.now).Some? {
      var row := SpendableRow(s, c.purpose, c.hash, c.now).value;
      SpendingKeepsOwners(s, c.purpose, s.tokens[row], s.(tokens := s.tokens - {row}), c.argument);
    }
  }

  /** As long as an account row exists, its owner and its provider stay the same. */
  lemma OwnersNeverChange(s: State, call: Call)
    ensures OwnersKept(s.accounts, Step(s, call).0.accounts)
  {
    match call
    case OnSession(c) => SessionStepKeepsAccounts(s, c);
    case OnAccount(c) => AccountStepKeepsOwners(s, c);
    case OnToken(c) => TokenStepKeepsOwners(s, c);
  }

  /** The row is there after every prefix of the run. */
  ghost predicate Stays(s: State, calls: seq<Call>, id: string)
    decreases |calls|
  {
    id in s.accounts && (calls != [] ==> Stays(Step(s, calls[0]).0, calls[1..], id))
  }

  lemma {:induction false} AccountsOverRuns(s: State, calls: seq<Call>)
    requires SoundUsers(s.users) && SoundAccounts(s.accounts)
    ensures SoundUsers(After(s, calls).users) && SoundAccounts(After(s, calls).accounts)
    ensures forall id | Stays(s, calls, id) :: id in After(s, calls).accounts && After(s, calls).accounts[id].userId == s.accounts[id].userId
    decreases |calls|
  {
    if calls != [] {
      KeysStayUnique(s, calls[0]);
      OwnersNeverChange(s, calls[0]);
      AccountsOverRuns(Step(s, calls[0]).0, calls[1..]);
    }
  }

  // ---------------------------------------------------------------- provider sign-in

  predicate OwnsKey(s: State, id: string, p: Profile, userId: string) {
    id in s.accounts && SameKey(s.accounts[id], p.provider, p.accountId) && s.accounts[id].userId == userId
  }

  ghost predicate KeyOwnedBy(s: State, p: Profile, userId: string) {
    exists id :: OwnsKey(s, id, p, userId)
  }

  lemma SignedInTies(s: State, p: Profile, x: Session, row: string)
    requires SoundUsers(s.users) && row in s.accounts && s.accounts[row].provider == p.provider && SignedIn(s, p, x, row).1.Success?
    ensures var (after, answer) := SignedIn(s, p, x, row);
            answer.value.user.Some? && KeyOwnedBy(after, p, answer.value.user.value.id)
  {
    var (after, answer) := SignedIn(s, p, x, row);
    VerifiedKeeps(s.users[s.accounts[row].userId], p, Policy(true, true, true, true));
    assert OwnsKey(after, row, p, answer.value.user.value.id);
  }

  lemma NewAccountTies(s: State, p: Profile, x: Session, rowId: string, policy: Policy)
    requires SoundUsers(s.users) && ProfileRow(s, p).None? && Upserted(s, p, x, rowId, policy).1.Success?
    ensures var (after, answer) := Upserted(s, p, x, rowId, policy);
            answer.value.user.Some? && KeyOwnedBy(after, p, answer.value.user.value.id)
  {
    var (after, answer) := Upserted(s, p, x, rowId, policy);
    var known := EmailRow(s, p.email);
    if known.Some? { VerifiedKeeps(s.users[known.value], p, policy); }
    assert OwnsKey(after, rowId, p, answer.value.user.value.id);
  }

  /** A successful upsert leaves the profile's key, the returned user and the new session on one
      user id, and that user exists; anything else leaves the store as it was. */
  lemma UpsertTies(s: State, p: Profile, x: Session, rowId: string, policy: Policy)
    requires SoundUsers(s.users) && SoundAccounts(s.accounts)
    ensures var (after, answer) := Upserted(s, p, x, rowId, policy);
            if answer.Failure? then after == s
            else
              && answer.value.user.Some? && answer.value.session.Some?
              && var u, y := answer.value.user.value, answer.value.session.value;
                 && y == x.(userId := u.id)
                 && u.id in after.users && after.users[u.id] == u
                 && y.id in after.sessions && after.sessions[y.id] == y
                 && KeyOwnedBy(after, p, u.id)
  {
    var (after, answer) := Upserted(s, p, x, rowId, policy);
    if answer.Success? {
      var row, known := ProfileRow(s, p), EmailRow(s, p.email);
      if row.Some? {
        VerifiedKeeps(s.users[s.accounts[row.value].userId], p, policy);
        SignedInTies(s, p, x, row.value);
      } else {
        if known.Some? { VerifiedKeeps(s.users[known.value], p, policy); }
        NewAccountTies(s, p, x, rowId, policy);
      }
    }
  }

  /** An upsert never takes over an account or a user: an existing account signs in its owner,
      and an existing user is linked only when the policy allows it. */
  lemma UpsertRespectsOwner(s: State, p: Profile, x: Session, rowId: string, policy: Policy)
    requires SoundUsers(s.users) && SoundAccounts(s.accounts) && Upserted(s, p, x, rowId, policy).1.Success?
    ensures var u := Upserted(s, p, x, rowId, policy).1.value.user.value;
            var row := ProfileRow(s, p);
            && (row.Some? ==> s.accounts[row.value].userId == u.id && u.id in s.users)
            && (row.None? && u.id in s.users ==>
                  s.users[u.id].email == p.email && policy.implicitLink && (policy.requireVerified ==> s.users[u.id].verified))
            && (u.id !in s.users ==> policy.allowSignUp && u.email == p.email)
  {
    var row, known := ProfileRow(s, p), EmailRow(s, p.email);
    if row.Some? {
      VerifiedKeeps(s.users[s.accounts[row.value].userId], p, policy);
    } else if known.Some? {
      VerifiedKeeps(s.users[known.value], p, policy);
    }
  }

  /** Linking succeeds exactly when nobody else owns the key, new or previous, and then the user
      owns the key; a refused link undoes the move of the row to its new key. */
  lemma LinkTies(s: State, rowId: string, userId: string, p: Profile)
    requires SoundAccounts(s.accounts) && userId != "" && rowId != "" && rowId !in s.accounts
    ensures var (after, answer) := Linked(s, rowId, userId, p);
            && (answer.Success? <==> ProfileRow(s, p).Some? ==> s.accounts[ProfileRow(s, p).value].userId == userId)
            && (answer.Success? ==> KeyOwnedBy(after, p, userId))
            && (answer.Failure? ==> after == s)
  {
    var (after, answer) := Linked(s, rowId, userId, p);
    if answer.Success? {
      assert OwnsKey(after, if ProfileRow(s, p).Some? then ProfileRow(s, p).value else rowId, p, userId);
    }
  }

  // ---------------------------------------------------------------- refused calls

  /** The three consumers that spend their token before anything else can fail. */
  predicate SpendsFirst(p: Purpose) {
    p.UserDeletion? || p.EmailVerify? || p.EmailChangeConfirmation?
  }

  /** The refused calls that leave something behind: a session that was stored but cannot be read
      back, a user changed to an empty email, and a token that one of the three consumers found. */
  ghost predicate LeavesTrace(s: State, call: Call) {
    || (call.OnSession? && call.s.Open? && SessionRefusal(s, call.s.session).None?)
    || (call.OnAccount? && call.a.ChangeUser? && ChangesUser(s, call.a.userId, call.a.change))
    || (call.OnToken? && call.t.Consume? && SpendsFirst(call.t.purpose)
        && SpendableRow(s, call.t.purpose, call.t.hash, call.t.now).Some?)
  }

  predicate ChangesUser(s: State, userId: string, change: UserChange) {
    && userId in s.users && ChangedUser(s.users[userId], change) != s.users[userId]
    && !EmailTaken(s, ChangedUser(s.users[userId], change).email, userId)
  }

  /** A refused call leaves the store as it was if and only if it is none of these. */
  lemma RefusalsChangeNothing(s: State, call: Call)
    requires Step(s, call).1.Failure?
    ensures Step(s, call).0 == s <==> !LeavesTrace(s, call)
  {
    match call
    case OnSession(c) => RefusedSessionCall(s, c);
    case OnAccount(c) =>
      if c.ChangeUser? { RefusedChange(s, c.userId, c.change); } else { RefusedAccountCall(s, c); }
    case OnToken(c) => RefusedTokenCall(s, c);
  }

  lemma RefusedSessionCall(s: State, c: SessionCall)
    requires SessionStep(s, c).1.Failure?
    ensures SessionStep(s, c).0 == s <==> !(c.Open? && SessionRefusal(s, c.session).None?)
  {
    if c.Open? && SessionRefusal(s, c.session).None? { assert c.session.id in SessionStep(s, c).0.sessions; }
  }

  lemma RefusedChange(s: State, userId: string, change: UserChange)
    requires UserChanged(s, userId, change).1.Failure?
    ensures UserChanged(s, userId, change).0 == s <==> !ChangesUser(s, userId, change)
  {
    if userId in s.users {
      var u := ChangedUser(s.users[userId], change);
      assert u == s.users[userId] ==> s.users[userId := u] == s.users;
      assert s.users[userId := u][userId] == u;
    }
  }

  lemma RefusedTokenCall(s: State, c: TokenCall)
    requires TokenStep(s, c).1.Failure?
    ensures TokenStep(s, c).0 == s <==>
              !(c.Consume? && SpendsFirst(c.purpose) && SpendableRow(s, c.purpose, c.hash, c.now).Some?)
  {
    if c.Consume? {
      var row := SpendableRow(s, c.purpose, c.hash, c.now);
      if row.Some? { assert row.value !in s.tokens - {row.value}; }
    }
  }

  lemma RefusedAccountCall(s: State, c: AccountCall)
    requires !c.ChangeUser? && AccountStep(s, c).1.Failure?
    ensures AccountStep(s, c).0 == s
  {
  }

  /** A deletion token presented by another user is refused, and spent. */
  lemma WrongUserSpendsToken(s: State, hash: string, now: int, userId: string)
    requires SpendableRow(s, UserDeletion, hash, now).Some?
    requires s.tokens[SpendableRow(s, UserDeletion, hash, now).value].userId != userId
    ensures var call := OnToken(Consume(UserDeletion, hash, now, userId));
            Step(s, call).1 == Failure(Replay) && Step(s, call).0 != s
  {
    RefusedTokenCall(s, Consume(UserDeletion, hash, now, userId));
  }

  /** One such store and call. */
  lemma SpentByRefusal(call: Call)
    requires call == OnToken(Consume(UserDeletion, "h", 0, "b"))
    ensures var s := Empty.(tokens := map["t" := Token("t", UserDeletionName, "h", 1, "a", "")]);
            Step(s, call).1 == Failure(Replay) && Step(s, call).0.tokens == map[]
  {
    var s := Empty.(tokens := map["t" := Token("t", UserDeletionName, "h", 1, "a", "")]);
    assert Spendable(s.tokens["t"], UserDeletion, "h", 0);
    assert SpendableRow(s, UserDeletion, "h", 0) == Some("t");
    assert "a" != "b";
    assert s.tokens - {"t"} == map[];
  }
}
