/**
 The database store: every method is a sequence of adapter calls on one row at a time, inside
 a transaction unless it makes only one call.
 */
module AuthStore {
  import opened Wrappers
  import opened AuthState
  import opened Scan
  import Strings
  import AuthSessions
  import AuthTokens
  import AuthAccounts

  // ---------------------------------------------------------------- adapter calls

  function CreateUser(s: State, u: User): Result<State, Error> {
    if UserRefusal(s, u).Some? then Failure(UserRefusal(s, u).value) else Success(s.(users := s.users[u.id := u]))
  }

  function CreateAccount(s: State, a: Account): Result<State, Error> {
    if AccountRefusal(s, a).Some? then Failure(AccountRefusal(s, a).value) else Success(s.(accounts := s.accounts[a.id := a]))
  }

  function CreateSession(s: State, x: Session): Result<State, Error> {
    if SessionRefusal(s, x).Some? then Failure(SessionRefusal(s, x).value) else Success(s.(sessions := s.sessions[x.id := x]))
  }

  function CreateToken(s: State, t: Token): Result<State, Error> {
    if TokenRefusal(s.tokens, t).Some? then Failure(TokenRefusal(s.tokens, t).value) else Success(s.(tokens := s.tokens[t.id := t]))
  }

  function RevokeRow(s: State, id: string, at: int): State
    requires id in s.sessions
  {
    s.(sessions := s.sessions[id := s.sessions[id].(revokedAt := Some(at))])
  }

  function SetPasswordRow(s: State, id: string, password: string): State
    requires id in s.accounts
  {
    s.(accounts := s.accounts[id := s.accounts[id].(password := Some(password))])
  }

  /** sessionFromRecord. */
  function ReadSession(x: Session): Result<Session, Error> {
    if x.userId == "" || x.tokenHash == "" then Failure(Invalid) else Success(x)
  }

  /** userFromRecord. */
  function UserFrom(u: User): Result<User, Error> {
    if ReadUser(u).Some? then Failure(ReadUser(u).value) else Success(u)
  }

  // ---------------------------------------------------------------- the store stays sound

  lemma MovedSound(sessions: map<string, Session>, m: AuthSessions.Move)
    requires SoundSessions(sessions) && AuthSessions.Allowed(sessions, m)
    ensures SoundSessions(AuthSessions.Moved(sessions, m))
  {
  }

  lemma TokensStaySound(s: State, call: Call)
    requires SoundTokens(s.tokens)
    ensures SoundTokens(Step(s, call).0.tokens)
  {
    if !call.OnToken? {
      AuthTokens.OtherStepsKeepTokens(s, call);
    } else if call.t.Consume? {
      AuthTokens.ConsumeRemoves(s, call.t);
    } else if AuthTokens.Issues(s, call) {
      AuthTokens.PutAdds(s, call.t);
      AuthTokens.KeptSound(s, call.t);
      AuthTokens.AddToken(AuthTokens.Kept(s, call.t), AuthTokens.PutToken(call.t));
    }
  }

  lemma StepKeepsSound(s: State, call: Call)
    requires Sound(s)
    ensures Sound(Step(s, call).0)
  {
    AuthAccounts.KeysStayUnique(s, call);
    AuthSessions.MoveIsExact(s, call);
    MovedSound(s.sessions, AuthSessions.MoveOf(s, call));
    TokensStaySound(s, call);
  }

  // ---------------------------------------------------------------- one row or all rows

  /** With unique hashes, updating the first matching session updates them all. */
  lemma RevokeFirst(s: State, id: string, ids: set<string>, at: int)
    requires id in s.sessions && ids == {id}
    ensures Revoke(s.sessions, ids, at) == RevokeRow(s, id, at).sessions
  {
  }

  lemma HashIsUnique(s: State, hash: string, id: string)
    requires SoundSessions(s.sessions) && id in s.sessions && s.sessions[id].tokenHash == hash && Live(s.sessions[id])
    ensures LiveByHash(s, hash) == {id}
  {
  }

  lemma RefusalIgnoresRevocation(s: State, sessions: map<string, Session>, x: Session)
    requires sessions.Keys == s.sessions.Keys && forall id | id in sessions :: sessions[id].tokenHash == s.sessions[id].tokenHash
    ensures SessionRefusal(s.(sessions := sessions), x) == SessionRefusal(s, x)
  {
    assert forall id | id in s.sessions :: sessions[id].tokenHash == s.sessions[id].tokenHash;
  }

  lemma CredentialIsUnique(s: State, userId: string, id: string)
    requires SoundAccounts(s.accounts) && id in s.accounts && SameKey(s.accounts[id], Credential, userId)
    ensures CredentialOf(s, userId) == {id}
  {
  }

  lemma SetPasswordsFirst(s: State, id: string, ids: set<string>, password: string)
    requires id in s.accounts && ids == {id}
    ensures SetPasswords(s.accounts, ids, password) == SetPasswordRow(s, id, password).accounts
  {
  }

  lemma SetPasswordsNone(accounts: map<string, Account>, password: string)
    ensures SetPasswords(accounts, {}, password) == accounts
  {
  }

  lemma RevokeNone(sessions: map<string, Session>, at: int)
    ensures Revoke(sessions, {}, at) == sessions
  {
  }

  function ToEnd(s: State, userId: string, revokeOthers: bool, currentHash: string): set<string> {
    if revokeOthers then LiveOf(s, userId) else LiveOf(s, userId) * LiveByHash(s, currentHash)
  }

  /** The sessions a password change ends: all of the user's, or the current one. */
  method EndSessions(s: State, userId: string, revokeOthers: bool, currentHash: string, at: int) returns (r: Result<map<string, Session>, Error>)
    requires SoundSessions(s.sessions)
    ensures r == if !revokeOthers && ToEnd(s, userId, revokeOthers, currentHash) == {} then Failure(Replay)
                 else Success(Revoke(s.sessions, ToEnd(s, userId, revokeOthers, currentHash), at))
  {
    if revokeOthers {
      var rows := All(s.sessions, (x: Session) => x.userId == userId && Live(x));
      assert rows == LiveOf(s, userId);
      return Success(Revoke(s.sessions, rows, at));
    }
    var row := First(s.sessions, (x: Session) => x.userId == userId && x.tokenHash == currentHash && Live(x));
    if row.None? {
      assert LiveOf(s, userId) * LiveByHash(s, currentHash) == {};
      return Failure(Replay);
    }
    HashIsUnique(s, currentHash, row.value);
    assert LiveOf(s, userId) * LiveByHash(s, currentHash) == {row.value};
    RevokeFirst(s, row.value, {row.value}, at);
    return Success(RevokeRow(s, row.value, at).sessions);
  }

  method ReplaceCredential(s: State, userId: string, previous: string, password: string) returns (r: Result<State, Error>)
    requires SoundAccounts(s.accounts)
    ensures var own := WithPassword(s, OwnCredential(s, userId), previous);
            r == if own == {} then Failure(Replay) else Success(s.(accounts := SetPasswords(s.accounts, own, password)))
  {
    var row := First(s.accounts, (a: Account) => SameKey(a, Credential, userId) && a.userId == userId && a.password == Some(previous));
    if row.None? {
      assert WithPassword(s, OwnCredential(s, userId), previous) == {};
      return Failure(Replay);
    }
    CredentialIsUnique(s, userId, row.value);
    assert WithPassword(s, OwnCredential(s, userId), previous) == {row.value};
    SetPasswordsFirst(s, row.value, {row.value}, password);
    return Success(SetPasswordRow(s, row.value, password));
  }

  /** Writes the user's own credential account, creating it when there is none. */
  method WriteCredential(s: State, userId: string, password: string) returns (r: Result<State, Error>)
    requires SoundAccounts(s.accounts)
    ensures var (after, answer) := AccountStep(s, SetPassword(userId, password));
            r == if answer.Failure? then Failure(answer.error) else Success(after)
  {
    var row := First(s.accounts, (a: Account) => SameKey(a, Credential, userId) && a.userId == userId);
    if row.Some? {
      CredentialIsUnique(s, userId, row.value);
      assert OwnCredential(s, userId) == {row.value};
      SetPasswordsFirst(s, row.value, {row.value}, password);
      return Success(SetPasswordRow(s, row.value, password));
    }
    assert OwnCredential(s, userId) == {};
    return CreateAccount(s, CredentialAccount(userId, password));
  }

  // ---------------------------------------------------------------- provider accounts

  lemma KeyRowIs(s: State, provider: string, accountId: string, id: string)
    requires SoundAccounts(s.accounts) && id in s.accounts && SameKey(s.accounts[id], provider, accountId)
    ensures KeyRow(s, provider, accountId) == Some(id)
  {
  }

  lemma EmailRowIs(s: State, email: string, id: string)
    requires SoundUsers(s.users) && id in s.users && s.users[id].email == email
    ensures EmailRow(s, email) == Some(id)
  {
  }

  predicate TwoOwners(accounts: map<string, Account>, provider: string, accountId: string) {
    exists i, j | i in accounts && j in accounts ::
      i != j && SameKey(accounts[i], provider, accountId) && SameKey(accounts[j], provider, accountId)
  }

  /** FindAccountByKey reads up to two rows, so that a table without the unique key cannot make it
      pick an owner at random. */
  method FindAccountByKey(accounts: map<string, Account>, provider: string, accountId: string) returns (row: Option<string>, ambiguous: bool)
    ensures ambiguous <==> TwoOwners(accounts, provider, accountId)
    ensures row.Some? ==> row.value in accounts && SameKey(accounts[row.value], provider, accountId)
    ensures row.None? && !ambiguous ==> forall id | id in accounts :: !SameKey(accounts[id], provider, accountId)
  {
    row := First(accounts, (a: Account) => SameKey(a, provider, accountId));
    if row.None? {
      return None, false;
    }
    var second := FirstOther(accounts, row.value, (a: Account) => SameKey(a, provider, accountId));
    ambiguous := second.Some?;
  }

  /** With the unique key in place the answer is never ambiguous. */
  method AccountByKey(s: State, provider: string, accountId: string) returns (row: Option<string>)
    requires SoundAccounts(s.accounts)
    ensures row == KeyRow(s, provider, accountId)
  {
    var ambiguous;
    row, ambiguous := FindAccountByKey(s.accounts, provider, accountId);
    if row.Some? { KeyRowIs(s, provider, accountId, row.value); }
  }

  /** findProfileAccount moves a row found under the previous key at once. */
  method FindProfileAccount(s: State, p: Profile) returns (row: Option<string>, after: State)
    requires SoundAccounts(s.accounts)
    ensures row == ProfileRow(s, p)
    ensures after == if row.Some? then s.(accounts := Rekeyed(s, row.value, p)) else s
  {
    row := AccountByKey(s, p.provider, p.accountId);
    if row.Some? {
      assert s.accounts[row.value].(accountId := p.accountId) == s.accounts[row.value];
      return row, s;
    }
    var previous := Strings.TrimSpace(p.previous);
    if previous == "" || previous == p.accountId {
      return None, s;
    }
    row := AccountByKey(s, p.provider, previous);
    if row.None? {
      return None, s;
    }
    return row, s.(accounts := s.accounts[row.value := s.accounts[row.value].(accountId := p.accountId)]);
  }

  /** The last step of a call that hands out a session. */
  function OpenIn(s: State, x: Session): Result<State, Error> {
    var created :- CreateSession(s, x);
    var read :- ReadSession(x);
    Success(created)
  }

  lemma OpenInIs(s: State, x: Session)
    ensures OpenIn(s, x) == if OpenRefusal(s, x).Some? then Failure(OpenRefusal(s, x).value) else Success(s.(sessions := s.sessions[x.id := x]))
  {
  }

  /** OpenRefusal reads only the tokens and ids of the sessions. */
  lemma OpenRefusalIs(s: State, tx: State, x: Session)
    requires tx.sessions.Keys == s.sessions.Keys && forall id | id in s.sessions :: tx.sessions[id].tokenHash == s.sessions[id].tokenHash
    ensures OpenRefusal(tx, x) == OpenRefusal(s, x)
  {
    RefusalIgnoresRevocation(s, tx.sessions, x);
    assert SessionRefusal(tx, x) == SessionRefusal(s.(sessions := tx.sessions), x);
  }

  type Written = Result<(State, User), Error>

  function OwnerSignedIn(s: State, owner: string, p: Profile): Written {
    if owner == "" then Failure(Invalid)
    else if owner !in s.users then Failure(NotFound)
    else if ReadUser(s.users[owner]).Some? then Failure(Invalid)
    else Success((s.(users := s.users[owner := Verified(s.users[owner], p)]), Verified(s.users[owner], p)))
  }

  function ProviderSignedUp(s: State, p: Profile, userId: string, rowId: string, policy: Policy): Written {
    var u, a := NewUser(p, userId), NewAccount(p, rowId, userId);
    if !policy.allowSignUp then Failure(SignUpDisabled)
    else if UserRefusal(s, u).Some? then Failure(UserRefusal(s, u).value)
    else if AccountRefusal(s, a).Some? then Failure(AccountRefusal(s, a).value)
    else Success((s.(users := s.users[u.id := u], accounts := s.accounts[a.id := a]), u))
  }

  function UserLinked(s: State, owner: string, p: Profile, rowId: string, policy: Policy): Written
    requires owner in s.users
  {
    var known, a := s.users[owner], NewAccount(p, rowId, owner);
    if ReadUser(known).Some? then Failure(Invalid)
    else if !policy.implicitLink || (policy.requireVerified && !known.verified) then Failure(NotLinked)
    else if AccountRefusal(s, a).Some? then Failure(AccountRefusal(s, a).value)
    else Success((s.(users := s.users[owner := Completed(known, p, policy)], accounts := s.accounts[a.id := a]), Completed(known, p, policy)))
  }

  /** Opens the session of the user a branch ended with, or rolls the branch back. */
  function Finish(before: State, w: Written, x: Session): (State, Answer) {
    if w.Failure? then (before, Failure(w.error))
    else
      var (tx, user) := w.value;
      var y := x.(userId := user.id);
      if OpenRefusal(tx, y).Some? then (before, Failure(OpenRefusal(tx, y).value))
      else (tx.(sessions := tx.sessions[y.id := y]), Granted(Some(user), Some(y)))
  }

  ghost function Branch(s: State, p: Profile, userId: string, rowId: string, policy: Policy): Written {
    var row, known := ProfileRow(s, p), EmailRow(s, p.email);
    if row.Some? then OwnerSignedIn(s.(accounts := Rekeyed(s, row.value, p)), s.accounts[row.value].userId, p)
    else if known.Some? then UserLinked(s, known.value, p, rowId, policy)
    else ProviderSignedUp(s, p, userId, rowId, policy)
  }

  lemma SignedInBranch(s: State, p: Profile, x: Session, row: string)
    requires SoundUsers(s.users) && row in s.accounts
    ensures SignedIn(s, p, x, row) == Finish(s, OwnerSignedIn(s.(accounts := Rekeyed(s, row, p)), s.accounts[row].userId, p), x)
  {
    OpenRefusalIs(s, s.(accounts := Rekeyed(s, row, p)), x.(userId := s.accounts[row].userId));
  }

  lemma LinkedBranch(s: State, p: Profile, x: Session, rowId: string, policy: Policy, owner: string)
    requires SoundUsers(s.users) && owner in s.users
    ensures ImplicitlyLinked(s, p, x, rowId, policy, owner) == Finish(s, UserLinked(s, owner, p, rowId, policy), x)
  {
    AuthAccounts.VerifiedKeeps(s.users[owner], p, policy);
  }

  lemma NewBranch(s: State, p: Profile, x: Session, rowId: string, policy: Policy)
    ensures NewlySignedUp(s, p, x, rowId, policy) == Finish(s, ProviderSignedUp(s, p, x.userId, rowId, policy), x)
  {
    assert x.(userId := x.userId) == x;
  }

  lemma UpsertBranches(s: State, p: Profile, x: Session, rowId: string, policy: Policy)
    requires SoundUsers(s.users)
    ensures Upserted(s, p, x, rowId, policy) == Finish(s, Branch(s, p, x.userId, rowId, policy), x)
  {
    var row, known := ProfileRow(s, p), EmailRow(s, p.email);
    if row.Some? { SignedInBranch(s, p, x, row.value); }
    else if known.Some? { LinkedBranch(s, p, x, rowId, policy, known.value); }
    else { NewBranch(s, p, x, rowId, policy); }
  }

  lemma OpenSound(s: State, x: Session)
    requires SoundSessions(s.sessions) && OpenRefusal(s, x).None?
    ensures SoundSessions(s.sessions[x.id := x])
  {
  }

  lemma UpsertSound(s: State, p: Profile, x: Session, rowId: string, policy: Policy)
    requires Sound(s)
    ensures Sound(Upserted(s, p, x, rowId, policy).0)
  {
    var (after, answer) := Upserted(s, p, x, rowId, policy);
    AuthAccounts.UpsertKeepsSound(s, p, x, rowId, policy);
    AuthSessions.UpsertMove(s, p, x, rowId, policy);
    AuthTokens.UpsertKeepsTokens(s, p, x, rowId, policy);
    if answer.Success? { OpenSound(s, answer.value.session.value); }
  }

  lemma FinishIsSound(s: State, p: Profile, x: Session, rowId: string, policy: Policy)
    requires Sound(s)
    ensures Sound(Finish(s, Branch(s, p, x.userId, rowId, policy), x).0)
  {
    UpsertBranches(s, p, x, rowId, policy);
    UpsertSound(s, p, x, rowId, policy);
  }

  /** The owner of an existing account signs in; a verified email verifies the user. */
  method SignInOwner(s: State, owner: string, p: Profile) returns (r: Written)
    ensures r == OwnerSignedIn(s, owner, p)
  {
    if owner == "" {
      return Failure(Invalid);
    }
    if owner !in s.users {
      return Failure(NotFound);
    }
    var user :- UserFrom(s.users[owner]);
    var tx := s;
    if p.verified && !user.verified && p.email == user.email {
      user := user.(verified := true);
      tx := tx.(users := tx.users[owner := user]);
    }
    assert tx.users == s.users[owner := user];
    return Success((tx, user));
  }

  method SignUpThroughProvider(s: State, p: Profile, userId: string, rowId: string, policy: Policy) returns (r: Written)
    ensures r == ProviderSignedUp(s, p, userId, rowId, policy)
  {
    if !policy.allowSignUp {
      return Failure(SignUpDisabled);
    }
    var user := User(userId, p.email, p.verified, p.name, p.image);
    var tx :- CreateUser(s, user);
    tx :- CreateAccount(tx, Account(rowId, userId, p.provider, p.accountId, None));
    return Success((tx, user));
  }

  /** An existing user with the profile's email gets the account, when the policy allows it. */
  method LinkToUser(s: State, owner: string, p: Profile, rowId: string, policy: Policy) returns (r: Written)
    requires SoundUsers(s.users) && owner in s.users
    ensures r == UserLinked(s, owner, p, rowId, policy)
  {
    var user :- UserFrom(s.users[owner]);
    if !policy.implicitLink || (policy.requireVerified && !user.verified) {
      return Failure(NotLinked);
    }
    var tx :- CreateAccount(s, Account(rowId, user.id, p.provider, p.accountId, None));
    if p.verified && !user.verified && p.email == user.email {
      user := user.(verified := true);
      tx := tx.(users := tx.users[owner := user]);
    }
    if policy.updateUser {
      if p.name != "" {
        user := user.(name := p.name);
      }
      if p.image != "" {
        user := user.(image := p.image);
      }
      tx := tx.(users := tx.users[owner := user]);
    }
    assert tx.users == s.users[owner := user];
    return Success((tx, user));
  }

  method UpsertBranch(s: State, p: Profile, userId: string, rowId: string, policy: Policy) returns (written: Written)
    requires SoundUsers(s.users) && SoundAccounts(s.accounts)
    ensures written == Branch(s, p, userId, rowId, policy)
  {
    var row, tx := FindProfileAccount(s, p);
    if row.Some? {
      written := SignInOwner(tx, tx.accounts[row.value].userId, p);
    } else {
      var known := First(tx.users, (u: User) => u.email == p.email);
      if known.Some? {
        EmailRowIs(tx, p.email, known.value);
        written := LinkToUser(tx, known.value, p, rowId, policy);
      } else {
        written := SignUpThroughProvider(tx, p, userId, rowId, policy);
      }
    }
  }

  lemma PasswordChangeSound(s: State, userId: string, previous: string, password: string, revokeOthers: bool, currentHash: string, r: Session)
    requires Sound(s)
    ensures Sound(PasswordChanged(s, userId, previous, password, revokeOthers, currentHash, r).0)
  {
    var call := OnAccount(ChangePassword(userId, previous, password, revokeOthers, currentHash, r));
    StepKeepsSound(s, call);
    assert Step(s, call) == AccountStep(s, call.a);
  }

  // ---------------------------------------------------------------- tokens

  lemma SpendableRowIs(s: State, p: Purpose, hash: string, now: int, id: string)
    requires SoundTokens(s.tokens) && id in s.tokens && Spendable(s.tokens[id], p, hash, now)
    ensures SpendableRow(s, p, hash, now) == Some(id)
  {
  }

  /** The row the adapter's ConsumeOne picks and deletes. */
  method ConsumeOne(s: State, p: Purpose, hash: string, now: int) returns (row: Option<string>)
    requires SoundTokens(s.tokens)
    ensures row == SpendableRow(s, p, hash, now)
  {
    row := First(s.tokens, (t: Token) => Spendable(t, p, hash, now));
    if row.Some? { SpendableRowIs(s, p, hash, now, row.value); }
  }

  /** FindUserByID. */
  function FindUser(s: State, userId: string): Answer {
    if userId !in s.users then Failure(NotFound)
    else
      var u :- UserFrom(s.users[userId]);
      Granted(Some(u), None)
  }

  lemma TokenStepSound(s: State, c: TokenCall)
    requires Sound(s)
    ensures Sound(TokenStep(s, c).0)
  {
    StepKeepsSound(s, OnToken(c));
    assert Step(s, OnToken(c)) == TokenStep(s, c);
  }

  // ---------------------------------------------------------------- the store

  class DatabaseStore {
    var state: State

    constructor (state: State)
      ensures this.state == state
    {
      this.state := state;
    }

    method OpenSession(x: Session) returns (answer: Answer)
      requires Sound(state)
      modifies this
      ensures (state, answer) == SessionStep(old(state), Open(x)) && Sound(state)
    {
      StepKeepsSound(state, OnSession(Open(x)));
      state :- CreateSession(state, x);
      var read :- ReadSession(x);
      return Granted(None, Some(read));
    }

    method RotateSession(oldHash: string, replacement: Session) returns (answer: Answer)
      requires Sound(state)
      modifies this
      ensures (state, answer) == SessionStep(old(state), Rotate(oldHash, replacement)) && Sound(state)
    {
      StepKeepsSound(state, OnSession(Rotate(oldHash, replacement)));
      var tx := state;
      var row := First(tx.sessions, (x: Session) => x.tokenHash == oldHash && Live(x));
      if row.None? {
        return Failure(Replay);
      }
      HashIsUnique(state, oldHash, row.value);
      RevokeFirst(state, row.value, LiveByHash(state, oldHash), replacement.createdAt);
      tx := RevokeRow(tx, row.value, replacement.createdAt);
      OpenRefusalIs(state, tx, replacement);
      OpenInIs(tx, replacement);
      state :- OpenIn(tx, replacement);
      return Granted(None, Some(replacement));
    }

    method RevokeSession(hash: string, at: int) returns (answer: Answer)
      requires Sound(state)
      modifies this
      ensures (state, answer) == SessionStep(old(state), RevokeByHash(hash, at)) && Sound(state)
    {
      StepKeepsSound(state, OnSession(RevokeByHash(hash, at)));
      var row := First(state.sessions, (x: Session) => x.tokenHash == hash && Live(x));
      RevokeNone(state.sessions, at);
      if row.Some? {
        HashIsUnique(state, hash, row.value);
        RevokeFirst(state, row.value, LiveByHash(state, hash), at);
        state := RevokeRow(state, row.value, at);
      } else {
        assert LiveByHash(state, hash) == {};
      }
      return Done();
    }

    method RevokeUserSessions(userId: string, at: int) returns (answer: Answer)
      requires Sound(state)
      modifies this
      ensures (state, answer) == SessionStep(old(state), RevokeAll(userId, at)) && Sound(state)
    {
      StepKeepsSound(state, OnSession(RevokeAll(userId, at)));
      var rows := All(state.sessions, (x: Session) => x.userId == userId && Live(x));
      assert rows == LiveOf(state, userId);
      state := state.(sessions := Revoke(state.sessions, rows, at));
      return Done();
    }

    method RevokeSessionById(userId: string, id: string, at: int) returns (answer: Answer)
      requires Sound(state)
      modifies this
      ensures (state, answer) == SessionStep(old(state), RevokeById(userId, id, at)) && Sound(state)
    {
      StepKeepsSound(state, OnSession(RevokeById(userId, id, at)));
      var row := First(state.sessions, (x: Session) => x.id == id && x.userId == userId && Live(x));
      if row.None? {
        return Failure(NotFound);
      }
      RevokeFirst(state, id, {id}, at);
      state := RevokeRow(state, row.value, at);
      return Done();
    }

    method RevokeOtherSessions(userId: string, current: string, at: int) returns (answer: Answer)
      requires Sound(state)
      modifies this
      ensures (state, answer) == SessionStep(old(state), RevokeOthers(userId, current, at)) && Sound(state)
    {
      StepKeepsSound(state, OnSession(RevokeOthers(userId, current, at)));
      var rows := All(state.sessions, (x: Session) => x.userId == userId && x.id != current && Live(x));
      assert rows == LiveOf(state, userId) - {current};
      state := state.(sessions := Revoke(state.sessions, rows, at));
      return Done();
    }

    method ChangePasswordAndRotate(userId: string, previous: string, password: string, revokeOthers: bool, currentHash: string, replacement: Session) returns (answer: Answer)
      requires Sound(state)
      modifies this
      ensures (state, answer) == PasswordChanged(old(state), userId, previous, password, revokeOthers, currentHash, replacement)
      ensures Sound(state)
    {
      PasswordChangeSound(state, userId, previous, password, revokeOthers, currentHash, replacement);
      var tx :- ReplaceCredential(state, userId, previous, password);
      var sessions :- EndSessions(tx, userId, revokeOthers, currentHash, replacement.createdAt);
      tx := tx.(sessions := sessions);
      OpenRefusalIs(state, tx, replacement);
      OpenInIs(tx, replacement);
      state :- OpenIn(tx, replacement);
      return Granted(None, Some(replacement));
    }

    // -------------------------------------------------------------- users and credentials

    method CreateEmailUser(u: User, password: string, createSession: bool, x: Session) returns (answer: Answer)
      requires Sound(state)
      modifies this
      ensures (state, answer) == SignedUp(old(state), u, password, createSession, x) && Sound(state)
    {
      StepKeepsSound(state, OnAccount(SignUp(u, password, createSession, x)));
      var tx :- CreateUser(state, u);
      var created :- UserFrom(u);
      tx :- CreateAccount(tx, CredentialAccount(u.id, password));
      if createSession {
        tx :- CreateSession(tx, x);
      }
      state := tx;
      return Granted(Some(created), None);
    }

    method SetPasswordHash(userId: string, password: string) returns (answer: Answer)
      requires Sound(state)
      modifies this
      ensures (state, answer) == AccountStep(old(state), SetPassword(userId, password)) && Sound(state)
    {
      StepKeepsSound(state, OnAccount(SetPassword(userId, password)));
      state :- WriteCredential(state, userId, password);
      return Done();
    }

    method ReplacePasswordHash(userId: string, previous: string, password: string) returns (answer: Answer)
      requires Sound(state)
      modifies this
      ensures (state, answer) == AccountStep(old(state), ReplacePassword(userId, previous, password)) && Sound(state)
    {
      StepKeepsSound(state, OnAccount(ReplacePassword(userId, previous, password)));
      var row := First(state.accounts, (a: Account) => SameKey(a, Credential, userId) && a.password == Some(previous));
      if row.Some? {
        CredentialIsUnique(state, userId, row.value);
        assert WithPassword(state, CredentialOf(state, userId), previous) == {row.value};
        SetPasswordsFirst(state, row.value, {row.value}, password);
        state := SetPasswordRow(state, row.value, password);
      } else {
        assert WithPassword(state, CredentialOf(state, userId), previous) == {};
        SetPasswordsNone(state.accounts, password);
      }
      return Done();
    }

    method UpdateUser(userId: string, change: UserChange) returns (answer: Answer)
      requires Sound(state)
      modifies this
      ensures (state, answer) == UserChanged(old(state), userId, change) && Sound(state)
    {
      StepKeepsSound(state, OnAccount(ChangeUser(userId, change)));
      if userId !in state.users {
        return Failure(NotFound);
      }
      var u := ChangedUser(state.users[userId], change);
      var other := FirstOther(state.users, userId, (v: User) => v.email == u.email);
      if other.Some? {
        return Failure(Conflict);
      }
      state := state.(users := state.users[userId := u]);
      var read :- UserFrom(u);
      return Granted(Some(read), None);
    }

    /** UnlinkAccount; an empty account id stands for any account of the provider. `row` is the
        account the adapter found. */
    method UnlinkAccount(userId: string, provider: string, accountId: string, allowLast: bool) returns (answer: Answer, ghost row: Option<string>)
      requires Sound(state)
      modifies this
      ensures (state, answer) == AccountStep(old(state), Unlink(userId, allowLast, row)) && Sound(state)
      ensures row.Some? ==> row.value in old(state).accounts && old(state).accounts[row.value].provider == provider
                            && (accountId == "" || old(state).accounts[row.value].accountId == accountId)
      ensures row.None? && answer == Failure(NotFound) ==>
                forall id | id in AccountsOf(old(state), userId) ::
                  old(state).accounts[id].provider != provider || (accountId != "" && old(state).accounts[id].accountId != accountId)
    {
      var mine := All(state.accounts, (a: Account) => a.userId == userId);
      assert mine == AccountsOf(state, userId);
      row := None;
      if !allowLast && |mine| <= 1 {
        return Failure(Conflict), None;
      }
      var found := First(state.accounts, (a: Account) =>
        a.userId == userId && a.provider == provider && (accountId == "" || a.accountId == accountId));
      StepKeepsSound(state, OnAccount(Unlink(userId, allowLast, found)));
      if found.None? {
        return Failure(NotFound), None;
      }
      state := state.(accounts := state.accounts - {found.value});
      return Done(), found;
    }

    method UnlinkAccountById(userId: string, id: string, allowLast: bool) returns (answer: Answer)
      requires Sound(state)
      modifies this
      ensures (state, answer) == AccountStep(old(state), Unlink(userId, allowLast, Some(id))) && Sound(state)
    {
      StepKeepsSound(state, OnAccount(Unlink(userId, allowLast, Some(id))));
      var mine := All(state.accounts, (a: Account) => a.userId == userId);
      assert mine == AccountsOf(state, userId);
      if !allowLast && |mine| <= 1 {
        return Failure(Conflict);
      }
      if id !in mine {
        return Failure(NotFound);
      }
      state := state.(accounts := state.accounts - {id});
      return Done();
    }

    method RemoveUser(userId: string) returns (answer: Answer)
      requires Sound(state)
      modifies this
      ensures (state, answer) == AccountStep(old(state), DeleteUser(userId)) && Sound(state)
    {
      StepKeepsSound(state, OnAccount(DeleteUser(userId)));
      var tx := state;
      var sessions := All(tx.sessions, (x: Session) => x.userId == userId);
      tx := tx.(sessions := tx.sessions - sessions);
      assert tx.sessions == DropSessionsOf(state.sessions, userId);
      var accounts := All(tx.accounts, (a: Account) => a.userId == userId);
      assert accounts == AccountsOf(state, userId);
      tx := tx.(accounts := tx.accounts - accounts);
      tx := tx.(users := tx.users - {userId});
      state := tx;
      return Done();
    }

    // -------------------------------------------------------------- provider sign-in

    method LinkOAuthAccount(rowId: string, userId: string, p: Profile) returns (answer: Answer)
      requires Sound(state)
      modifies this
      ensures (state, answer) == Linked(old(state), rowId, userId, p) && Sound(state)
    {
      StepKeepsSound(state, OnAccount(Link(rowId, userId, p)));
      var row, tx := FindProfileAccount(state, p);
      if row.Some? {
        var owner := tx.accounts[row.value].userId;
        if owner == "" {
          return Failure(Invalid);
        }
        if owner != userId {
          return Failure(Conflict);
        }
      } else {
        tx :- CreateAccount(tx, NewAccount(p, rowId, userId));
      }
      state := tx;
      return Done();
    }

    method UpsertOAuthUser(p: Profile, x: Session, rowId: string, policy: Policy) returns (answer: Answer)
      requires Sound(state)
      modifies this
      ensures (state, answer) == Upserted(old(state), p, x, rowId, policy) && Sound(state)
    {
      FinishIsSound(state, p, x, rowId, policy);
      UpsertBranches(state, p, x, rowId, policy);
      var written := UpsertBranch(state, p, x.userId, rowId, policy);
      var done :- written;
      var session := x.(userId := done.1.id);
      OpenInIs(done.0, session);
      state :- OpenIn(done.0, session);
      return Granted(Some(done.1), Some(session));
    }

    // -------------------------------------------------------------- one-time tokens

    /** PutOneTimeToken and PutOAuthState. A new token of an exclusive purpose replaces the old
        one in the same transaction. */
    method PutOneTimeToken(id: string, purpose: Purpose, hash: string, expiresAt: int, userId: string, newEmail: string) returns (answer: Answer)
      requires Sound(state)
      modifies this
      ensures (state, answer) == TokenStep(old(state), Put(id, purpose, hash, expiresAt, userId, newEmail)) && Sound(state)
    {
      TokenStepSound(state, Put(id, purpose, hash, expiresAt, userId, newEmail));
      var identifier := Name(purpose);
      var tx := state;
      if Exclusive(purpose) {
        identifier := identifier + ":" + userId;
        var replaced := All(tx.tokens, (t: Token) => t.identifier == identifier);
        tx := tx.(tokens := tx.tokens - replaced);
        assert tx.tokens == DropIdentifier(state.tokens, identifier);
      }
      state :- CreateToken(tx, Token(id, identifier, hash, expiresAt, userId, newEmail));
      return Done();
    }

    /** ConsumeUserDeletion, ConsumeEmailVerification, ConsumeEmailChangeConfirmation and
        ConsumeOAuthState: the token is gone whatever comes after. */
    method ConsumeFirst(purpose: Purpose, hash: string, now: int, argument: string) returns (answer: Answer)
      requires Sound(state) && !purpose.EmailChange? && !purpose.PasswordReset?
      modifies this
      ensures (state, answer) == TokenStep(old(state), Consume(purpose, hash, now, argument)) && Sound(state)
    {
      TokenStepSound(state, Consume(purpose, hash, now, argument));
      var row := ConsumeOne(state, purpose, hash, now);
      if row.None? {
        return Failure(Replay);
      }
      var token := state.tokens[row.value];
      state := state.(tokens := state.tokens - {row.value});
      if purpose.OAuthState? {
        return Done();
      }
      if purpose.UserDeletion? {
        return if token.userId != argument then Failure(Replay) else Done();
      }
      if token.userId == "" || (purpose.EmailChangeConfirmation? && token.newEmail == "") {
        return Failure(Replay);
      }
      return FindUser(state, token.userId);
    }

    method ConsumeEmailChange(hash: string, now: int) returns (answer: Answer)
      requires Sound(state)
      modifies this
      ensures (state, answer) == TokenStep(old(state), Consume(EmailChange, hash, now, "")) && Sound(state)
    {
      TokenStepSound(state, Consume(EmailChange, hash, now, ""));
      var row := ConsumeOne(state, EmailChange, hash, now);
      if row.None? {
        return Failure(Replay);
      }
      var token := state.tokens[row.value];
      var tx := state.(tokens := state.tokens - {row.value});
      if token.userId == "" || token.newEmail == "" {
        return Failure(Replay);
      }
      if token.userId !in tx.users {
        return Failure(NotFound);
      }
      var u := tx.users[token.userId].(email := token.newEmail, verified := true);
      var other := FirstOther(tx.users, token.userId, (v: User) => v.email == u.email);
      if other.Some? {
        return Failure(Conflict);
      }
      // Reading the user back cannot fail: the new email is not empty.
      state := tx.(users := tx.users[token.userId := u]);
      return Granted(Some(u), None);
    }

    method ConsumePasswordReset(hash: string, password: string, now: int) returns (answer: Answer)
      requires Sound(state)
      modifies this
      ensures (state, answer) == TokenStep(old(state), Consume(PasswordReset, hash, now, password)) && Sound(state)
    {
      TokenStepSound(state, Consume(PasswordReset, hash, now, password));
      var row := ConsumeOne(state, PasswordReset, hash, now);
      if row.None? {
        return Failure(Replay);
      }
      var token := state.tokens[row.value];
      var tx := state.(tokens := state.tokens - {row.value});
      if token.userId == "" {
        return Failure(Replay);
      }
      tx :- WriteCredential(tx, token.userId, password);
      var user := FindUser(tx, token.userId);
      if user.Success? {
        state := tx;
      }
      return user;
    }
  }
}
