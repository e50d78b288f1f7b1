/**
 The rows of the authentication store, and what one store call does to them. A call either is
 refused or takes effect as a whole; the exceptions are the token consumers that spend their
 token outside a transaction.
 */
module AuthState {
  import opened Wrappers
  import Strings

  datatype User = User(id: string, email: string, verified: bool, name: string, image: string)

  datatype Account = Account(id: string, userId: string, provider: string, accountId: string, password: Option<string>)

  datatype Session = Session(id: string, userId: string, tokenHash: string, createdAt: int, revokedAt: Option<int>)

  /** A verification row, with the two metadata entries the store reads. */
  datatype Token = Token(id: string, identifier: string, value: string, expiresAt: int, userId: string, newEmail: string)

  datatype State = State(
    users: map<string, User>,
    accounts: map<string, Account>,
    sessions: map<string, Session>,
    tokens: map<string, Token>)

  datatype Error = IdRequired | Conflict | NotFound | Replay | Invalid | SignUpDisabled | NotLinked

  /** What a call hands back besides success: the user it read or wrote, the session it opened. */
  datatype Grant = Grant(user: Option<User>, session: Option<Session>)

  type Answer = Result<Grant, Error>

  const Credential := "credential"

  // ---------------------------------------------------------------- the store's unique keys

  ghost predicate SoundUsers(users: map<string, User>) {
    && (forall id | id in users :: id != "" && users[id].id == id)
    && (forall i, j | i in users && j in users && users[i].email == users[j].email :: i == j)
  }

  predicate SameKey(a: Account, provider: string, accountId: string) {
    a.provider == provider && a.accountId == accountId
  }

  ghost predicate SoundAccounts(accounts: map<string, Account>) {
    && (forall id | id in accounts :: id != "" && accounts[id].id == id)
    && (forall i, j | i in accounts && j in accounts && SameKey(accounts[i], accounts[j].provider, accounts[j].accountId) :: i == j)
  }

  ghost predicate SoundSessions(sessions: map<string, Session>) {
    && (forall id | id in sessions :: id != "" && sessions[id].id == id)
    && (forall i, j | i in sessions && j in sessions && sessions[i].tokenHash == sessions[j].tokenHash :: i == j)
  }

  ghost predicate SoundTokens(tokens: map<string, Token>) {
    && (forall id | id in tokens :: id != "" && tokens[id].id == id)
    && (forall i, j | i in tokens && j in tokens && tokens[i].value == tokens[j].value :: i == j)
  }

  ghost predicate Sound(s: State) {
    SoundUsers(s.users) && SoundAccounts(s.accounts) && SoundSessions(s.sessions) && SoundTokens(s.tokens)
  }

  // ---------------------------------------------------------------- selections

  function CredentialOf(s: State, userId: string): set<string> {
    set id | id in s.accounts && SameKey(s.accounts[id], Credential, userId)
  }

  /** The credential account that also belongs to the user. */
  function OwnCredential(s: State, userId: string): set<string> {
    set id | id in CredentialOf(s, userId) && s.accounts[id].userId == userId
  }

  function WithPassword(s: State, ids: set<string>, password: string): set<string> {
    set id | id in ids && id in s.accounts && s.accounts[id].password == Some(password)
  }

  /** The one row with this key, or none; keys are unique in a sound store. */
  ghost function KeyRow(s: State, provider: string, accountId: string): (r: Option<string>)
    ensures r.Some? ==> r.value in s.accounts && SameKey(s.accounts[r.value], provider, accountId)
    ensures r.None? ==> forall id | id in s.accounts :: !SameKey(s.accounts[id], provider, accountId)
  {
    if exists id | id in s.accounts :: SameKey(s.accounts[id], provider, accountId) then
      var id :| id in s.accounts && SameKey(s.accounts[id], provider, accountId);
      Some(id)
    else None
  }

  ghost function EmailRow(s: State, email: string): (r: Option<string>)
    ensures r.Some? ==> r.value in s.users && s.users[r.value].email == email
    ensures r.None? ==> forall id | id in s.users :: s.users[id].email != email
  {
    if exists id | id in s.users :: s.users[id].email == email then
      var id :| id in s.users && s.users[id].email == email;
      Some(id)
    else None
  }

  function AccountsOf(s: State, userId: string): set<string> {
    set id | id in s.accounts && s.accounts[id].userId == userId
  }

  predicate Live(x: Session) {
    x.revokedAt.None?
  }

  function LiveByHash(s: State, hash: string): set<string> {
    set id | id in s.sessions && s.sessions[id].tokenHash == hash && Live(s.sessions[id])
  }

  function LiveOf(s: State, userId: string): set<string> {
    set id | id in s.sessions && s.sessions[id].userId == userId && Live(s.sessions[id])
  }

  // ---------------------------------------------------------------- refusals of single writes

  predicate EmailTaken(s: State, email: string, except: string) {
    exists id | id in s.users :: id != except && s.users[id].email == email
  }

  predicate KeyTaken(s: State, provider: string, accountId: string) {
    exists id | id in s.accounts :: SameKey(s.accounts[id], provider, accountId)
  }

  function UserRefusal(s: State, u: User): Option<Error> {
    if u.id == "" then Some(IdRequired)
    else if u.id in s.users || EmailTaken(s, u.email, u.id) then Some(Conflict) else None
  }

  function AccountRefusal(s: State, a: Account): Option<Error> {
    if a.id == "" then Some(IdRequired)
    else if a.id in s.accounts || KeyTaken(s, a.provider, a.accountId) then Some(Conflict) else None
  }

  function SessionRefusal(s: State, x: Session): Option<Error> {
    if x.id == "" then Some(IdRequired)
    else if x.id in s.sessions || exists id | id in s.sessions :: s.sessions[id].tokenHash == x.tokenHash then Some(Conflict)
    else None
  }

  /** Creating a session and reading it back: the reader insists on an owner and a hash. */
  function OpenRefusal(s: State, x: Session): Option<Error> {
    if SessionRefusal(s, x).Some? then SessionRefusal(s, x)
    else if x.userId == "" || x.tokenHash == "" then Some(Invalid) else None
  }

  function TokenRefusal(tokens: map<string, Token>, t: Token): Option<Error> {
    if t.id == "" then Some(IdRequired)
    else if t.id in tokens || exists id | id in tokens :: tokens[id].value == t.value then Some(Conflict)
    else None
  }

  /** userFromRecord insists on an email. */
  function ReadUser(u: User): Option<Error> {
    if u.email == "" then Some(Invalid) else None
  }

  // ---------------------------------------------------------------- writes of many rows

  function Revoke(sessions: map<string, Session>, ids: set<string>, at: int): (r: map<string, Session>)
    ensures r.Keys == sessions.Keys
  {
    map id | id in sessions :: if id in ids then sessions[id].(revokedAt := Some(at)) else sessions[id]
  }

  function SetPasswords(accounts: map<string, Account>, ids: set<string>, password: string): (r: map<string, Account>)
    ensures r.Keys == accounts.Keys
  {
    map id | id in accounts :: if id in ids then accounts[id].(password := Some(password)) else accounts[id]
  }

  function CredentialAccount(userId: string, password: string): Account {
    Account(userId + ":credential", userId, Credential, userId, Some(password))
  }

  // ---------------------------------------------------------------- events

  datatype UserChange = UserChange(email: Option<string>, verified: Option<bool>, name: Option<string>, image: Option<string>)

  datatype Profile = Profile(provider: string, accountId: string, previous: string, email: string, verified: bool, name: string, image: string)

  datatype Policy = Policy(allowSignUp: bool, implicitLink: bool, requireVerified: bool, updateUser: bool)

  datatype Purpose = PasswordReset | EmailVerify | EmailChange | EmailChangeConfirmation | UserDeletion | OAuthState

  datatype SessionCall =
    | Open(session: Session)
    | Rotate(oldHash: string, session: Session)
    | RevokeByHash(hash: string, at: int)
    | RevokeAll(userId: string, at: int)
    | RevokeById(userId: string, id: string, at: int)
    | RevokeOthers(userId: string, current: string, at: int)

  datatype AccountCall =
    | SignUp(user: User, password: string, createSession: bool, session: Session)
    | SetPassword(userId: string, password: string)
    | ReplacePassword(userId: string, previous: string, password: string)
    | ChangePassword(userId: string, previous: string, password: string, revokeOthers: bool, currentHash: string, session: Session)
    | ChangeUser(userId: string, change: UserChange)
    | Unlink(userId: string, allowLast: bool, row: Option<string>)
    | DeleteUser(userId: string)
    | Link(rowId: string, userId: string, profile: Profile)
    | Upsert(profile: Profile, session: Session, rowId: string, policy: Policy)

  datatype TokenCall =
    | Put(id: string, purpose: Purpose, hash: string, expiresAt: int, userId: string, newEmail: string)
    | Consume(purpose: Purpose, hash: string, now: int, argument: string)

  datatype Call = OnSession(s: SessionCall) | OnAccount(a: AccountCall) | OnToken(t: TokenCall)

  function Done(): Answer {
    Success(Grant(None, None))
  }

  function Granted(u: Option<User>, x: Option<Session>): Answer {
    Success(Grant(u, x))
  }

  ghost function Step(s: State, call: Call): (State, Answer) {
    match call
    case OnSession(c) => SessionStep(s, c)
    case OnAccount(c) => AccountStep(s, c)
    case OnToken(c) => TokenStep(s, c)
  }

  /** The store after a run of calls, in any order. */
  ghost function After(s: State, calls: seq<Call>): State
    decreases |calls|
  {
    if calls == [] then s else After(Step(s, calls[0]).0, calls[1..])
  }

  const Empty := State(map[], map[], map[], map[])

  // ---------------------------------------------------------------- sessions

  function Replaced(s: State, ids: set<string>, r: Session): State {
    s.(sessions := Revoke(s.sessions, ids, r.createdAt)[r.id := r])
  }

  function SessionStep(s: State, c: SessionCall): (State, Answer) {
    match c
    case Open(x) =>
      // Without a transaction the row stays even when reading it back fails.
      if SessionRefusal(s, x).Some? then (s, Failure(SessionRefusal(s, x).value))
      else (s.(sessions := s.sessions[x.id := x]),
            if OpenRefusal(s, x).Some? then Failure(OpenRefusal(s, x).value) else Granted(None, Some(x)))
    case Rotate(oldHash, r) =>
      if LiveByHash(s, oldHash) == {} then (s, Failure(Replay))
      else if OpenRefusal(s, r).Some? then (s, Failure(OpenRefusal(s, r).value))
      else (Replaced(s, LiveByHash(s, oldHash), r), Granted(None, Some(r)))
    case RevokeByHash(hash, at) => (s.(sessions := Revoke(s.sessions, LiveByHash(s, hash), at)), Done())
    case RevokeAll(userId, at) => (s.(sessions := Revoke(s.sessions, LiveOf(s, userId), at)), Done())
    case RevokeById(userId, id, at) =>
      if id !in LiveOf(s, userId) then (s, Failure(NotFound))
      else (s.(sessions := Revoke(s.sessions, {id}, at)), Done())
    case RevokeOthers(userId, current, at) =>
      (s.(sessions := Revoke(s.sessions, LiveOf(s, userId) - {current}, at)), Done())
  }

  // ---------------------------------------------------------------- accounts

  function ChangedUser(u: User, c: UserChange): User {
    User(u.id, if c.email.Some? then c.email.value else u.email, if c.verified.Some? then c.verified.value else u.verified,
         if c.name.Some? then c.name.value else u.name, if c.image.Some? then c.image.value else u.image)
  }

  ghost function AccountStep(s: State, c: AccountCall): (State, Answer) {
    match c
    case SignUp(u, password, createSession, x) => SignedUp(s, u, password, createSession, x)
    case SetPassword(userId, password) =>
      if OwnCredential(s, userId) != {} then (s.(accounts := SetPasswords(s.accounts, OwnCredential(s, userId), password)), Done())
      else
        var a := CredentialAccount(userId, password);
        if AccountRefusal(s, a).Some? then (s, Failure(AccountRefusal(s, a).value))
        else (s.(accounts := s.accounts[a.id := a]), Done())
    case ReplacePassword(userId, previous, password) =>
      (s.(accounts := SetPasswords(s.accounts, WithPassword(s, CredentialOf(s, userId), previous), password)), Done())
    case ChangePassword(userId, previous, password, revokeOthers, currentHash, r) =>
      PasswordChanged(s, userId, previous, password, revokeOthers, currentHash, r)
    case ChangeUser(userId, change) => UserChanged(s, userId, change)
    case Unlink(userId, allowLast, row) =>
      if !allowLast && |AccountsOf(s, userId)| <= 1 then (s, Failure(Conflict))
      else if row.None? || row.value !in AccountsOf(s, userId) then (s, Failure(NotFound))
      else (s.(accounts := s.accounts - {row.value}), Done())
    case DeleteUser(userId) =>
      (s.(sessions := DropSessionsOf(s.sessions, userId), accounts := s.accounts - AccountsOf(s, userId),
          users := s.users - {userId}), Done())
    case Link(rowId, userId, profile) => Linked(s, rowId, userId, profile)
    case Upsert(profile, x, rowId, policy) => Upserted(s, profile, x, rowId, policy)
  }

  function DropSessionsOf(sessions: map<string, Session>, userId: string): map<string, Session> {
    map id | id in sessions && sessions[id].userId != userId :: sessions[id]
  }

  function SignedUp(s: State, u: User, password: string, createSession: bool, x: Session): (State, Answer) {
    var a := CredentialAccount(u.id, password);
    if UserRefusal(s, u).Some? then (s, Failure(UserRefusal(s, u).value))
    else if ReadUser(u).Some? then (s, Failure(ReadUser(u).value))
    else if AccountRefusal(s, a).Some? then (s, Failure(AccountRefusal(s, a).value))
    else if createSession && SessionRefusal(s, x).Some? then (s, Failure(SessionRefusal(s, x).value))
    else (State(s.users[u.id := u], s.accounts[a.id := a], if createSession then s.sessions[x.id := x] else s.sessions, s.tokens),
          Granted(Some(u), None))
  }

  function PasswordChanged(s: State, userId: string, previous: string, password: string, revokeOthers: bool, currentHash: string, r: Session): (State, Answer) {
    var own := WithPassword(s, OwnCredential(s, userId), previous);
    var ended := if revokeOthers then LiveOf(s, userId) else LiveOf(s, userId) * LiveByHash(s, currentHash);
    if own == {} || (!revokeOthers && ended == {}) then (s, Failure(Replay))
    else if OpenRefusal(s, r).Some? then (s, Failure(OpenRefusal(s, r).value))
    else (Replaced(s, ended, r).(accounts := SetPasswords(s.accounts, own, password)), Granted(None, Some(r)))
  }

  function UserChanged(s: State, userId: string, change: UserChange): (State, Answer) {
    if userId !in s.users then (s, Failure(NotFound))
    else
      var u := ChangedUser(s.users[userId], change);
      if EmailTaken(s, u.email, userId) then (s, Failure(Conflict))
      else (s.(users := s.users[userId := u]), if ReadUser(u).Some? then Failure(ReadUser(u).value) else Granted(Some(u), None))
  }

  // ---------------------------------------------------------------- provider accounts

  /** findProfileAccount: the row with the profile's key, else the row with its previous key. */
  ghost function ProfileRow(s: State, p: Profile): (r: Option<string>)
    ensures r.Some? ==> r.value in s.accounts
  {
    var previous := Strings.TrimSpace(p.previous);
    if KeyRow(s, p.provider, p.accountId).Some? then KeyRow(s, p.provider, p.accountId)
    else if previous == "" || previous == p.accountId then None
    else KeyRow(s, p.provider, previous)
  }

  /** The accounts once a row has been moved to the profile's key. */
  function Rekeyed(s: State, id: string, p: Profile): (r: map<string, Account>)
    requires id in s.accounts
    ensures r.Keys == s.accounts.Keys
  {
    s.accounts[id := s.accounts[id].(accountId := p.accountId)]
  }

  ghost function Linked(s: State, rowId: string, userId: string, p: Profile): (State, Answer) {
    var row, a := ProfileRow(s, p), NewAccount(p, rowId, userId);
    if row.Some? then
      if s.accounts[row.value].userId == "" then (s, Failure(Invalid))
      else if s.accounts[row.value].userId != userId then (s, Failure(Conflict))
      else (s.(accounts := Rekeyed(s, row.value, p)), Done())
    else if AccountRefusal(s, a).Some? then (s, Failure(AccountRefusal(s, a).value))
    else (s.(accounts := s.accounts[a.id := a]), Done())
  }

  function Verified(u: User, p: Profile): User {
    if p.verified && !u.verified && p.email == u.email then u.(verified := true) else u
  }

  function Completed(u: User, p: Profile, policy: Policy): User {
    var v := Verified(u, p);
    if policy.updateUser then
      v.(name := if p.name != "" then p.name else v.name, image := if p.image != "" then p.image else v.image)
    else v
  }

  function NewUser(p: Profile, id: string): User {
    User(id, p.email, p.verified, p.name, p.image)
  }

  function NewAccount(p: Profile, rowId: string, userId: string): Account {
    Account(rowId, userId, p.provider, p.accountId, None)
  }

  ghost function Upserted(s: State, p: Profile, x: Session, rowId: string, policy: Policy): (State, Answer) {
    var row, known := ProfileRow(s, p), EmailRow(s, p.email);
    if row.Some? then SignedIn(s, p, x, row.value)
    else if known.Some? then ImplicitlyLinked(s, p, x, rowId, policy, known.value)
    else NewlySignedUp(s, p, x, rowId, policy)
  }

  /** The account exists: its owner signs in. */
  ghost function SignedIn(s: State, p: Profile, x: Session, row: string): (State, Answer)
    requires row in s.accounts
  {
    var owner := s.accounts[row].userId;
    var y := x.(userId := owner);
    if owner == "" then (s, Failure(Invalid))
    else if owner !in s.users then (s, Failure(NotFound))
    else if ReadUser(s.users[owner]).Some? then (s, Failure(Invalid))
    else if OpenRefusal(s, y).Some? then (s, Failure(OpenRefusal(s, y).value))
    else
      var u := Verified(s.users[owner], p);
      (State(s.users[owner := u], Rekeyed(s, row, p), s.sessions[y.id := y], s.tokens), Granted(Some(u), Some(y)))
  }

  ghost function NewlySignedUp(s: State, p: Profile, x: Session, rowId: string, policy: Policy): (State, Answer) {
    var u, a := NewUser(p, x.userId), NewAccount(p, rowId, x.userId);
    if !policy.allowSignUp then (s, Failure(SignUpDisabled))
    else if UserRefusal(s, u).Some? then (s, Failure(UserRefusal(s, u).value))
    else if AccountRefusal(s, a).Some? then (s, Failure(AccountRefusal(s, a).value))
    else if OpenRefusal(s, x).Some? then (s, Failure(OpenRefusal(s, x).value))
    else (State(s.users[u.id := u], s.accounts[a.id := a], s.sessions[x.id := x], s.tokens), Granted(Some(u), Some(x)))
  }

  ghost function ImplicitlyLinked(s: State, p: Profile, x: Session, rowId: string, policy: Policy, owner: string): (State, Answer)
    requires owner in s.users
  {
    var known, a, y := s.users[owner], NewAccount(p, rowId, owner), x.(userId := owner);
    if ReadUser(known).Some? then (s, Failure(Invalid))
    else if !policy.implicitLink || (policy.requireVerified && !known.verified) then (s, Failure(NotLinked))
    else if AccountRefusal(s, a).Some? then (s, Failure(AccountRefusal(s, a).value))
    else if OpenRefusal(s, y).Some? then (s, Failure(OpenRefusal(s, y).value))
    else
      var u := Completed(known, p, policy);
      (State(s.users[owner := u], s.accounts[a.id := a], s.sessions[y.id := y], s.tokens), Granted(Some(u), Some(y)))
  }

  // ---------------------------------------------------------------- one-time tokens

  const PasswordResetName := "password_reset"
  const EmailVerifyName := "email_verify"
  const EmailChangeName := "email_change"
  const EmailChangeConfirmationName := "email_change_confirmation"
  const UserDeletionName := "user_deletion"
  const OAuthStateName := "oauth_state"

  function Name(p: Purpose): string {
    match p
    case PasswordReset => PasswordResetName
    case EmailVerify => EmailVerifyName
    case EmailChange => EmailChangeName
    case EmailChangeConfirmation => EmailChangeConfirmationName
    case UserDeletion => UserDeletionName
    case OAuthState => OAuthStateName
  }

  /** The purposes of which a user has one outstanding token at a time. */
  predicate Exclusive(p: Purpose) {
    p.EmailChange? || p.EmailChangeConfirmation?
  }

  function Identifier(p: Purpose, userId: string): string {
    if Exclusive(p) then Name(p) + ":" + userId else Name(p)
  }

  /** How the consumer of a purpose recognises its rows. */
  predicate Recognises(p: Purpose, identifier: string) {
    if Exclusive(p) then Name(p) + ":" <= identifier else identifier == Name(p)
  }

  predicate Spendable(t: Token, p: Purpose, hash: string, now: int) {
    Recognises(p, t.identifier) && t.value == hash && t.expiresAt > now
  }

  ghost function SpendableRow(s: State, p: Purpose, hash: string, now: int): (r: Option<string>)
    ensures r.Some? ==> r.value in s.tokens && Spendable(s.tokens[r.value], p, hash, now)
    ensures r.None? ==> forall id | id in s.tokens :: !Spendable(s.tokens[id], p, hash, now)
  {
    if exists id | id in s.tokens :: Spendable(s.tokens[id], p, hash, now) then
      var id :| id in s.tokens && Spendable(s.tokens[id], p, hash, now);
      Some(id)
    else None
  }

  function DropIdentifier(tokens: map<string, Token>, identifier: string): map<string, Token> {
    map id | id in tokens && tokens[id].identifier != identifier :: tokens[id]
  }

  ghost function TokenStep(s: State, c: TokenCall): (State, Answer) {
    match c
    case Put(id, purpose, hash, expiresAt, userId, newEmail) =>
      var t := Token(id, Identifier(purpose, userId), hash, expiresAt, userId, newEmail);
      var kept := if Exclusive(purpose) then DropIdentifier(s.tokens, t.identifier) else s.tokens;
      if TokenRefusal(kept, t).Some? then (s, Failure(TokenRefusal(kept, t).value))
      else (s.(tokens := kept[id := t]), Done())
    case Consume(purpose, hash, now, argument) =>
      var row := SpendableRow(s, purpose, hash, now);
      if row.None? then (s, Failure(Replay))
      else Spent(s, purpose, s.tokens[row.value], s.(tokens := s.tokens - {row.value}), argument)
  }

  /** `after` is the store without the token `t`. */
  ghost function Spent(s: State, p: Purpose, t: Token, after: State, argument: string): (State, Answer) {
    match p
    case OAuthState => (after, Done())
    case UserDeletion => (after, if t.userId != argument then Failure(Replay) else Done())
    case EmailVerify => (after, if t.userId == "" then Failure(Replay) else Looked(s, t.userId))
    case EmailChangeConfirmation => (after, if t.userId == "" || t.newEmail == "" then Failure(Replay) else Looked(s, t.userId))
    case EmailChange =>
      // One transaction: a refusal puts the token back.
      if t.userId == "" || t.newEmail == "" then (s, Failure(Replay))
      else
        var (changed, answer) := UserChanged(after, t.userId, UserChange(Some(t.newEmail), Some(true), None, None));
        if answer.Failure? then (s, answer) else (changed, answer)
    case PasswordReset =>
      if t.userId == "" then (s, Failure(Replay))
      else
        var (changed, answer) := AccountStep(after, SetPassword(t.userId, argument));
        if answer.Failure? then (s, answer)
        else if Looked(s, t.userId).Failure? then (s, Looked(s, t.userId))
        else (changed, Looked(s, t.userId))
  }

  /** FindUserByID. */
  function Looked(s: State, userId: string): Answer {
    if userId !in s.users then Failure(NotFound)
    else if ReadUser(s.users[userId]).Some? then Failure(Invalid)
    else Granted(Some(s.users[userId]), None)
  }
}
