/**
 Every call of the authentication store in terms of rows: exactly when it succeeds, and what
 each row is afterwards.
 */
module AuthLaws {
  import opened Wrappers
  import opened AuthState
  import AuthAccounts
  import Strings

  // ---------------------------------------------------------------- vocabulary

  /** Rows are the same but for this one, which may be new. */
  ghost predicate OnlyRow<T>(before: map<string, T>, after: map<string, T>, id: string) {
    && (forall i :: i in after <==> i in before || i == id)
    && forall i | i in before && i != id :: after[i] == before[i]
  }

  /** A new session: an id and a token of its own, an owner, and a token. */
  predicate Openable(s: State, x: Session) {
    && x.id != "" && x.id !in s.sessions && x.userId != "" && x.tokenHash != ""
    && forall i | i in s.sessions :: s.sessions[i].tokenHash != x.tokenHash
  }

  predicate LiveWith(x: Session, hash: string) {
    x.revokedAt == None && x.tokenHash == hash
  }

  predicate LiveFor(x: Session, userId: string) {
    x.revokedAt == None && x.userId == userId
  }

  /** The sessions in `ended` have ended at this time, the others are as they were. */
  ghost predicate EndedAt(before: map<string, Session>, after: map<string, Session>, ended: set<string>, at: int) {
    forall i | i in before :: i in after && after[i] == if i in ended then before[i].(revokedAt := Some(at)) else before[i]
  }

  predicate OwnRow(a: Account, userId: string) {
    a.provider == "credential" && a.accountId == userId && a.userId == userId
  }

  lemma OwnRowIs(s: State, userId: string)
    ensures OwnCredential(s, userId) == set i | i in s.accounts && OwnRow(s.accounts[i], userId)
  {
  }

  /** Some credential account has the user's key. */
  predicate CredentialTaken(s: State, userId: string) {
    exists i | i in s.accounts :: s.accounts[i].provider == "credential" && s.accounts[i].accountId == userId
  }

  predicate HasOwnRow(s: State, userId: string) {
    exists i | i in s.accounts :: OwnRow(s.accounts[i], userId)
  }

  // ---------------------------------------------------------------- sessions

  lemma OpenIff(s: State, x: Session)
    ensures var (after, answer) := Step(s, OnSession(Open(x)));
            && (answer.Success? <==> Openable(s, x))
            && (answer.Success? ==> answer == Granted(None, Some(x)) && after == s.(sessions := s.sessions[x.id := x]))
  {
  }

  function WithHash(s: State, hash: string): set<string> {
    set i | i in s.sessions && LiveWith(s.sessions[i], hash)
  }

  function OfUser(s: State, userId: string): set<string> {
    set i | i in s.sessions && LiveFor(s.sessions[i], userId)
  }

  /** Rotation exchanges the live session of the old token for the new one. */
  lemma RotateIff(s: State, oldHash: string, r: Session)
    ensures var (after, answer) := Step(s, OnSession(Rotate(oldHash, r)));
            var ended := WithHash(s, oldHash);
            && (ended == {} ==> answer == Failure(Replay))
            && (answer.Success? <==> ended != {} && Openable(s, r))
            && (answer.Failure? ==> after == s)
            && (answer.Success? ==>
                  && after == s.(sessions := after.sessions) && answer == Granted(None, Some(r))
                  && after.sessions.Keys == s.sessions.Keys + {r.id} && after.sessions[r.id] == r
                  && EndedAt(s.sessions, after.sessions, ended, r.createdAt))
  {
    assert LiveByHash(s, oldHash) == WithHash(s, oldHash);
  }

  /** Each revocation ends exactly the live sessions it names. */
  lemma RevocationsEnd(s: State, c: SessionCall)
    requires c.RevokeByHash? || c.RevokeAll? || c.RevokeOthers?
    ensures var (after, answer) := Step(s, OnSession(c));
            && answer == Done() && after == s.(sessions := after.sessions) && after.sessions.Keys == s.sessions.Keys
            && match c
               case RevokeByHash(hash, at) => EndedAt(s.sessions, after.sessions, WithHash(s, hash), at)
               case RevokeAll(userId, at) => EndedAt(s.sessions, after.sessions, OfUser(s, userId), at)
               case RevokeOthers(userId, current, at) =>
                 EndedAt(s.sessions, after.sessions, OfUser(s, userId) - {current}, at)
  {
  }

  lemma RevokeByIdIff(s: State, userId: string, id: string, at: int)
    ensures var (after, answer) := Step(s, OnSession(RevokeById(userId, id, at)));
            if id in s.sessions && LiveFor(s.sessions[id], userId)
            then answer == Done() && after == s.(sessions := s.sessions[id := s.sessions[id].(revokedAt := Some(at))])
            else answer == Failure(NotFound) && after == s
  {
  }

  // ---------------------------------------------------------------- passwords

  /** The user's own credential account holds the password, and no other account has changed. */
  ghost predicate PasswordPut(before: map<string, Account>, after: map<string, Account>, userId: string, password: string) {
    exists id :: PasswordPutAt(before, after, id, userId, password)
  }

  ghost predicate PasswordPutAt(before: map<string, Account>, after: map<string, Account>, id: string, userId: string, password: string) {
    && OnlyRow(before, after, id)
    && after[id] == Account(id, userId, "credential", userId, Some(password))
    && (id in before ==> OwnRow(before[id], userId))
  }

  predicate CanPut(s: State, userId: string) {
    HasOwnRow(s, userId) || (!CredentialTaken(s, userId) && userId + ":credential" !in s.accounts)
  }

  /** Setting a password writes it into the user's own credential account, which is created when
      there is none; another user's credential account under the same key is in the way. */
  lemma SetPasswordIff(s: State, userId: string, password: string)
    requires SoundAccounts(s.accounts)
    ensures var (after, answer) := AccountStep(s, SetPassword(userId, password));
            && (answer.Success? <==> CanPut(s, userId))
            && (answer.Failure? ==> after == s)
            && (answer.Success? ==>
                  answer == Done() && after == s.(accounts := after.accounts) && PasswordPut(s.accounts, after.accounts, userId, password))
  {
    OwnRowIs(s, userId);
    var (after, answer) := AccountStep(s, SetPassword(userId, password));
    if id :| id in s.accounts && OwnRow(s.accounts[id], userId) {
      SetPasswordAt(s, userId, password, id);
      assert PasswordPutAt(s.accounts, after.accounts, id, userId, password);
    } else if answer.Success? {
      assert PasswordPutAt(s.accounts, after.accounts, userId + ":credential", userId, password);
    }
    assert CredentialTaken(s, userId) <==> KeyTaken(s, "credential", userId);
  }

  lemma SetPasswordAt(s: State, userId: string, password: string, id: string)
    requires SoundAccounts(s.accounts) && id in s.accounts && OwnRow(s.accounts[id], userId)
    ensures AccountStep(s, SetPassword(userId, password))
         == (s.(accounts := s.accounts[id := Account(id, userId, "credential", userId, Some(password))]), Done())
  {
    OwnRowIs(s, userId);
    assert OwnCredential(s, userId) == {id};
    assert SetPasswords(s.accounts, {id}, password) == s.accounts[id := s.accounts[id].(password := Some(password))];
  }

  /** The hash is replaced in the credential account with the user's key where the previous one is
      still stored, and nowhere else. */
  lemma ReplacePasswordReplaces(s: State, userId: string, previous: string, password: string)
    ensures AccountStep(s, ReplacePassword(userId, previous, password)) == (s.(accounts := Replaced(s.accounts, userId, previous, password)), Done())
  {
    assert SetPasswords(s.accounts, WithPassword(s, CredentialOf(s, userId), previous), password) == Replaced(s.accounts, userId, previous, password);
  }

  function Replaced(accounts: map<string, Account>, userId: string, previous: string, password: string): map<string, Account> {
    map i | i in accounts ::
      if accounts[i].provider == "credential" && accounts[i].accountId == userId && accounts[i].password == Some(previous)
      then accounts[i].(password := Some(password)) else accounts[i]
  }

  /** The user's own password is the previous one. */
  predicate KnowsPassword(s: State, userId: string, previous: string) {
    exists i | i in s.accounts :: OwnRow(s.accounts[i], userId) && s.accounts[i].password == Some(previous)
  }

  /** The sessions a password change ends. */
  function Ending(s: State, userId: string, revokeOthers: bool, currentHash: string): set<string> {
    set i | i in s.sessions && LiveFor(s.sessions[i], userId) && (revokeOthers || s.sessions[i].tokenHash == currentHash)
  }

  lemma ChangePasswordIff(s: State, userId: string, previous: string, password: string, revokeOthers: bool, currentHash: string, r: Session)
    requires SoundAccounts(s.accounts)
    ensures var (after, answer) := PasswordChanged(s, userId, previous, password, revokeOthers, currentHash, r);
            var ended := Ending(s, userId, revokeOthers, currentHash);
            && (answer.Success? <==> KnowsPassword(s, userId, previous) && (revokeOthers || ended != {}) && Openable(s, r))
            && (answer.Failure? ==> after == s)
            && (answer.Success? ==>
                  && answer == Granted(None, Some(r)) && after.users == s.users && after.tokens == s.tokens
                  && PasswordPut(s.accounts, after.accounts, userId, password)
                  && after.sessions.Keys == s.sessions.Keys + {r.id} && after.sessions[r.id] == r
                  && EndedAt(s.sessions, after.sessions, ended, r.createdAt))
  {
    var own := WithPassword(s, OwnCredential(s, userId), previous);
    var (after, answer) := PasswordChanged(s, userId, previous, password, revokeOthers, currentHash, r);
    EndingIs(s, userId, revokeOthers, currentHash);
    KnowsIff(s, userId, previous);
    if answer.Success? {
      var id :| id in own;
      OwnPassword(s, userId, previous, password, id);
      assert PasswordPutAt(s.accounts, after.accounts, id, userId, password);
    }
  }

  lemma EndingIs(s: State, userId: string, revokeOthers: bool, currentHash: string)
    ensures Ending(s, userId, revokeOthers, currentHash) == if revokeOthers then LiveOf(s, userId) else LiveOf(s, userId) * LiveByHash(s, currentHash)
  {
  }

  lemma KnowsIff(s: State, userId: string, previous: string)
    ensures KnowsPassword(s, userId, previous) <==> WithPassword(s, OwnCredential(s, userId), previous) != {}
  {
    if i :| i in s.accounts && OwnRow(s.accounts[i], userId) && s.accounts[i].password == Some(previous) {
      assert i in WithPassword(s, OwnCredential(s, userId), previous);
    }
  }

  lemma OwnPassword(s: State, userId: string, previous: string, password: string, id: string)
    requires SoundAccounts(s.accounts) && id in WithPassword(s, OwnCredential(s, userId), previous)
    ensures OwnRow(s.accounts[id], userId) && s.accounts[id].id == id
    ensures SetPasswords(s.accounts, WithPassword(s, OwnCredential(s, userId), previous), password)
         == s.accounts[id := s.accounts[id].(password := Some(password))]
  {
    assert WithPassword(s, OwnCredential(s, userId), previous) == {id};
  }

  // ---------------------------------------------------------------- users

  predicate NewUserRow(s: State, u: User) {
    && u.id != "" && u.id !in s.users && u.email != ""
    && forall i | i in s.users :: s.users[i].email != u.email
  }

  predicate NewSessionRow(s: State, x: Session) {
    x.id != "" && x.id !in s.sessions && forall i | i in s.sessions :: s.sessions[i].tokenHash != x.tokenHash
  }

  /** Signing up creates the user, a credential account with the password, and a session if one is
      asked for: all of them or none. */
  lemma SignUpIff(s: State, u: User, password: string, createSession: bool, x: Session)
    ensures var (after, answer) := SignedUp(s, u, password, createSession, x);
            && (answer.Success? <==>
                  && NewUserRow(s, u) && !CredentialTaken(s, u.id) && u.id + ":credential" !in s.accounts
                  && (createSession ==> NewSessionRow(s, x)))
            && (answer.Failure? ==> after == s)
            && (answer.Success? ==>
                  && answer == Granted(Some(u), None)
                  && after == State(s.users[u.id := u],
                                    s.accounts[u.id + ":credential" := Account(u.id + ":credential", u.id, "credential", u.id, Some(password))],
                                    if createSession then s.sessions[x.id := x] else s.sessions,
                                    s.tokens))
  {
    assert CredentialTaken(s, u.id) <==> KeyTaken(s, "credential", u.id);
  }

  /** A change of a user touches the named fields, and an email that no other user has. */
  lemma ChangeUserIff(s: State, userId: string, c: UserChange)
    ensures var (after, answer) := UserChanged(s, userId, c);
            && (userId !in s.users ==> answer == Failure(NotFound) && after == s)
            && (userId in s.users ==>
                  var u := s.users[userId];
                  var email := if c.email.Some? then c.email.value else u.email;
                  if exists i | i in s.users :: i != userId && s.users[i].email == email then answer == Failure(Conflict) && after == s
                  else
                    && OnlyRow(s.users, after.users, userId) && after == s.(users := after.users)
                    && var v := after.users[userId];
                       && v.id == u.id && v.email == email
                       && v.verified == (if c.verified.Some? then c.verified.value else u.verified)
                       && v.name == (if c.name.Some? then c.name.value else u.name)
                       && v.image == (if c.image.Some? then c.image.value else u.image)
                       && answer == if email == "" then Failure(Invalid) else Granted(Some(v), None))
  {
  }

  /** Nothing of the user is left but the tokens, and nothing of anybody else is gone. */
  lemma DeleteUserDeletes(s: State, userId: string)
    ensures AccountStep(s, DeleteUser(userId))
         == (State(s.users - {userId},
                   map i | i in s.accounts && s.accounts[i].userId != userId :: s.accounts[i],
                   map i | i in s.sessions && s.sessions[i].userId != userId :: s.sessions[i],
                   s.tokens),
             Done())
  {
    assert s.accounts - AccountsOf(s, userId) == map i | i in s.accounts && s.accounts[i].userId != userId :: s.accounts[i];
    assert DropSessionsOf(s.sessions, userId) == map i | i in s.sessions && s.sessions[i].userId != userId :: s.sessions[i];
  }

  // ---------------------------------------------------------------- unlinking

  /** Another account of the user than this one. */
  predicate OtherAccount(s: State, userId: string, id: string) {
    exists j | j in s.accounts :: j != id && s.accounts[j].userId == userId
  }

  /** One account of the user goes; the last one goes only when that is allowed. */
  lemma UnlinkIff(s: State, userId: string, allowLast: bool, id: string)
    ensures var (after, answer) := AccountStep(s, Unlink(userId, allowLast, Some(id)));
            && (answer.Success? <==>
                  id in s.accounts && s.accounts[id].userId == userId && (allowLast || OtherAccount(s, userId, id)))
            && (answer.Failure? ==> after == s)
            && (answer.Success? ==> after == s.(accounts := s.accounts - {id}))
            && (answer.Success? && !allowLast ==> exists j | j in after.accounts :: after.accounts[j].userId == userId)
    ensures AccountStep(s, Unlink(userId, allowLast, None)).1.Failure? && AccountStep(s, Unlink(userId, allowLast, None)).0 == s
  {
    var mine := AccountsOf(s, userId);
    if id in mine && |mine| <= 1 && OtherAccount(s, userId, id) {
      TwoAccounts(s, userId, id);
    }
    if id in mine && |mine| > 1 {
      assert |{id}| == 1 && mine != {id};
      var j :| j in mine && j != id;
      assert j in s.accounts - {id};
    }
  }

  lemma TwoAccounts(s: State, userId: string, id: string)
    requires id in AccountsOf(s, userId) && OtherAccount(s, userId, id)
    ensures |AccountsOf(s, userId)| > 1
  {
    var j :| j in s.accounts && j != id && s.accounts[j].userId == userId;
    var rest := AccountsOf(s, userId) - {id, j};
    assert AccountsOf(s, userId) == rest + {id, j};
  }

  // ---------------------------------------------------------------- provider accounts

  predicate Keyed(a: Account, provider: string, accountId: string) {
    a.provider == provider && a.accountId == accountId
  }

  /** The account of the profile: the one with its key or else, if it names another previous id,
      the one with that. */
  ghost predicate IsProfileRow(s: State, p: Profile, id: string) {
    var previous := Strings.TrimSpace(p.previous);
    && id in s.accounts
    && (Keyed(s.accounts[id], p.provider, p.accountId)
        || (Keyed(s.accounts[id], p.provider, previous) && previous != "" && !KeyIsTaken(s, p.provider, p.accountId)))
  }

  predicate KeyIsTaken(s: State, provider: string, accountId: string) {
    exists i | i in s.accounts :: Keyed(s.accounts[i], provider, accountId)
  }

  lemma ProfileRowIs(s: State, p: Profile)
    requires SoundAccounts(s.accounts)
    ensures ProfileRow(s, p).Some? ==> IsProfileRow(s, p, ProfileRow(s, p).value)
    ensures forall id | IsProfileRow(s, p, id) :: ProfileRow(s, p) == Some(id)
  {
    var previous := Strings.TrimSpace(p.previous);
    var row, earlier := KeyRow(s, p.provider, p.accountId), KeyRow(s, p.provider, previous);
    assert KeyIsTaken(s, p.provider, p.accountId) <==> row.Some?;
    forall id | IsProfileRow(s, p, id)
      ensures ProfileRow(s, p) == Some(id)
    {
      if row.Some? {
        assert SameKey(s.accounts[id], s.accounts[row.value].provider, s.accounts[row.value].accountId);
      } else {
        assert SameKey(s.accounts[id], s.accounts[earlier.value].provider, s.accounts[earlier.value].accountId);
      }
    }
  }

  /** The account of the profile moves to its key and keeps everything else. */
  function Moved(accounts: map<string, Account>, id: string, p: Profile): map<string, Account> {
    map i | i in accounts :: if i == id then accounts[i].(accountId := p.accountId) else accounts[i]
  }

  /** Linking: the user's own account moves to the profile's key, another's refuses, and without
      one a new account is created. */
  lemma LinkIff(s: State, rowId: string, userId: string, p: Profile)
    requires SoundAccounts(s.accounts)
    ensures var (after, answer) := Linked(s, rowId, userId, p);
            && (answer.Failure? ==> after == s)
            && (answer.Success? ==> answer == Done() && after == s.(accounts := after.accounts))
            && (forall id | IsProfileRow(s, p, id) ::
                  && (answer.Success? <==> s.accounts[id].userId == userId && userId != "")
                  && (answer.Success? ==> after.accounts == Moved(s.accounts, id, p)))
            && ((forall id :: !IsProfileRow(s, p, id)) ==>
                  && (answer.Success? <==> rowId != "" && rowId !in s.accounts)
                  && (answer.Success? ==> after.accounts == s.accounts[rowId := Account(rowId, userId, p.provider, p.accountId, None)]))
  {
    ProfileRowIs(s, p);
    var row := ProfileRow(s, p);
    if row.Some? {
      assert Moved(s.accounts, row.value, p) == Rekeyed(s, row.value, p);
    }
  }

  /** The email of the profile, verified by the provider, verifies the user's. */
  predicate VerifiedBy(u: User, p: Profile) {
    u.verified || (p.verified && p.email == u.email)
  }

  /** With an account of the profile its owner signs in, and the account moves to the key. */
  lemma OwnerSignsIn(s: State, p: Profile, x: Session, rowId: string, policy: Policy, id: string)
    requires Sound(s) && IsProfileRow(s, p, id)
    ensures var (after, answer) := Upserted(s, p, x, rowId, policy);
            var owner := s.accounts[id].userId;
            && (answer.Success? <==> owner != "" && owner in s.users && s.users[owner].email != "" && Openable(s, x.(userId := owner)))
            && (answer.Failure? ==> after == s)
            && (answer.Success? ==>
                  var u := s.users[owner].(verified := VerifiedBy(s.users[owner], p));
                  && answer == Granted(Some(u), Some(x.(userId := owner)))
                  && after == State(s.users[owner := u], Moved(s.accounts, id, p), s.sessions[x.id := x.(userId := owner)], s.tokens))
  {
    ProfileRowIs(s, p);
    assert Moved(s.accounts, id, p) == Rekeyed(s, id, p);
  }

  /** What the policy asks before an account is added to an existing user. */
  predicate MayLink(policy: Policy, u: User) {
    policy.implicitLink && (u.verified || !policy.requireVerified)
  }

  /** Without one, a user with the profile's email gets the account if the policy allows it. */
  lemma KnownUserSignsIn(s: State, p: Profile, x: Session, rowId: string, policy: Policy, owner: string)
    requires Sound(s) && (forall id :: !IsProfileRow(s, p, id)) && owner in s.users && s.users[owner].email == p.email
    ensures var (after, answer) := Upserted(s, p, x, rowId, policy);
            && (answer.Success? <==>
                  && p.email != "" && MayLink(policy, s.users[owner]) && rowId != "" && rowId !in s.accounts
                  && Openable(s, x.(userId := owner)))
            && (answer.Failure? ==> after == s)
            && (answer.Success? ==>
                  var known := s.users[owner];
                  var u := User(owner, known.email, known.verified || p.verified,
                                if policy.updateUser && p.name != "" then p.name else known.name,
                                if policy.updateUser && p.image != "" then p.image else known.image);
                  && answer == Granted(Some(u), Some(x.(userId := owner)))
                  && after == State(s.users[owner := u], s.accounts[rowId := Account(rowId, owner, p.provider, p.accountId, None)],
                                    s.sessions[x.id := x.(userId := owner)], s.tokens))
  {
    ProfileRowIs(s, p);
    assert EmailRow(s, p.email) == Some(owner);
    NoRowNoKey(s, p);
  }

  lemma NoRowNoKey(s: State, p: Profile)
    requires forall id :: !IsProfileRow(s, p, id)
    ensures !KeyTaken(s, p.provider, p.accountId)
  {
    if id :| id in s.accounts && SameKey(s.accounts[id], p.provider, p.accountId) {
      assert IsProfileRow(s, p, id);
    }
  }

  /** And without such a user a new one signs up, if sign-up is allowed. */
  lemma NewUserSignsUp(s: State, p: Profile, x: Session, rowId: string, policy: Policy)
    requires Sound(s) && (forall id :: !IsProfileRow(s, p, id)) && forall i | i in s.users :: s.users[i].email != p.email
    ensures var (after, answer) := Upserted(s, p, x, rowId, policy);
            && (answer.Success? <==>
                  policy.allowSignUp && x.userId !in s.users && rowId != "" && rowId !in s.accounts && Openable(s, x))
            && (answer.Failure? ==> after == s)
            && (answer.Success? ==>
                  var u := User(x.userId, p.email, p.verified, p.name, p.image);
                  && answer == Granted(Some(u), Some(x))
                  && after == State(s.users[x.userId := u], s.accounts[rowId := Account(rowId, x.userId, p.provider, p.accountId, None)],
                                    s.sessions[x.id := x], s.tokens))
  {
    ProfileRowIs(s, p);
    NoRowNoKey(s, p);
  }

  // ---------------------------------------------------------------- one-time tokens

  /** Is this the identifier under which a token of the purpose is stored? */
  predicate Labels(identifier: string, p: Purpose, userId: string) {
    match p
    case PasswordReset => identifier == "password_reset"
    case EmailVerify => identifier == "email_verify"
    case EmailChange => identifier == "email_change:" + userId
    case EmailChangeConfirmation => identifier == "email_change_confirmation:" + userId
    case UserDeletion => identifier == "user_deletion"
    case OAuthState => identifier == "oauth_state"
  }

  /** The tokens that stay when one is stored: an email change replaces the user's earlier one. */
  function Staying(tokens: map<string, Token>, p: Purpose, identifier: string): map<string, Token> {
    map i | i in tokens && !((p.EmailChange? || p.EmailChangeConfirmation?) && tokens[i].identifier == identifier) :: tokens[i]
  }

  lemma StayingIs(tokens: map<string, Token>, p: Purpose, identifier: string)
    ensures Staying(tokens, p, identifier) == if Exclusive(p) then DropIdentifier(tokens, identifier) else tokens
  {
  }

  /** A new token is stored under its purpose, with an id and a value of its own. */
  lemma PutIff(s: State, id: string, p: Purpose, hash: string, expiresAt: int, userId: string, newEmail: string, identifier: string)
    requires Labels(identifier, p, userId)
    ensures var (after, answer) := TokenStep(s, Put(id, p, hash, expiresAt, userId, newEmail));
            var kept := Staying(s.tokens, p, identifier);
            && (answer.Success? <==> id != "" && id !in kept && forall i | i in kept :: kept[i].value != hash)
            && (answer.Failure? ==> after == s)
            && (answer.Success? ==> answer == Done() && after == s.(tokens := kept[id := Token(id, identifier, hash, expiresAt, userId, newEmail)]))
  {
    LabelRecognised(identifier, p, userId);
    StayingIs(s.tokens, p, identifier);
  }

  lemma Labelled(p: Purpose, userId: string)
    ensures Labels(Identifier(p, userId), p, userId)
  {
  }

  /** A row that a consumer takes: of its purpose, with the value, not expired. */
  ghost predicate Takable(t: Token, p: Purpose, hash: string, now: int) {
    t.value == hash && now < t.expiresAt && exists userId :: Labels(t.identifier, p, userId)
  }

  lemma TakableIff(t: Token, p: Purpose, hash: string, now: int)
    ensures Takable(t, p, hash, now) <==> Spendable(t, p, hash, now)
  {
    if Exclusive(p) && Name(p) + ":" <= t.identifier {
      var userId := t.identifier[|Name(p) + ":"|..];
      assert t.identifier == Name(p) + ":" + userId == Identifier(p, userId);
      Labelled(p, userId);
    } else if t.identifier == Name(p) {
      Labelled(p, "");
    }
    if userId :| Labels(t.identifier, p, userId) {
      LabelRecognised(t.identifier, p, userId);
    }
  }

  lemma LabelRecognised(identifier: string, p: Purpose, userId: string)
    requires Labels(identifier, p, userId)
    ensures identifier == Identifier(p, userId) && Recognises(p, identifier)
  {
    assert EmailChangeName + ":" == "email_change:" && EmailChangeConfirmationName + ":" == "email_change_confirmation:";
  }

  lemma TakenRow(s: State, p: Purpose, hash: string, now: int, row: string)
    requires SoundTokens(s.tokens) && row in s.tokens && Takable(s.tokens[row], p, hash, now)
    ensures SpendableRow(s, p, hash, now) == Some(row)
  {
    TakableIff(s.tokens[row], p, hash, now);
    var other := SpendableRow(s, p, hash, now).value;
    assert s.tokens[other].value == s.tokens[row].value;
  }

  /** Without a row to take, nothing happens. */
  lemma NothingToTake(s: State, p: Purpose, hash: string, now: int, argument: string)
    requires forall i | i in s.tokens :: !Takable(s.tokens[i], p, hash, now)
    ensures TokenStep(s, Consume(p, hash, now, argument)) == (s, Failure(Replay))
  {
    forall i | i in s.tokens
      ensures !Spendable(s.tokens[i], p, hash, now)
    {
      TakableIff(s.tokens[i], p, hash, now);
    }
  }

  predicate Readable(s: State, userId: string) {
    userId in s.users && s.users[userId].email != ""
  }

  /** A password reset spends the token and writes the new password, both or neither. */
  lemma PasswordResetIff(s: State, row: string, hash: string, now: int, password: string)
    requires Sound(s) && row in s.tokens && Takable(s.tokens[row], PasswordReset, hash, now)
    ensures var (after, answer) := TokenStep(s, Consume(PasswordReset, hash, now, password));
            var userId := s.tokens[row].userId;
            && (answer.Success? <==> userId != "" && Readable(s, userId) && CanPut(s, userId))
            && (answer.Failure? ==> after == s)
            && (answer.Success? ==>
                  && answer == Granted(Some(s.users[userId]), None)
                  && after.users == s.users && after.sessions == s.sessions && after.tokens == s.tokens - {row}
                  && PasswordPut(s.accounts, after.accounts, userId, password))
  {
    TakenRow(s, PasswordReset, hash, now, row);
    var userId, spent := s.tokens[row].userId, s.(tokens := s.tokens - {row});
    SetPasswordIff(spent, userId, password);
    assert CanPut(spent, userId) <==> CanPut(s, userId);
  }

  /** An email change spends the token and gives the user the new email, verified. */
  lemma EmailChangeIff(s: State, row: string, hash: string, now: int, argument: string)
    requires Sound(s) && row in s.tokens && Takable(s.tokens[row], EmailChange, hash, now)
    ensures var (after, answer) := TokenStep(s, Consume(EmailChange, hash, now, argument));
            var t := s.tokens[row];
            && (answer.Success? <==>
                  && t.userId != "" && t.newEmail != "" && t.userId in s.users
                  && forall i | i in s.users && i != t.userId :: s.users[i].email != t.newEmail)
            && (answer.Failure? ==> after == s)
            && (answer.Success? ==>
                  var u := s.users[t.userId].(email := t.newEmail, verified := true);
                  answer == Granted(Some(u), None) && after == s.(users := s.users[t.userId := u], tokens := s.tokens - {row}))
  {
    TakenRow(s, EmailChange, hash, now, row);
  }

  /** The other consumers spend the token whatever they answer. */
  lemma OtherTokensIff(s: State, p: Purpose, row: string, hash: string, now: int, argument: string)
    requires Sound(s) && row in s.tokens && Takable(s.tokens[row], p, hash, now) && !p.PasswordReset? && !p.EmailChange?
    ensures var (after, answer) := TokenStep(s, Consume(p, hash, now, argument));
            var t := s.tokens[row];
            && after == s.(tokens := s.tokens - {row})
            && (p.OAuthState? ==> answer == Done())
            && (p.UserDeletion? ==> answer == if t.userId == argument then Done() else Failure(Replay))
            && (p.EmailVerify? || p.EmailChangeConfirmation? ==>
                  && (answer.Success? <==> t.userId != "" && (p.EmailVerify? || t.newEmail != "") && Readable(s, t.userId))
                  && (answer.Success? ==> answer == Granted(Some(s.users[t.userId]), None)))
  {
    TakenRow(s, p, hash, now, row);
  }
}
