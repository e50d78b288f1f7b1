/**
 Sessions over whole runs. A sign-in starts a chain; rotating a session adds its replacement
 to the same chain.
 */
module AuthSessions {
  import opened Wrappers
  import opened AuthState

  // ---------------------------------------------------------------- what calls do to sessions

  datatype Move =
    | Keep
    | Add(added: Session)
    | End(ids: set<string>, at: int)
    | Swap(ids: set<string>, added: Session, from: Option<string>)
    | Forget(userId: string)

  function Moved(sessions: map<string, Session>, m: Move): map<string, Session> {
    match m
    case Keep => sessions
    case Add(x) => sessions[x.id := x]
    case End(ids, at) => Revoke(sessions, ids, at)
    case Swap(ids, x, _) => Revoke(sessions, ids, x.createdAt)[x.id := x]
    case Forget(userId) => DropSessionsOf(sessions, userId)
  }

  /** Only live sessions end, and a new session has a new id and a new token. */
  ghost predicate Allowed(sessions: map<string, Session>, m: Move) {
    && (m.End? || m.Swap? ==> forall id | id in m.ids :: id in sessions && Live(sessions[id]))
    && (m.Add? || m.Swap? ==> m.added.id != "" && m.added.id !in sessions && forall id | id in sessions :: sessions[id].tokenHash != m.added.tokenHash)
    && (m.Swap? && m.from.Some? ==> m.from.value in m.ids)
  }

  ghost function Any(ids: set<string>): Option<string> {
    if ids == {} then None else var id :| id in ids; Some(id)
  }

  ghost function SessionMove(s: State, c: SessionCall): Move {
    match c
    case Open(x) => if SessionRefusal(s, x).Some? then Keep else Add(x)
    case Rotate(oldHash, r) =>
      if SessionStep(s, c).1.Failure? then Keep else Swap(LiveByHash(s, oldHash), r, Any(LiveByHash(s, oldHash)))
    case RevokeByHash(hash, at) => End(LiveByHash(s, hash), at)
    case RevokeAll(userId, at) => End(LiveOf(s, userId), at)
    case RevokeById(userId, id, at) => if id in LiveOf(s, userId) then End({id}, at) else Keep
    case RevokeOthers(userId, current, at) => End(LiveOf(s, userId) - {current}, at)
  }

  ghost function AccountMove(s: State, c: AccountCall): Move {
    var (after, answer) := AccountStep(s, c);
    if answer.Failure? then Keep
    else match c
      case SignUp(u, password, createSession, x) => if createSession then Add(x) else Keep
      case ChangePassword(userId, _, _, revokeOthers, currentHash, r) =>
        var current := LiveOf(s, userId) * LiveByHash(s, currentHash);
        Swap(if revokeOthers then LiveOf(s, userId) else current, r, Any(current))
      case DeleteUser(userId) => Forget(userId)
      case Upsert(_, _, _, _) => Add(answer.value.session.value)
      case _ => Keep
  }

  ghost function MoveOf(s: State, call: Call): Move {
    if call.OnSession? then SessionMove(s, call.s)
    else if call.OnAccount? then AccountMove(s, call.a)
    else Keep
  }

  lemma SessionMoveIsExact(s: State, c: SessionCall)
    ensures SessionStep(s, c).0.sessions == Moved(s.sessions, SessionMove(s, c))
    ensures Allowed(s.sessions, SessionMove(s, c))
  {
  }

  /** A successful upsert opens one session and leaves the others alone. */
  lemma UpsertMove(s: State, p: Profile, x: Session, rowId: string, policy: Policy)
    ensures var (after, answer) := Upserted(s, p, x, rowId, policy);
            && (answer.Failure? ==> after == s)
            && (answer.Success? ==>
                  && answer.value.session.Some? && OpenRefusal(s, answer.value.session.value).None?
                  && after.sessions == s.sessions[answer.value.session.value.id := answer.value.session.value])
  {
  }

  lemma PasswordMove(s: State, userId: string, previous: string, password: string, revokeOthers: bool, currentHash: string, r: Session)
    ensures var (after, answer) := PasswordChanged(s, userId, previous, password, revokeOthers, currentHash, r);
            && (answer.Failure? ==> after == s)
            && (answer.Success? ==>
                  && OpenRefusal(s, r).None?
                  && var current := LiveOf(s, userId) * LiveByHash(s, currentHash);
                     after.sessions == Revoke(s.sessions, if revokeOthers then LiveOf(s, userId) else current, r.createdAt)[r.id := r])
  {
  }

  lemma SignUpMove(s: State, u: User, password: string, createSession: bool, x: Session)
    ensures var (after, answer) := SignedUp(s, u, password, createSession, x);
            && (answer.Failure? ==> after == s)
            && (answer.Success? ==> after.sessions == (if createSession then s.sessions[x.id := x] else s.sessions)
                                    && (createSession ==> SessionRefusal(s, x).None?))
  {
  }

  lemma AccountMoveIsExact(s: State, c: AccountCall)
    ensures AccountStep(s, c).0.sessions == Moved(s.sessions, AccountMove(s, c))
    ensures Allowed(s.sessions, AccountMove(s, c))
  {
    if c.Upsert? {
      var (after, answer) := Upserted(s, c.profile, c.session, c.rowId, c.policy);
      UpsertMove(s, c.profile, c.session, c.rowId, c.policy);
    } else if c.ChangePassword? {
      PasswordMove(s, c.userId, c.previous, c.password, c.revokeOthers, c.currentHash, c.session);
    } else if c.SignUp? {
      SignUpMove(s, c.user, c.password, c.createSession, c.session);
    }
  }

  lemma TokenStepKeepsSessions(s: State, c: TokenCall)
    ensures TokenStep(s, c).0.sessions == s.sessions
  {
  }

  lemma MoveIsExact(s: State, call: Call)
    ensures Step(s, call).0.sessions == Moved(s.sessions, MoveOf(s, call))
    ensures Allowed(s.sessions, MoveOf(s, call))
  {
    match call
    case OnSession(c) => SessionMoveIsExact(s, c);
    case OnAccount(c) => AccountMoveIsExact(s, c);
    case OnToken(c) => TokenStepKeepsSessions(s, c);
  }

  // ---------------------------------------------------------------- history

  /** Sign-in of every session id ever used, every token hash ever used, and the hash that
      replaced each exchanged one. */
  datatype History = History(sessions: map<string, Session>, roots: map<string, string>, hashes: set<string>, successors: map<string, string>)

  /** Ids and tokens come from a random source and never repeat. */
  ghost predicate Fresh(h: History, m: Move) {
    m.Add? || m.Swap? ==> m.added.id !in h.roots && m.added.tokenHash !in h.hashes
  }

  function Ended(h: History, ids: set<string>, at: int): History {
    h.(sessions := Revoke(h.sessions, ids, at))
  }

  function Started(h: History, x: Session, root: string): History {
    History(h.sessions[x.id := x], h.roots[x.id := root], h.hashes + {x.tokenHash}, h.successors)
  }

  /** The chain a session is exchanged from, which is the new session itself after a sign-in. */
  function RootOf(h: History, from: Option<string>, x: Session): string {
    if from.Some? && from.value in h.roots then h.roots[from.value] else x.id
  }

  function Exchanged(h: History, from: Option<string>, x: Session): History {
    if from.Some? && from.value in h.sessions then h.(successors := h.successors[h.sessions[from.value].tokenHash := x.tokenHash]) else h
  }

  function Follow(h: History, m: Move): History {
    match m
    case Keep => h
    case Add(x) => Started(h, x, x.id)
    case End(ids, at) => Ended(h, ids, at)
    case Swap(ids, x, from) => Exchanged(Started(Ended(h, ids, x.createdAt), x, RootOf(h, from, x)), from, x)
    case Forget(userId) => h.(sessions := DropSessionsOf(h.sessions, userId))
  }

  lemma FollowMoves(h: History, m: Move)
    ensures Follow(h, m).sessions == Moved(h.sessions, m)
  {
  }

  predicate Recorded(h: History, id: string)
    requires id in h.sessions
  {
    id in h.roots && h.sessions[id].tokenHash in h.hashes && h.sessions[id].id == id
  }

  ghost predicate Known(h: History) {
    && (forall id {:trigger Recorded(h, id)} | id in h.sessions :: Recorded(h, id))
    && h.roots.Values <= h.roots.Keys && h.successors.Keys <= h.hashes
  }

  ghost predicate OneHash(h: History) {
    forall i, j | i in h.sessions && j in h.sessions && h.sessions[i].tokenHash == h.sessions[j].tokenHash :: i == j
  }

  predicate LiveIn(h: History, id: string, root: string) {
    id in h.sessions && id in h.roots && Live(h.sessions[id]) && h.roots[id] == root
  }

  /** No chain has two live sessions. */
  ghost predicate OneLive(h: History) {
    forall i, j, root {:trigger LiveIn(h, i, root), LiveIn(h, j, root)} | LiveIn(h, i, root) && LiveIn(h, j, root) :: i == j
  }

  /** An exchanged token is never live again. */
  ghost predicate ExchangedEnded(h: History) {
    forall id | id in h.sessions && Live(h.sessions[id]) :: h.sessions[id].tokenHash !in h.successors
  }

  ghost predicate ChainInv(h: History) {
    Known(h) && OneHash(h) && OneLive(h) && ExchangedEnded(h)
  }

  lemma EndKeepsInv(h: History, ids: set<string>, at: int)
    requires ChainInv(h)
    ensures ChainInv(Ended(h, ids, at))
  {
    var e := Ended(h, ids, at);
    forall id | id in e.sessions
      ensures Recorded(e, id)
    {
      assert Recorded(h, id);
    }
    forall i, j, root | LiveIn(e, i, root) && LiveIn(e, j, root)
      ensures i == j
    {
      assert LiveIn(h, i, root) && LiveIn(h, j, root);
    }
  }

  lemma ForgetKeepsInv(h: History, userId: string)
    requires ChainInv(h)
    ensures ChainInv(h.(sessions := DropSessionsOf(h.sessions, userId)))
  {
    var e := h.(sessions := DropSessionsOf(h.sessions, userId));
    forall id | id in e.sessions
      ensures Recorded(e, id)
    {
      assert Recorded(h, id);
    }
    forall i, j, root | LiveIn(e, i, root) && LiveIn(e, j, root)
      ensures i == j
    {
      assert LiveIn(h, i, root) && LiveIn(h, j, root);
    }
  }

  ghost predicate NoneLive(h: History, root: string) {
    forall id {:trigger LiveIn(h, id, root)} :: !LiveIn(h, id, root)
  }

  /** A session joins a chain that has no live one. */
  lemma StartKeepsInv(h: History, x: Session, root: string)
    requires ChainInv(h) && x.id !in h.roots && x.tokenHash !in h.hashes
    requires NoneLive(h, root) && (root == x.id || root in h.roots)
    ensures ChainInv(Started(h, x, root))
  {
    var e := Started(h, x, root);
    StartKnown(h, x, root);
    forall i, j, r | LiveIn(e, i, r) && LiveIn(e, j, r)
      ensures i == j
    {
      if i != x.id { assert LiveIn(h, i, r); }
      if j != x.id { assert LiveIn(h, j, r); }
    }
    StartExchanged(h, x, root);
  }

  lemma StartKnown(h: History, x: Session, root: string)
    requires Known(h) && OneHash(h) && x.id !in h.roots && x.tokenHash !in h.hashes && (root == x.id || root in h.roots)
    ensures Known(Started(h, x, root)) && OneHash(Started(h, x, root))
  {
    var e := Started(h, x, root);
    forall id | id in e.sessions
      ensures Recorded(e, id) && (id != x.id ==> e.sessions[id].tokenHash in h.hashes)
    {
      if id != x.id { assert Recorded(h, id); }
    }
  }

  lemma StartExchanged(h: History, x: Session, root: string)
    requires Known(h) && ExchangedEnded(h) && x.tokenHash !in h.hashes
    ensures ExchangedEnded(Started(h, x, root))
  {
  }

  /** Ending the session that was exchanged leaves its chain without a live one. */
  lemma ChainEnded(h: History, ids: set<string>, at: int, from: string)
    requires ChainInv(h) && from in ids && from in h.sessions && Live(h.sessions[from]) && from in h.roots
    ensures NoneLive(Ended(h, ids, at), h.roots[from])
  {
    var e := Ended(h, ids, at);
    forall id
      ensures !LiveIn(e, id, h.roots[from])
    {
      if LiveIn(e, id, h.roots[from]) {
        assert LiveIn(h, id, h.roots[from]) && LiveIn(h, from, h.roots[from]);
      }
    }
  }

  lemma NewChainEmpty(h: History, x: Session)
    requires Known(h) && x.id !in h.roots
    ensures NoneLive(h, x.id)
  {
    assert forall id | id in h.roots :: h.roots[id] in h.roots.Values;
  }

  lemma ExchangeKeepsInv(h: History, from: Option<string>, x: Session)
    requires ChainInv(h) && (from.Some? && from.value in h.sessions ==> !Live(h.sessions[from.value]))
    ensures ChainInv(Exchanged(h, from, x))
  {
    var e := Exchanged(h, from, x);
    if from.Some? && from.value in h.sessions { assert Recorded(h, from.value); }
    forall id | id in e.sessions
      ensures Recorded(e, id)
    {
      assert Recorded(h, id);
    }
    forall i, j, root | LiveIn(e, i, root) && LiveIn(e, j, root)
      ensures i == j
    {
      assert LiveIn(h, i, root) && LiveIn(h, j, root);
    }
  }

  lemma SwapKeepsInv(h: History, m: Move)
    requires m.Swap? && ChainInv(h) && Allowed(h.sessions, m) && Fresh(h, m)
    ensures ChainInv(Follow(h, m))
  {
    var e := Ended(h, m.ids, m.added.createdAt);
    EndKeepsInv(h, m.ids, m.added.createdAt);
    if m.from.Some? {
      assert Recorded(h, m.from.value);
      ChainEnded(h, m.ids, m.added.createdAt, m.from.value);
      assert h.roots[m.from.value] in h.roots.Values;
    } else {
      NewChainEmpty(e, m.added);
    }
    StartKeepsInv(e, m.added, RootOf(h, m.from, m.added));
    ExchangeKeepsInv(Started(e, m.added, RootOf(h, m.from, m.added)), m.from, m.added);
  }

  lemma FollowKeepsInv(h: History, m: Move)
    requires ChainInv(h) && Allowed(h.sessions, m) && Fresh(h, m)
    ensures ChainInv(Follow(h, m))
  {
    match m
    case Keep =>
    case Add(x) =>
      NewChainEmpty(h, x);
      StartKeepsInv(h, x, x.id);
    case End(ids, at) => EndKeepsInv(h, ids, at);
    case Swap(ids, x, from) => SwapKeepsInv(h, m);
    case Forget(userId) => ForgetKeepsInv(h, userId);
  }

  // ---------------------------------------------------------------- runs

  /** The session history that a run leaves behind. */
  ghost function HistoryAfter(s: State, h: History, calls: seq<Call>): History
    decreases |calls|
  {
    if calls == [] then h else HistoryAfter(Step(s, calls[0]).0, Follow(h, MoveOf(s, calls[0])), calls[1..])
  }

  ghost predicate FreshRun(s: State, h: History, calls: seq<Call>)
    decreases |calls|
  {
    calls != [] ==> Fresh(h, MoveOf(s, calls[0])) && FreshRun(Step(s, calls[0]).0, Follow(h, MoveOf(s, calls[0])), calls[1..])
  }

  lemma StepFollowed(s: State, h: History, call: Call)
    requires ChainInv(h) && h.sessions == s.sessions && Fresh(h, MoveOf(s, call))
    ensures ChainInv(Follow(h, MoveOf(s, call))) && Follow(h, MoveOf(s, call)).sessions == Step(s, call).0.sessions
  {
    MoveIsExact(s, call);
    FollowMoves(h, MoveOf(s, call));
    FollowKeepsInv(h, MoveOf(s, call));
  }

  /** Over every run of every kind of call, in any order, a sign-in's chain never has two live
      sessions, and an exchanged token is never live again. */
  lemma {:induction false} ChainsOverRuns(s: State, h: History, calls: seq<Call>)
    requires ChainInv(h) && h.sessions == s.sessions && FreshRun(s, h, calls)
    ensures ChainInv(HistoryAfter(s, h, calls)) && HistoryAfter(s, h, calls).sessions == After(s, calls).sessions
    decreases |calls|
  {
    if calls != [] {
      StepFollowed(s, h, calls[0]);
      ChainsOverRuns(Step(s, calls[0]).0, Follow(h, MoveOf(s, calls[0])), calls[1..]);
    }
  }

  const NoHistory := History(map[], map[], {}, map[])

  /** In every state reachable from an empty store. */
  lemma EveryReachableChain(calls: seq<Call>)
    requires FreshRun(Empty, NoHistory, calls)
    ensures var h := HistoryAfter(Empty, NoHistory, calls); OneLive(h) && ExchangedEnded(h) && h.sessions == After(Empty, calls).sessions
  {
    ChainsOverRuns(Empty, NoHistory, calls);
  }

  /** A token that was exchanged once cannot be exchanged again. */
  lemma OneSuccessor(s: State, h: History, call: Call)
    requires ChainInv(h) && h.sessions == s.sessions
    requires var m := MoveOf(s, call); m.Swap? && m.from.Some?
    ensures var m := MoveOf(s, call);
            && m.from.value in s.sessions
            && s.sessions[m.from.value].tokenHash !in h.successors
            && Follow(h, m).successors == h.successors[s.sessions[m.from.value].tokenHash := m.added.tokenHash]
  {
    MoveIsExact(s, call);
  }

  // ---------------------------------------------------------------- revocation

  /** The time of a revocation never changes while the row exists. */
  lemma RevokedOnce(s: State, call: Call, id: string)
    requires id in s.sessions && s.sessions[id].revokedAt.Some?
    ensures id in Step(s, call).0.sessions ==> Step(s, call).0.sessions[id] == s.sessions[id]
  {
    MoveIsExact(s, call);
  }

  /** And apart from that nothing about a session ever changes. */
  lemma OnlyRevoked(s: State, call: Call, id: string)
    requires id in s.sessions
    ensures id in Step(s, call).0.sessions ==>
              Step(s, call).0.sessions[id] == s.sessions[id].(revokedAt := Step(s, call).0.sessions[id].revokedAt)
  {
    MoveIsExact(s, call);
  }

  /** Over a whole run a revoked session keeps its time of revocation; it may be deleted with its
      user, but it never comes back. */
  lemma {:induction false} RevocationIsFinal(s: State, h: History, calls: seq<Call>, id: string, x: Session)
    requires ChainInv(h) && h.sessions == s.sessions && FreshRun(s, h, calls)
    requires x.revokedAt.Some? && id in h.roots && (id in s.sessions ==> s.sessions[id] == x)
    ensures id in After(s, calls).sessions ==> After(s, calls).sessions[id] == x
    decreases |calls|
  {
    if calls != [] {
      StepFollowed(s, h, calls[0]);
      RowStays(s, h, calls[0], id, x);
      RevocationIsFinal(Step(s, calls[0]).0, Follow(h, MoveOf(s, calls[0])), calls[1..], id, x);
    }
  }

  lemma RowStays(s: State, h: History, call: Call, id: string, x: Session)
    requires ChainInv(h) && h.sessions == s.sessions && Fresh(h, MoveOf(s, call))
    requires x.revokedAt.Some? && id in h.roots && (id in s.sessions ==> s.sessions[id] == x)
    ensures id in Step(s, call).0.sessions ==> Step(s, call).0.sessions[id] == x
    ensures id in Follow(h, MoveOf(s, call)).roots
  {
    MoveIsExact(s, call);
  }

  /** A password change that revokes the other sessions leaves the user exactly the new one. */
  lemma PasswordChangeLeavesOne(s: State, userId: string, previous: string, password: string, currentHash: string, r: Session)
    requires r.userId == userId && Live(r)
    ensures var (after, answer) := AccountStep(s, ChangePassword(userId, previous, password, true, currentHash, r));
            if answer.Success? then LiveOf(after, userId) == {r.id} else after == s
  {
  }

  /** Signing out everywhere, or everywhere else. */
  lemma RevocationIsComplete(s: State, userId: string, current: string, at: int)
    ensures LiveOf(SessionStep(s, RevokeAll(userId, at)).0, userId) == {}
    ensures LiveOf(SessionStep(s, RevokeOthers(userId, current, at)).0, userId) == LiveOf(s, userId) * {current}
  {
    var all, others := SessionStep(s, RevokeAll(userId, at)).0, SessionStep(s, RevokeOthers(userId, current, at)).0;
    assert forall id | id in all.sessions :: !(all.sessions[id].userId == userId && Live(all.sessions[id]));
    assert forall id | id in others.sessions ::
        (others.sessions[id].userId == userId && Live(others.sessions[id])) <==> (id == current && id in LiveOf(s, userId));
  }

  /** Revocations of one user never touch the sessions of another. */
  lemma RevocationIsConfined(s: State, userId: string, current: string, at: int, id: string)
    requires id in s.sessions && s.sessions[id].userId != userId
    ensures SessionStep(s, RevokeAll(userId, at)).0.sessions[id] == s.sessions[id]
    ensures SessionStep(s, RevokeOthers(userId, current, at)).0.sessions[id] == s.sessions[id]
    ensures SessionStep(s, RevokeById(userId, id, at)) == (s, Failure(NotFound))
  {
  }
}
