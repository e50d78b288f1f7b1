/**
 One-time tokens over whole runs: spent at most once, only by the consumer of the purpose
 they were issued for, and only before they expire.
 */
module AuthTokens {
  import opened Wrappers
  import opened AuthState

  // ---------------------------------------------------------------- identifiers

  lemma NamesDiffer(p: Purpose, q: Purpose)
    requires p != q
    ensures Name(p) != Name(q)
  {
    assert |PasswordResetName| == 14 && |EmailVerifyName| == 12 && |EmailChangeName| == 12;
    assert |EmailChangeConfirmationName| == 25 && |UserDeletionName| == 13 && |OAuthStateName| == 11;
    assert EmailVerifyName[6] != EmailChangeName[6];
  }

  predicate NoColon(s: string) {
    forall c | c in s :: c != ':'
  }

  lemma NamesHaveNoColon(p: Purpose)
    ensures NoColon(Name(p))
  {
  }

  lemma PrefixHas(prefix: string, s: string, c: char)
    requires c in prefix
    ensures prefix <= s ==> c in s
  {
    var i :| 0 <= i < |prefix| && prefix[i] == c;
    assert prefix <= s ==> s[i] == c;
  }

  lemma PrefixDecides(a: string, b: string, rest: string)
    requires NoColon(a) && NoColon(b)
    ensures a + ":" <= b + ":" + rest <==> a == b
    ensures !(a + ":" <= b)
    ensures a != b + ":" + rest
  {
    var whole, start := b + ":" + rest, a + ":";
    assert whole[|b|] == ':' && start[|a|] == ':';
    if start <= whole {
      assert whole[|a|] == start[|a|];
      assert forall i | 0 <= i < |b| :: whole[i] == b[i] && b[i] in b;
      assert forall i | 0 <= i < |a| :: start[i] == a[i] && a[i] in a;
      assert |a| == |b|;
      assert a == start[..|a|] == whole[..|a|] == b;
    }
    PrefixHas(start, b, ':');
    assert ':' in whole;
  }

  /** The consumer of one purpose recognises exactly the rows of that purpose. In particular
      "email_change:" is not a prefix of a confirmation's identifier. */
  lemma PurposesAreDisjoint(p: Purpose, q: Purpose, userId: string)
    ensures Recognises(p, Identifier(q, userId)) <==> p == q
  {
    NamesHaveNoColon(p);
    NamesHaveNoColon(q);
    PrefixDecides(Name(p), Name(q), userId);
    if p != q { NamesDiffer(p, q); }
  }

  lemma IdentifierNamesUser(p: Purpose, a: string, b: string)
    requires Exclusive(p)
    ensures Identifier(p, a) == Identifier(p, b) <==> a == b
  {
    var prefix := Name(p) + ":";
    assert (prefix + a)[|prefix|..] == a && (prefix + b)[|prefix|..] == b;
  }

  // ---------------------------------------------------------------- history

  datatype Issue = Issue(purpose: Purpose, userId: string, expiresAt: int)

  /** What every token value ever issued was for, and the values spent. */
  datatype Ledger = Ledger(issued: map<string, Issue>, spent: set<string>)

  /** The value a call spends: its row was found and did not come back. */
  ghost function Spends(s: State, call: Call): Option<string> {
    if call.OnToken? && call.t.Consume? then
      var row := SpendableRow(s, call.t.purpose, call.t.hash, call.t.now);
      if row.Some? && row.value !in TokenStep(s, call.t).0.tokens then Some(call.t.hash) else None
    else None
  }

  ghost predicate Issues(s: State, call: Call) {
    call.OnToken? && call.t.Put? && TokenStep(s, call.t).1.Success?
  }

  ghost function Follow(l: Ledger, s: State, call: Call): Ledger {
    if Issues(s, call) then
      l.(issued := l.issued[call.t.hash := Issue(call.t.purpose, call.t.userId, call.t.expiresAt)])
    else if Spends(s, call).Some? then l.(spent := l.spent + {Spends(s, call).value})
    else l
  }

  /** Token values are hashes of random tokens, so they never repeat. */
  ghost predicate FreshValue(l: Ledger, call: Call) {
    call.OnToken? && call.t.Put? ==> call.t.hash !in l.issued
  }

  predicate Matches(t: Token, issue: Issue) {
    t.identifier == Identifier(issue.purpose, issue.userId) && t.expiresAt == issue.expiresAt && t.userId == issue.userId
  }

  predicate Outstanding(l: Ledger, t: Token) {
    t.value in l.issued && t.value !in l.spent && Matches(t, l.issued[t.value])
  }

  ghost predicate AllOutstanding(l: Ledger, tokens: map<string, Token>) {
    forall id | id in tokens :: Outstanding(l, tokens[id])
  }

  /** No two tokens for an email change share an identifier. */
  ghost predicate OnePerIdentifier(tokens: map<string, Token>) {
    forall p: Purpose, i, j | Exclusive(p) && i in tokens && j in tokens
      && Recognises(p, tokens[i].identifier) && tokens[i].identifier == tokens[j].identifier :: i == j
  }

  ghost predicate TokenInv(l: Ledger, s: State) {
    SoundTokens(s.tokens) && AllOutstanding(l, s.tokens) && OnePerIdentifier(s.tokens) && l.spent <= l.issued.Keys
  }

  lemma OtherStepsKeepTokens(s: State, call: Call)
    requires !call.OnToken?
    ensures Step(s, call).0.tokens == s.tokens
  {
    if call.OnAccount? { AccountStepKeepsTokens(s, call.a); }
  }

  lemma UpsertKeepsTokens(s: State, p: Profile, x: Session, rowId: string, policy: Policy)
    ensures Upserted(s, p, x, rowId, policy).0.tokens == s.tokens
  {
  }

  lemma AccountStepKeepsTokens(s: State, c: AccountCall)
    ensures AccountStep(s, c).0.tokens == s.tokens
  {
  }

  /** A consumer removes its row, or leaves every row when it is refused and rolled back. */
  lemma ConsumeRemoves(s: State, c: TokenCall)
    requires c.Consume?
    ensures var row := SpendableRow(s, c.purpose, c.hash, c.now);
            var after := TokenStep(s, c).0;
            && (row.None? ==> after == s)
            && (row.Some? ==> after.tokens == s.tokens - {row.value} || after == s)
  {
    var row := SpendableRow(s, c.purpose, c.hash, c.now);
    if row.Some? {
      var after := s.(tokens := s.tokens - {row.value});
      if c.purpose.PasswordReset? { AccountStepKeepsTokens(after, SetPassword(s.tokens[row.value].userId, c.argument)); }
    }
  }

  lemma SpentKeepsInv(l: Ledger, s: State, row: string)
    requires TokenInv(l, s) && row in s.tokens
    ensures TokenInv(l.(spent := l.spent + {s.tokens[row].value}), s.(tokens := s.tokens - {row}))
  {
    assert Outstanding(l, s.tokens[row]);
    var l', after := l.(spent := l.spent + {s.tokens[row].value}), s.tokens - {row};
    forall id | id in after
      ensures Outstanding(l', after[id])
    {
      assert Outstanding(l, s.tokens[id]);
    }
  }

  lemma ConsumeKeepsInv(l: Ledger, s: State, c: TokenCall)
    requires TokenInv(l, s) && c.Consume?
    ensures TokenInv(Follow(l, s, OnToken(c)), Step(s, OnToken(c)).0)
  {
    ConsumeRemoves(s, c);
    var row, after := SpendableRow(s, c.purpose, c.hash, c.now), TokenStep(s, c).0;
    if row.Some? { SpentKeepsInv(l, s, row.value); }
  }

  function PutToken(c: TokenCall): Token
    requires c.Put?
  {
    Token(c.id, Identifier(c.purpose, c.userId), c.hash, c.expiresAt, c.userId, c.newEmail)
  }

  function Kept(s: State, c: TokenCall): map<string, Token>
    requires c.Put?
  {
    if Exclusive(c.purpose) then DropIdentifier(s.tokens, Identifier(c.purpose, c.userId)) else s.tokens
  }

  lemma PutAdds(s: State, c: TokenCall)
    requires c.Put? && Issues(s, OnToken(c))
    ensures TokenRefusal(Kept(s, c), PutToken(c)).None? && TokenStep(s, c).0.tokens == Kept(s, c)[c.id := PutToken(c)]
    ensures forall id | id in Kept(s, c) :: id in s.tokens && Kept(s, c)[id] == s.tokens[id]
  {
  }

  lemma AddToken(tokens: map<string, Token>, t: Token)
    requires SoundTokens(tokens) && TokenRefusal(tokens, t).None?
    ensures SoundTokens(tokens[t.id := t])
  {
  }

  lemma KeptSound(s: State, c: TokenCall)
    requires SoundTokens(s.tokens) && c.Put?
    ensures SoundTokens(Kept(s, c))
  {
  }

  lemma PutKeepsOutstanding(l: Ledger, s: State, c: TokenCall)
    requires TokenInv(l, s) && c.Put? && c.hash !in l.issued && Issues(s, OnToken(c))
    ensures AllOutstanding(Follow(l, s, OnToken(c)), TokenStep(s, c).0.tokens)
  {
    var after, l' := TokenStep(s, c).0.tokens, Follow(l, s, OnToken(c));
    PutAdds(s, c);
    forall id | id in after
      ensures Outstanding(l', after[id])
    {
      if id != c.id { assert Outstanding(l, s.tokens[id]); }
    }
  }

  lemma RecognisedBy(l: Ledger, t: Token, p: Purpose)
    requires Outstanding(l, t) && Recognises(p, t.identifier)
    ensures l.issued[t.value].purpose == p
  {
    PurposesAreDisjoint(p, l.issued[t.value].purpose, l.issued[t.value].userId);
  }

  lemma PutKeepsOnePerIdentifier(l: Ledger, s: State, c: TokenCall)
    requires TokenInv(l, s) && c.Put? && Issues(s, OnToken(c))
    ensures OnePerIdentifier(TokenStep(s, c).0.tokens)
  {
    var after := TokenStep(s, c).0.tokens;
    var mine := Identifier(c.purpose, c.userId);
    forall p: Purpose, i, j | Exclusive(p) && i in after && j in after
      && Recognises(p, after[i].identifier) && after[i].identifier == after[j].identifier
      ensures i == j
    {
      if i == c.id || j == c.id {
        PurposesAreDisjoint(p, c.purpose, c.userId);
        assert after[i].identifier == mine;
      } else {
        assert Recognises(p, s.tokens[i].identifier);
      }
    }
  }

  lemma StepKeepsInv(l: Ledger, s: State, call: Call)
    requires TokenInv(l, s) && FreshValue(l, call)
    ensures TokenInv(Follow(l, s, call), Step(s, call).0)
  {
    if !call.OnToken? {
      OtherStepsKeepTokens(s, call);
    } else if call.t.Consume? {
      ConsumeKeepsInv(l, s, call.t);
    } else if Issues(s, call) {
      PutAdds(s, call.t);
      KeptSound(s, call.t);
      AddToken(Kept(s, call.t), PutToken(call.t));
      PutKeepsOutstanding(l, s, call.t);
      PutKeepsOnePerIdentifier(l, s, call.t);
    }
  }

  /** A call spends a token only if it was issued for the consumer's purpose, has not been
      spent before and has not expired. */
  lemma SpentOnceForItsPurpose(l: Ledger, s: State, call: Call)
    requires TokenInv(l, s) && Spends(s, call).Some?
    ensures var value := Spends(s, call).value;
            && value in l.issued && value !in l.spent && value in Follow(l, s, call).spent
            && l.issued[value].purpose == call.t.purpose && call.t.now < l.issued[value].expiresAt
  {
    var row := SpendableRow(s, call.t.purpose, call.t.hash, call.t.now);
    assert Outstanding(l, s.tokens[row.value]);
    RecognisedBy(l, s.tokens[row.value], call.t.purpose);
  }

  /** A consumer that succeeds has spent the token it was given. */
  lemma SuccessSpends(s: State, c: TokenCall)
    requires c.Consume? && TokenStep(s, c).1.Success?
    ensures Spends(s, OnToken(c)) == Some(c.hash)
  {
    var row := SpendableRow(s, c.purpose, c.hash, c.now);
    var after := s.(tokens := s.tokens - {row.value});
    if c.purpose.PasswordReset? { AccountStepKeepsTokens(after, SetPassword(s.tokens[row.value].userId, c.argument)); }
  }

  // ---------------------------------------------------------------- runs

  ghost function LedgerAfter(s: State, l: Ledger, calls: seq<Call>): Ledger
    decreases |calls|
  {
    if calls == [] then l else LedgerAfter(Step(s, calls[0]).0, Follow(l, s, calls[0]), calls[1..])
  }

  ghost predicate FreshRun(s: State, l: Ledger, calls: seq<Call>)
    decreases |calls|
  {
    calls != [] ==> FreshValue(l, calls[0]) && FreshRun(Step(s, calls[0]).0, Follow(l, s, calls[0]), calls[1..])
  }

  lemma {:induction false} TokensOverRuns(s: State, l: Ledger, calls: seq<Call>)
    requires TokenInv(l, s) && FreshRun(s, l, calls)
    ensures TokenInv(LedgerAfter(s, l, calls), After(s, calls))
    decreases |calls|
  {
    if calls != [] {
      StepKeepsInv(l, s, calls[0]);
      TokensOverRuns(Step(s, calls[0]).0, Follow(l, s, calls[0]), calls[1..]);
    }
  }

  /** How often a run spends a value. */
  ghost function TimesSpent(s: State, calls: seq<Call>, value: string): nat
    decreases |calls|
  {
    if calls == [] then 0
    else (if Spends(s, calls[0]) == Some(value) then 1 else 0) + TimesSpent(Step(s, calls[0]).0, calls[1..], value)
  }

  /** Over every run, every value is spent at most once, and never again once it was. */
  lemma {:induction false} SpentAtMostOnce(s: State, l: Ledger, calls: seq<Call>, value: string)
    requires TokenInv(l, s) && FreshRun(s, l, calls)
    ensures TimesSpent(s, calls, value) <= if value in l.spent then 0 else 1
    decreases |calls|
  {
    if calls != [] {
      StepKeepsInv(l, s, calls[0]);
      if Spends(s, calls[0]).Some? { SpentOnceForItsPurpose(l, s, calls[0]); }
      SpentAtMostOnce(Step(s, calls[0]).0, Follow(l, s, calls[0]), calls[1..], value);
    }
  }

  /** Each user has at most one outstanding token for each of the two purposes of an email change. */
  ghost predicate OnePerUser(tokens: map<string, Token>) {
    forall p: Purpose, i, j | Exclusive(p) && i in tokens && j in tokens && tokens[i].userId == tokens[j].userId
      && Recognises(p, tokens[i].identifier) && Recognises(p, tokens[j].identifier) :: i == j
  }

  lemma IdentifiersCountUsers(l: Ledger, s: State)
    requires TokenInv(l, s)
    ensures OnePerUser(s.tokens)
  {
    forall p: Purpose, i, j | Exclusive(p) && i in s.tokens && j in s.tokens && s.tokens[i].userId == s.tokens[j].userId
      && Recognises(p, s.tokens[i].identifier) && Recognises(p, s.tokens[j].identifier)
      ensures i == j
    {
      assert Outstanding(l, s.tokens[i]) && Outstanding(l, s.tokens[j]);
      RecognisedBy(l, s.tokens[i], p);
      RecognisedBy(l, s.tokens[j], p);
    }
  }

  const NothingIssued := Ledger(map[], {})

  /** From an empty store on, every value is spent at most once, and in every reachable state
      each user has at most one token for each email-change purpose. */
  lemma EveryReachableToken(calls: seq<Call>, value: string)
    requires FreshRun(Empty, NothingIssued, calls)
    ensures TimesSpent(Empty, calls, value) <= 1 && OnePerUser(After(Empty, calls).tokens)
  {
    TokensOverRuns(Empty, NothingIssued, calls);
    SpentAtMostOnce(Empty, NothingIssued, calls, value);
    IdentifiersCountUsers(LedgerAfter(Empty, NothingIssued, calls), After(Empty, calls));
  }
}
