/**
 The v1.7 migration that rewrites provider account ids: list every account, plan all new
 ids, refuse plans that could break the (providerId, accountId) key, then update in one
 transaction.
 */
module AccountRekey {
  import opened Wrappers
  import opened Strings

  datatype Account = Account(userId: string, provider: string, accountId: string)

  type Rows = map<string, Account>

  datatype Planned = Planned(id: string, userId: string, provider: string, oldId: string, newId: string) {
    predicate Changes() { newId != oldId }
  }

  datatype Error =
    | OutOfBounds | Malformed | ResolverFailed | InvalidId | TooManyAccounts
    | CollisionsFound | ChainFound | Conflict | AccountChanged

  /** The resolver looks at one row and answers with a new id, "" to keep, or an error. */
  type Resolver = (string, Account) -> Option<string>

  predicate UniqueKeys(rows: Rows) {
    forall i, j | i in rows && j in rows && rows[i].provider == rows[j].provider && rows[i].accountId == rows[j].accountId ::
      i == j
  }

  // ---------------------------------------------------------------- planning

  predicate PlanningError(error: Error) {
    error.Malformed? || error.ResolverFailed? || error.InvalidId? || error.TooManyAccounts?
  }

  predicate UpdateError(error: Error) {
    error.Conflict? || error.AccountChanged?
  }

  function PlanAccount(id: string, account: Account, resolve: Resolver): (r: Result<Planned, Error>)
    ensures r.Failure? ==> PlanningError(r.error)
  {
    if id == "" || account.provider == "" || account.accountId == "" then Failure(Malformed)
    else
      match resolve(id, account)
      case None => Failure(ResolverFailed)
      case Some(answer) =>
        var trimmed := TrimSpace(answer);
        var newId := if trimmed == "" then account.accountId else trimmed;
        if ByteLength(newId) > 512 then Failure(InvalidId)
        else Success(Planned(id, account.userId, account.provider, account.accountId, newId))
  }

  /** What the resolver's answer means for a row: blanks around it do not count, and an empty one
      keeps the id. */
  function Answered(account: Account, answer: string): Account {
    if TrimSpace(answer) == "" then account else account.(accountId := TrimSpace(answer))
  }

  /** A complete row that the resolver answers with an id of at most 512 bytes. */
  predicate Plannable(id: string, account: Account, resolve: Resolver) {
    && id != "" && account.provider != "" && account.accountId != ""
    && resolve(id, account).Some? && ByteLength(Answered(account, resolve(id, account).value).accountId) <= 512
  }

  predicate AllPlannable(rows: Rows, resolve: Resolver) {
    forall id | id in rows :: Plannable(id, rows[id], resolve)
  }

  /** The row as the resolver wants it. */
  function Wanted(rows: Rows, resolve: Resolver, id: string): Account
    requires id in rows && resolve(id, rows[id]).Some?
  {
    Answered(rows[id], resolve(id, rows[id]).value)
  }

  /** The plan gives each listed row the id that the resolver wants. */
  predicate AsResolved(rows: Rows, resolve: Resolver, planned: seq<Planned>) {
    forall i | 0 <= i < |planned| ::
      && planned[i].id in rows && resolve(planned[i].id, rows[planned[i].id]).Some?
      && planned[i].newId == Wanted(rows, resolve, planned[i].id).accountId
  }

  lemma PlanAccountIff(id: string, account: Account, resolve: Resolver)
    ensures PlanAccount(id, account, resolve).Success? <==> Plannable(id, account, resolve)
    ensures PlanAccount(id, account, resolve).Success? ==>
              var item := PlanAccount(id, account, resolve).value;
              item == Planned(id, account.userId, account.provider, account.accountId, Answered(account, resolve(id, account).value).accountId)
  {
  }

  predicate Lists(planned: seq<Planned>, id: string) {
    exists i | 0 <= i < |planned| :: planned[i].id == id
  }

  /** The plan lists each row once, with its current values. */
  ghost predicate PlanFor(rows: Rows, planned: seq<Planned>) {
    && (forall i, j | 0 <= i < j < |planned| :: planned[i].id != planned[j].id)
    && (forall i | 0 <= i < |planned| :: Describes(rows, planned[i]))
    && (forall id {:trigger Lists(planned, id)} | id in rows :: Lists(planned, id))
  }

  predicate Describes(rows: Rows, item: Planned) {
    item.id in rows && rows[item.id] == Account(item.userId, item.provider, item.oldId)
  }

  /** order is how the database sorts the rows by id. */
  ghost predicate Sorts(order: seq<string>, rows: Rows) {
    && (forall i, j | 0 <= i < j < |order| :: order[i] != order[j])
    && (forall id {:trigger id in order} :: id in rows <==> id in order)
  }

  function Page(order: seq<string>, offset: nat): seq<string> {
    if offset >= |order| then [] else if |order| - offset <= 1000 then order[offset..] else order[offset..offset + 1000]
  }

  /** The plans of the first rows in the database's order. */
  ghost predicate PlannedFrom(rows: Rows, order: seq<string>, resolve: Resolver, planned: seq<Planned>) {
    && |planned| <= |order|
    && forall i | 0 <= i < |planned| ::
         order[i] in rows && PlanAccount(order[i], rows[order[i]], resolve) == Success(planned[i])
  }

  /** Why planning fails: too many rows, or a row that cannot be planned. */
  ghost predicate Unplannable(rows: Rows, order: seq<string>, resolve: Resolver, limit: nat) {
    |order| > limit || exists id | id in rows :: PlanAccount(id, rows[id], resolve).Failure?
  }

  /** The paging loop: pages of 1000 until a short one, planning each row as it comes. */
  method PlanAll(rows: Rows, order: seq<string>, resolve: Resolver, limit: nat) returns (result: Result<seq<Planned>, Error>)
    requires Sorts(order, rows)
    ensures result.Success? <==> |order| <= limit && AllPlannable(rows, resolve)
    ensures result.Success? ==> AsResolved(rows, resolve, result.value)
    ensures result.Success? ==> PlanFor(rows, result.value) && |result.value| == |order| <= limit
    ensures result.Success? ==> PlannedFrom(rows, order, resolve, result.value)
    ensures result.Failure? ==> PlanningError(result.error)
    ensures result.Failure? ==> Unplannable(rows, order, resolve, limit)
  {
    var planned: seq<Planned> := [];
    var offset := 0;
    while true
      invariant 0 <= offset && |planned| == (if offset <= |order| then offset else |order|) <= limit
      invariant PlannedFrom(rows, order, resolve, planned)
      decreases |order| + 1 - offset
    {
      var page := Page(order, offset);
      UnplannableIff(rows, order, resolve, limit);
      planned :- PlanPage(rows, order, page, resolve, limit, planned);
      if |page| < 1000 {
        break;
      }
      offset := offset + 1000;
    }
    PlanCovers(rows, order, planned, resolve);
    PlannedIsResolved(rows, order, planned, resolve);
    return Success(planned);
  }

  method PlanPage(rows: Rows, order: seq<string>, page: seq<string>, resolve: Resolver, limit: nat, before: seq<Planned>)
    returns (result: Result<seq<Planned>, Error>)
    requires Sorts(order, rows) && |before| + |page| <= |order| && |before| <= limit
    requires page == order[|before|..|before| + |page|]
    requires PlannedFrom(rows, order, resolve, before)
    ensures result.Success? ==> |result.value| == |before| + |page| <= limit
    ensures result.Success? ==> PlannedFrom(rows, order, resolve, result.value)
    ensures result.Failure? ==> PlanningError(result.error)
    ensures result.Failure? ==> Unplannable(rows, order, resolve, limit)
  {
    var planned := before;
    var k := 0;
    while k < |page|
      invariant 0 <= k <= |page| && |planned| == |before| + k <= limit
      invariant PlannedFrom(rows, order, resolve, planned)
    {
      assert page[k] == order[|before| + k] && page[k] in order;
      var item :- PlanAccount(page[k], rows[page[k]], resolve);
      planned := planned + [item];
      if |planned| > limit {
        return Failure(TooManyAccounts);
      }
      k := k + 1;
    }
    return Success(planned);
  }

  lemma UnplannableIff(rows: Rows, order: seq<string>, resolve: Resolver, limit: nat)
    ensures Unplannable(rows, order, resolve, limit) <==> |order| > limit || !AllPlannable(rows, resolve)
  {
    forall id | id in rows
      ensures PlanAccount(id, rows[id], resolve).Success? <==> Plannable(id, rows[id], resolve)
    {
      PlanAccountIff(id, rows[id], resolve);
    }
  }

  lemma PlannedIsResolved(rows: Rows, order: seq<string>, planned: seq<Planned>, resolve: Resolver)
    requires Sorts(order, rows) && |planned| == |order| && PlannedFrom(rows, order, resolve, planned)
    ensures AsResolved(rows, resolve, planned) && AllPlannable(rows, resolve)
  {
    forall i | 0 <= i < |planned|
      ensures Plannable(order[i], rows[order[i]], resolve) && planned[i].id == order[i]
      ensures planned[i].newId == Wanted(rows, resolve, order[i]).accountId
    {
      PlanAccountIff(order[i], rows[order[i]], resolve);
    }
    forall id | id in rows
      ensures Plannable(id, rows[id], resolve)
    {
      assert id in order;
      var i :| 0 <= i < |order| && order[i] == id;
    }
  }

  lemma PlanCovers(rows: Rows, order: seq<string>, planned: seq<Planned>, resolve: Resolver)
    requires Sorts(order, rows) && |planned| == |order| && PlannedFrom(rows, order, resolve, planned)
    ensures PlanFor(rows, planned)
  {
    forall i | 0 <= i < |planned|
      ensures planned[i].id == order[i] && Describes(rows, planned[i])
    {
      assert PlanAccount(order[i], rows[order[i]], resolve) == Success(planned[i]);
    }
    forall id | id in rows
      ensures Lists(planned, id)
    {
      assert id in order;
      var i :| 0 <= i < |order| && order[i] == id;
      assert planned[i].id == id;
    }
  }

  // ---------------------------------------------------------------- collisions

  /** Rows are grouped by provider and new id, joined with a NUL character. */
  function GroupKey(item: Planned): string {
    item.provider + ['\0'] + item.newId
  }

  function Group(planned: seq<Planned>, key: string): seq<Planned> {
    if planned == [] then []
    else Group(planned[..|planned| - 1], key)
         + (if GroupKey(planned[|planned| - 1]) == key then [planned[|planned| - 1]] else [])
  }

  function Members(grouped: map<string, seq<Planned>>, key: string): seq<Planned> {
    if key in grouped then grouped[key] else []
  }

  function Grow(grouped: map<string, seq<Planned>>, item: Planned): map<string, seq<Planned>> {
    grouped[GroupKey(item) := Members(grouped, GroupKey(item)) + [item]]
  }

  ghost predicate GroupsOf(grouped: map<string, seq<Planned>>, planned: seq<Planned>) {
    forall key {:trigger Members(grouped, key)} :: Members(grouped, key) == Group(planned, key)
  }

  lemma GroupMore(planned: seq<Planned>, item: Planned, key: string)
    ensures Group(planned + [item], key) == Group(planned, key) + if GroupKey(item) == key then [item] else []
  {
    assert (planned + [item])[..|planned|] == planned;
  }

  lemma GrowGroups(grouped: map<string, seq<Planned>>, planned: seq<Planned>, item: Planned)
    requires GroupsOf(grouped, planned)
    ensures GroupsOf(Grow(grouped, item), planned + [item])
  {
    var grown := Grow(grouped, item);
    forall key
      ensures Members(grown, key) == Group(planned + [item], key)
    {
      GroupMore(planned, item, key);
      assert Members(grouped, key) == Group(planned, key);
    }
  }

  ghost predicate GroupsWithTwo(planned: seq<Planned>, collisions: map<string, seq<Planned>>) {
    && (forall key :: key in collisions <==> |Group(planned, key)| >= 2)
    && forall key | key in collisions :: collisions[key] == Group(planned, key)
  }

  /** The groups with at least two rows. */
  method Collisions(planned: seq<Planned>) returns (collisions: map<string, seq<Planned>>)
    ensures GroupsWithTwo(planned, collisions)
  {
    var grouped: map<string, seq<Planned>> := map[];
    var i := 0;
    while i < |planned|
      invariant 0 <= i <= |planned|
      invariant GroupsOf(grouped, planned[..i])
    {
      GrowGroups(grouped, planned[..i], planned[i]);
      assert planned[..i + 1] == planned[..i] + [planned[i]];
      grouped := Grow(grouped, planned[i]);
      i := i + 1;
    }
    assert planned[..i] == planned;
    assert forall key :: Members(grouped, key) == Group(planned, key);
    return map key | key in grouped && |grouped[key]| >= 2 :: grouped[key];
  }

  predicate SameTarget(a: Planned, b: Planned) {
    a.provider == b.provider && a.newId == b.newId
  }

  predicate Colliding(planned: seq<Planned>) {
    exists i, j | 0 <= i < j < |planned| :: SameTarget(planned[i], planned[j])
  }

  lemma {:induction false} GroupHolds(planned: seq<Planned>, i: nat, j: nat)
    requires i < j < |planned| && GroupKey(planned[i]) == GroupKey(planned[j])
    ensures |Group(planned, GroupKey(planned[i]))| >= 2
  {
    var n := |planned| - 1;
    if j < n {
      assert planned[..n][i] == planned[i] && planned[..n][j] == planned[j];
      GroupHolds(planned[..n], i, j);
    } else {
      GroupNonEmpty(planned[..n], i);
      assert planned[..n][i] == planned[i];
    }
  }

  lemma {:induction false} GroupNonEmpty(planned: seq<Planned>, i: nat)
    requires i < |planned|
    ensures |Group(planned, GroupKey(planned[i]))| >= 1
  {
    var n := |planned| - 1;
    if i < n {
      assert planned[..n][i] == planned[i];
      GroupNonEmpty(planned[..n], i);
    }
  }

  lemma {:induction false} GroupPair(planned: seq<Planned>, key: string) returns (i: nat, j: nat)
    requires |Group(planned, key)| >= 2
    ensures i < j < |planned| && GroupKey(planned[i]) == GroupKey(planned[j]) == key
  {
    var n := |planned| - 1;
    if |Group(planned[..n], key)| >= 2 {
      i, j := GroupPair(planned[..n], key);
      assert planned[..n][i] == planned[i] && planned[..n][j] == planned[j];
    } else {
      j := n;
      i := GroupMember(planned[..n], key);
      assert planned[..n][i] == planned[i];
    }
  }

  lemma {:induction false} GroupMember(planned: seq<Planned>, key: string) returns (i: nat)
    requires |Group(planned, key)| >= 1
    ensures i < |planned| && GroupKey(planned[i]) == key
  {
    var n := |planned| - 1;
    if GroupKey(planned[n]) == key {
      i := n;
    } else {
      i := GroupMember(planned[..n], key);
      assert planned[..n][i] == planned[i];
    }
  }

  /** Two different targets whose joined keys read the same: one provider goes on with NUL and
      the start of the other's new id, up to the NUL in it. */
  predicate Confused(a: Planned, b: Planned) {
    && |a.provider| < |b.provider| && a.provider + ['\0'] == b.provider[..|a.provider| + 1]
    && a.newId == b.provider[|a.provider| + 1..] + ['\0'] + b.newId
  }

  predicate Confusable(planned: seq<Planned>) {
    exists i, j | 0 <= i < |planned| && 0 <= j < |planned| :: Confused(planned[i], planned[j])
  }

  lemma SameKeyIff(a: Planned, b: Planned)
    ensures GroupKey(a) == GroupKey(b) <==> SameTarget(a, b) || Confused(a, b) || Confused(b, a)
  {
    if GroupKey(a) == GroupKey(b) {
      if |a.provider| <= |b.provider| { KeyReadsTwice(a, b); } else { KeyReadsTwice(b, a); }
    }
    if Confused(a, b) { ConfusedKeys(a, b); }
    if Confused(b, a) { ConfusedKeys(b, a); }
  }

  lemma ConfusedKeys(a: Planned, b: Planned)
    requires Confused(a, b)
    ensures GroupKey(a) == GroupKey(b)
  {
    var m := b.provider[|a.provider| + 1..];
    assert b.provider == a.provider + ['\0'] + m;
    assert GroupKey(b) == a.provider + ['\0'] + m + ['\0'] + b.newId;
    assert GroupKey(a) == a.provider + ['\0'] + (m + ['\0'] + b.newId);
  }

  lemma KeyReadsTwice(a: Planned, b: Planned)
    requires GroupKey(a) == GroupKey(b) && |a.provider| <= |b.provider|
    ensures SameTarget(a, b) || Confused(a, b)
  {
    var key, n := GroupKey(a), |a.provider|;
    assert a.provider == key[..n] && b.provider == key[..|b.provider|];
    assert a.newId == key[n + 1..] && b.newId == key[|b.provider| + 1..];
    if n < |b.provider| {
      assert b.provider[..n + 1] == key[..n + 1] == a.provider + ['\0'];
      assert key[n + 1..] == key[n + 1..|b.provider|] + ([key[|b.provider|]] + key[|b.provider| + 1..]);
      assert key[|b.provider|] == '\0';
      assert b.provider[n + 1..] == key[n + 1..|b.provider|];
    }
  }

  /** Some group is reported. */
  ghost predicate Reported(planned: seq<Planned>) {
    exists key :: |Group(planned, key)| >= 2
  }

  /** Something is reported exactly when two rows share a target or two different targets read
      the same once joined. */
  lemma ReportIsExact(planned: seq<Planned>)
    ensures Reported(planned) <==> Colliding(planned) || Confusable(planned)
  {
    if Reported(planned) {
      var key :| |Group(planned, key)| >= 2;
      var i, j := GroupPair(planned, key);
      SameKeyIff(planned[i], planned[j]);
    }
    if Colliding(planned) {
      var i, j :| 0 <= i < j < |planned| && SameTarget(planned[i], planned[j]);
      GroupHolds(planned, i, j);
    }
    if Confusable(planned) {
      var i, j :| 0 <= i < |planned| && 0 <= j < |planned| && Confused(planned[i], planned[j]);
      SameKeyIff(planned[i], planned[j]);
      if i < j { GroupHolds(planned, i, j); } else { GroupHolds(planned, j, i); }
    }
  }

  /** Two rows with different providers that are reported as a collision. */
  lemma FalseReport(a: Planned, b: Planned)
    requires a.provider == "a" && a.newId == ['b', '\0', 'c'] && b.provider == ['a', '\0', 'b'] && b.newId == "c"
    ensures Reported([a, b]) && !Colliding([a, b])
  {
    var planned := [a, b];
    assert planned[0] == a && planned[1] == b;
    assert Confused(a, b);
    assert Confusable(planned);
    ReportIsExact(planned);
    assert |a.provider| != |b.provider|;
  }

  // ---------------------------------------------------------------- chains

  /** The last changing row whose current key this is. */
  function CurrentOwner(planned: seq<Planned>, provider: string, accountId: string): Option<string> {
    if planned == [] then None
    else
      var last := planned[|planned| - 1];
      if last.Changes() && last.provider == provider && last.oldId == accountId then Some(last.id)
      else CurrentOwner(planned[..|planned| - 1], provider, accountId)
  }

  predicate TakesOver(planned: seq<Planned>, item: Planned) {
    && item.Changes()
    && CurrentOwner(planned, item.provider, item.newId).Some?
    && CurrentOwner(planned, item.provider, item.newId).value != item.id
  }

  method ChainedRewrite(planned: seq<Planned>) returns (chained: bool)
    ensures chained <==> exists i | 0 <= i < |planned| :: TakesOver(planned, planned[i])
  {
    var current: map<(string, string), string> := map[];
    var i := 0;
    while i < |planned|
      invariant 0 <= i <= |planned|
      invariant forall p, a :: CurrentOwner(planned[..i], p, a) == if (p, a) in current then Some(current[(p, a)]) else None
    {
      assert planned[..i + 1][..i] == planned[..i];
      if planned[i].Changes() {
        current := current[(planned[i].provider, planned[i].oldId) := planned[i].id];
      }
      i := i + 1;
    }
    assert planned[..i] == planned;
    for k := 0 to |planned|
      invariant forall j | 0 <= j < k :: !TakesOver(planned, planned[j])
    {
      var item := planned[k];
      var key := (item.provider, item.newId);
      if item.Changes() && key in current && current[key] != item.id {
        assert TakesOver(planned, planned[k]);
        return true;
      }
    }
    return false;
  }

  predicate MovesOnto(a: Planned, b: Planned) {
    a.Changes() && b.Changes() && a.provider == b.provider && a.newId == b.oldId
  }

  predicate Chained(planned: seq<Planned>) {
    exists i, j | 0 <= i < |planned| && 0 <= j < |planned| :: MovesOnto(planned[i], planned[j])
  }

  lemma {:induction false} OwnerFound(planned: seq<Planned>, provider: string, accountId: string) returns (j: int)
    ensures match CurrentOwner(planned, provider, accountId)
            case None => forall k | 0 <= k < |planned| :: !(planned[k].Changes() && planned[k].provider == provider && planned[k].oldId == accountId)
            case Some(id) => 0 <= j < |planned| && planned[j].id == id && planned[j].Changes()
                             && planned[j].provider == provider && planned[j].oldId == accountId
  {
    j := 0;
    if planned != [] {
      var n := |planned| - 1;
      if planned[n].Changes() && planned[n].provider == provider && planned[n].oldId == accountId {
        j := n;
      } else {
        j := OwnerFound(planned[..n], provider, accountId);
        forall k | 0 <= k < n
          ensures planned[k] == planned[..n][k]
        {
        }
      }
    }
  }

  lemma ChainIsExact(rows: Rows, planned: seq<Planned>)
    requires PlanFor(rows, planned)
    ensures (exists i | 0 <= i < |planned| :: TakesOver(planned, planned[i])) <==> Chained(planned)
  {
    if i :| 0 <= i < |planned| && TakesOver(planned, planned[i]) {
      var j := OwnerFound(planned, planned[i].provider, planned[i].newId);
      assert MovesOnto(planned[i], planned[j]);
    }
    if Chained(planned) {
      var i, j :| 0 <= i < |planned| && 0 <= j < |planned| && MovesOnto(planned[i], planned[j]);
      var k := OwnerFound(planned, planned[i].provider, planned[i].newId);
      assert CurrentOwner(planned, planned[i].provider, planned[i].newId).Some?;
      assert k != i;
      assert TakesOver(planned, planned[i]);
    }
  }

  // ---------------------------------------------------------------- updating

  predicate Taken(rows: Rows, id: string, provider: string, accountId: string) {
    exists other | other in rows :: other != id && rows[other].provider == provider && rows[other].accountId == accountId
  }

  /** One guarded update of the loop: it may miss its row, or meet the unique key. */
  function UpdateOne(rows: Rows, item: Planned): (r: Result<Rows, Error>)
    ensures r.Failure? ==> UpdateError(r.error)
  {
    if !item.Changes() then Success(rows)
    else if item.id !in rows || rows[item.id].provider != item.provider || rows[item.id].accountId != item.oldId
    then Failure(AccountChanged)
    else if Taken(rows, item.id, item.provider, item.newId) then Failure(Conflict)
    else Success(rows[item.id := rows[item.id].(accountId := item.newId)])
  }

  function RunUpdates(rows: Rows, planned: seq<Planned>): (r: Result<Rows, Error>)
    ensures r.Failure? ==> UpdateError(r.error)
  {
    if planned == [] then Success(rows)
    else
      var next :- UpdateOne(rows, planned[0]);
      RunUpdates(next, planned[1..])
  }

  /** What the plan asks for, stated row by row. */
  ghost predicate Follows(before: Rows, planned: seq<Planned>, k: nat, rows: Rows)
    requires k <= |planned|
  {
    && rows.Keys == before.Keys
    && forall i | 0 <= i < |planned| :: planned[i].id in rows
         && rows[planned[i].id] == Account(planned[i].userId, planned[i].provider,
                                           if i < k then planned[i].newId else planned[i].oldId)
  }

  /** Half way through an accepted plan the key is still unique. */
  lemma IntermediateUnique(before: Rows, planned: seq<Planned>, k: nat, rows: Rows)
    requires UniqueKeys(before) && PlanFor(before, planned) && k <= |planned| && Follows(before, planned, k, rows)
    requires !Colliding(planned) && !Chained(planned)
    ensures UniqueKeys(rows)
  {
    forall a, b | a in rows && b in rows && rows[a].provider == rows[b].provider && rows[a].accountId == rows[b].accountId
      ensures a == b
    {
      assert Lists(planned, a) && Lists(planned, b);
      var i :| 0 <= i < |planned| && planned[i].id == a;
      var j :| 0 <= j < |planned| && planned[j].id == b;
      assert Describes(before, planned[i]) && Describes(before, planned[j]);
      if i < j { NoClash(before, planned, i, j, k); }
      if j < i { NoClash(before, planned, j, i, k); }
    }
  }

  function KeyAt(planned: seq<Planned>, i: nat, k: nat): string
    requires i < |planned|
  {
    if i < k then planned[i].newId else planned[i].oldId
  }

  lemma NoClash(before: Rows, planned: seq<Planned>, i: nat, j: nat, k: nat)
    requires UniqueKeys(before) && PlanFor(before, planned) && i < j < |planned|
    requires !Colliding(planned) && !Chained(planned)
    ensures planned[i].provider != planned[j].provider || KeyAt(planned, i, k) != KeyAt(planned, j, k)
  {
    assert !SameTarget(planned[i], planned[j]);
    assert !MovesOnto(planned[i], planned[j]);
    assert Describes(before, planned[i]) && Describes(before, planned[j]);
  }

  /** The next update of an accepted plan neither misses its row nor meets the key. */
  lemma UpdateSucceeds(before: Rows, planned: seq<Planned>, k: nat, rows: Rows)
    requires UniqueKeys(before) && PlanFor(before, planned) && k < |planned| && Follows(before, planned, k, rows)
    requires !Colliding(planned) && !Chained(planned)
    ensures UpdateOne(rows, planned[k]).Success?
    ensures Follows(before, planned, k + 1, UpdateOne(rows, planned[k]).value)
  {
    NotTaken(before, planned, k, rows);
    assert Follows(before, planned, k + 1, UpdateOne(rows, planned[k]).value);
  }

  lemma NotTaken(before: Rows, planned: seq<Planned>, k: nat, rows: Rows)
    requires UniqueKeys(before) && PlanFor(before, planned) && k < |planned| && Follows(before, planned, k, rows)
    requires !Colliding(planned) && !Chained(planned)
    ensures planned[k].Changes() ==> !Taken(rows, planned[k].id, planned[k].provider, planned[k].newId)
  {
    var item := planned[k];
    forall other | other in rows && other != item.id
      ensures rows[other].provider != item.provider || rows[other].accountId != item.newId || !item.Changes()
    {
      assert Lists(planned, other);
      var i :| 0 <= i < |planned| && planned[i].id == other;
      if i < k { NoClash(before, planned, i, k, k + 1); } else { NoClash(before, planned, k, i, k + 1); }
    }
  }

  lemma {:induction false} AcceptedRuns(before: Rows, planned: seq<Planned>, k: nat, rows: Rows)
    requires UniqueKeys(before) && PlanFor(before, planned) && k <= |planned| && Follows(before, planned, k, rows)
    requires !Colliding(planned) && !Chained(planned)
    ensures RunUpdates(rows, planned[k..]).Success?
    ensures Follows(before, planned, |planned|, RunUpdates(rows, planned[k..]).value)
    decreases |planned| - k
  {
    if k < |planned| {
      UpdateSucceeds(before, planned, k, rows);
      assert planned[k..][0] == planned[k] && planned[k..][1..] == planned[k + 1..];
      AcceptedRuns(before, planned, k + 1, UpdateOne(rows, planned[k]).value);
    }
  }

  // ---------------------------------------------------------------- the migration

  datatype Report = Report(scanned: nat, updated: nat, collisions: map<string, seq<Planned>>)

  function ChangesIn(planned: seq<Planned>): nat {
    if planned == [] then 0
    else ChangesIn(planned[..|planned| - 1]) + if planned[|planned| - 1].Changes() then 1 else 0
  }

  class AccountTable {
    var rows: Rows

    /** The update loop, inside its transaction. */
    method ApplyPlan(planned: seq<Planned>) returns (error: Option<Error>, updated: nat)
      modifies this
      ensures error.None? ==> RunUpdates(old(rows), planned) == Success(rows) && updated == ChangesIn(planned)
      ensures error.Some? ==> RunUpdates(old(rows), planned) == Failure(error.value)
    {
      updated := 0;
      var k := 0;
      assert planned[0..] == planned;
      while k < |planned|
        invariant 0 <= k <= |planned|
        invariant RunUpdates(old(rows), planned) == RunUpdates(rows, planned[k..])
        invariant updated == ChangesIn(planned[..k])
      {
        assert planned[k..][0] == planned[k] && planned[k..][1..] == planned[k + 1..];
        assert planned[..k + 1][..k] == planned[..k];
        var next := UpdateOne(rows, planned[k]);
        if next.Failure? {
          return Some(next.error), 0;
        }
        rows := next.value;
        updated := updated + if planned[k].Changes() then 1 else 0;
        k := k + 1;
      }
      assert planned[..k] == planned;
      return None, updated;
    }

    /** The whole migration. On any error nothing has changed; on success every row follows
        the plan. The update loop itself never fails. */
    method RewriteAccountIds(order: seq<string>, resolve: Resolver, maxAccounts: int, dryRun: bool)
      returns (report: Report, error: Option<Error>, ghost planned: seq<Planned>)
      requires UniqueKeys(rows) && Sorts(order, rows)
      modifies this
      ensures error.Some? ==> rows == old(rows) && report.updated == 0
      ensures error.Some? ==> !UpdateError(error.value)
      ensures error.None? <==> Rewritable(old(rows), resolve, maxAccounts)
      ensures error.None? && !dryRun ==> rows.Keys == old(rows).Keys && AllPlannable(old(rows), resolve)
      ensures error.None? && !dryRun ==> forall id | id in old(rows) :: rows[id] == Wanted(old(rows), resolve, id)
      ensures error.None? && !dryRun ==> report.updated == |Differing(old(rows), rows)|
      ensures error == Some(CollisionsFound) ==> SharesTarget(old(rows), resolve) && GroupsWithTwo(planned, report.collisions)
      ensures error == Some(ChainFound) ==> FormsChain(old(rows), resolve)
      ensures error.None? ==> Accepted(old(rows), planned) && report.scanned == |rows|
      ensures error.None? && dryRun ==> rows == old(rows) && report.updated == 0
      ensures error.None? && !dryRun ==>
                Follows(old(rows), planned, |planned|, rows) && UniqueKeys(rows) && report.updated == ChangesIn(planned)
      ensures error == Some(ChainFound) ==> PlanFor(old(rows), planned) && Chained(planned)
      ensures error == Some(CollisionsFound) ==> PlanFor(old(rows), planned) && (Colliding(planned) || Confusable(planned))
    {
      var plan;
      report, error, plan := PlanRewrite(rows, order, resolve, maxAccounts);
      planned := plan;
      if error.Some? || dryRun {
        return;
      }
      ghost var snapshot := rows;
      var updated;
      error, updated := ApplyPlan(plan);
      assert plan[0..] == plan;
      AcceptedRuns(snapshot, plan, 0, snapshot);
      // The loop reports no error: an accepted plan runs to its end.
      RunReaches(snapshot, plan, 0, snapshot);
      FollowsKeys(snapshot, plan, rows);
      FollowsResolver(snapshot, resolve, plan, rows);
      report := report.(updated := updated);
    }
  }

  ghost predicate Accepted(rows: Rows, planned: seq<Planned>) {
    PlanFor(rows, planned) && !Colliding(planned) && !Chained(planned)
  }

  // ---------------------------------------------------------------- in terms of the resolver

  /** Two rows would have the same provider and id once the two are joined with NUL. */
  ghost predicate SharesTarget(rows: Rows, resolve: Resolver) {
    AllPlannable(rows, resolve) && exists i, j | i in rows && j in rows :: SameJoined(rows, resolve, i, j)
  }

  predicate SameJoined(rows: Rows, resolve: Resolver, i: string, j: string)
    requires i in rows && j in rows && resolve(i, rows[i]).Some? && resolve(j, rows[j]).Some?
  {
    i != j && JoinedKey(rows, resolve, i) == JoinedKey(rows, resolve, j)
  }

  function JoinedKey(rows: Rows, resolve: Resolver, id: string): string
    requires id in rows && resolve(id, rows[id]).Some?
  {
    rows[id].provider + ['\0'] + Wanted(rows, resolve, id).accountId
  }

  /** A row that moves takes the current key of a row that moves. */
  ghost predicate FormsChain(rows: Rows, resolve: Resolver) {
    AllPlannable(rows, resolve) && exists i, j | i in rows && j in rows :: TakesKeyOf(rows, resolve, i, j)
  }

  predicate TakesKeyOf(rows: Rows, resolve: Resolver, i: string, j: string)
    requires i in rows && j in rows && resolve(i, rows[i]).Some? && resolve(j, rows[j]).Some?
  {
    && Wanted(rows, resolve, i) != rows[i] && Wanted(rows, resolve, j) != rows[j]
    && rows[i].provider == rows[j].provider && Wanted(rows, resolve, i).accountId == rows[j].accountId
  }

  predicate WithinLimit(count: nat, maxAccounts: int) {
    var limit := if maxAccounts == 0 then 100_000 else maxAccounts;
    1 <= limit <= 1_000_000 && count <= limit
  }

  /** When the migration goes through. */
  ghost predicate Rewritable(rows: Rows, resolve: Resolver, maxAccounts: int) {
    WithinLimit(|rows|, maxAccounts) && AllPlannable(rows, resolve) && !SharesTarget(rows, resolve) && !FormsChain(rows, resolve)
  }

  lemma NotRewritable(rows: Rows, resolve: Resolver, maxAccounts: int)
    ensures !WithinLimit(|rows|, maxAccounts) || !AllPlannable(rows, resolve) ==> !Rewritable(rows, resolve, maxAccounts)
  {
  }

  lemma RewritableIff(rows: Rows, resolve: Resolver, planned: seq<Planned>, maxAccounts: int)
    requires WithinLimit(|rows|, maxAccounts) && AllPlannable(rows, resolve)
    requires PlanFor(rows, planned) && AsResolved(rows, resolve, planned)
    ensures Rewritable(rows, resolve, maxAccounts) <==> !Colliding(planned) && !Confusable(planned) && !Chained(planned)
    ensures Colliding(planned) || Confusable(planned) <==> SharesTarget(rows, resolve)
    ensures Chained(planned) <==> FormsChain(rows, resolve)
  {
    ResolvedIff(rows, resolve, planned);
  }

  lemma PlannedAt(rows: Rows, planned: seq<Planned>, id: string) returns (i: nat)
    requires PlanFor(rows, planned) && id in rows
    ensures i < |planned| && planned[i].id == id && Describes(rows, planned[i])
  {
    assert Lists(planned, id);
    i :| 0 <= i < |planned| && planned[i].id == id;
  }

  /** The checks on the plan are checks on what the resolver wants. */
  lemma ResolvedIff(rows: Rows, resolve: Resolver, planned: seq<Planned>)
    requires PlanFor(rows, planned) && AllPlannable(rows, resolve) && AsResolved(rows, resolve, planned)
    ensures Colliding(planned) || Confusable(planned) <==> SharesTarget(rows, resolve)
    ensures Chained(planned) <==> FormsChain(rows, resolve)
  {
    ResolvedShares(rows, resolve, planned);
    ResolvedChain(rows, resolve, planned);
  }

  lemma ResolvedItem(rows: Rows, resolve: Resolver, planned: seq<Planned>, i: nat)
    requires PlanFor(rows, planned) && AsResolved(rows, resolve, planned) && i < |planned|
    ensures planned[i].id in rows && resolve(planned[i].id, rows[planned[i].id]).Some?
    ensures GroupKey(planned[i]) == JoinedKey(rows, resolve, planned[i].id)
    ensures rows[planned[i].id] == Account(planned[i].userId, planned[i].provider, planned[i].oldId)
    ensures planned[i].Changes() <==> Wanted(rows, resolve, planned[i].id) != rows[planned[i].id]
  {
    assert Describes(rows, planned[i]);
  }

  lemma ResolvedShares(rows: Rows, resolve: Resolver, planned: seq<Planned>)
    requires PlanFor(rows, planned) && AllPlannable(rows, resolve) && AsResolved(rows, resolve, planned)
    ensures Colliding(planned) || Confusable(planned) <==> SharesTarget(rows, resolve)
  {
    ReportIsExact(planned);
    if Reported(planned) {
      ReportedShares(rows, resolve, planned);
    }
    if SharesTarget(rows, resolve) {
      var a, b :| a in rows && b in rows && SameJoined(rows, resolve, a, b);
      SharedIsReported(rows, resolve, planned, a, b);
    }
  }

  lemma ReportedShares(rows: Rows, resolve: Resolver, planned: seq<Planned>)
    requires PlanFor(rows, planned) && AllPlannable(rows, resolve) && AsResolved(rows, resolve, planned) && Reported(planned)
    ensures SharesTarget(rows, resolve)
  {
    var key :| |Group(planned, key)| >= 2;
    var i, j := GroupPair(planned, key);
    ResolvedItem(rows, resolve, planned, i);
    ResolvedItem(rows, resolve, planned, j);
    assert SameJoined(rows, resolve, planned[i].id, planned[j].id);
  }

  lemma SharedIsReported(rows: Rows, resolve: Resolver, planned: seq<Planned>, a: string, b: string)
    requires PlanFor(rows, planned) && AllPlannable(rows, resolve) && AsResolved(rows, resolve, planned)
    requires a in rows && b in rows && SameJoined(rows, resolve, a, b)
    ensures Reported(planned)
  {
    var i := PlannedAt(rows, planned, a);
    var j := PlannedAt(rows, planned, b);
    ResolvedItem(rows, resolve, planned, i);
    ResolvedItem(rows, resolve, planned, j);
    if i < j { GroupHolds(planned, i, j); } else { GroupHolds(planned, j, i); }
  }

  lemma ResolvedChain(rows: Rows, resolve: Resolver, planned: seq<Planned>)
    requires PlanFor(rows, planned) && AllPlannable(rows, resolve) && AsResolved(rows, resolve, planned)
    ensures Chained(planned) <==> FormsChain(rows, resolve)
  {
    if Chained(planned) {
      var i, j :| 0 <= i < |planned| && 0 <= j < |planned| && MovesOnto(planned[i], planned[j]);
      ResolvedItem(rows, resolve, planned, i);
      ResolvedItem(rows, resolve, planned, j);
      assert TakesKeyOf(rows, resolve, planned[i].id, planned[j].id);
    }
    if FormsChain(rows, resolve) {
      var a, b :| a in rows && b in rows && TakesKeyOf(rows, resolve, a, b);
      var i := PlannedAt(rows, planned, a);
      var j := PlannedAt(rows, planned, b);
      ResolvedItem(rows, resolve, planned, i);
      ResolvedItem(rows, resolve, planned, j);
      assert MovesOnto(planned[i], planned[j]);
    }
  }

  /** The rows in which two tables differ. */
  function Differing(before: Rows, after: Rows): set<string> {
    set id | id in before && id in after && before[id] != after[id]
  }

  lemma FollowsResolver(before: Rows, resolve: Resolver, planned: seq<Planned>, rows: Rows)
    requires PlanFor(before, planned) && AllPlannable(before, resolve) && AsResolved(before, resolve, planned)
    requires Follows(before, planned, |planned|, rows)
    ensures forall id | id in before :: rows[id] == Wanted(before, resolve, id)
    ensures ChangesIn(planned) == |Differing(before, rows)|
  {
    forall id | id in before
      ensures rows[id] == Wanted(before, resolve, id)
    {
      var i := PlannedAt(before, planned, id);
      ResolvedItem(before, resolve, planned, i);
    }
    ChangesCount(planned);
    assert Changing(planned) == Differing(before, rows) by {
      forall id
        ensures id in Changing(planned) <==> id in Differing(before, rows)
      {
        if id in before {
          var i := PlannedAt(before, planned, id);
          ResolvedItem(before, resolve, planned, i);
        }
        if id in Changing(planned) {
          var i :| 0 <= i < |planned| && planned[i].Changes() && planned[i].id == id;
          ResolvedItem(before, resolve, planned, i);
        }
      }
    }
  }

  predicate ChangesId(planned: seq<Planned>, id: string) {
    exists i | 0 <= i < |planned| :: planned[i].Changes() && planned[i].id == id
  }

  function Changing(planned: seq<Planned>): (r: set<string>)
    ensures forall id :: id in r <==> ChangesId(planned, id)
  {
    set i | 0 <= i < |planned| && planned[i].Changes() :: planned[i].id
  }

  lemma ChangesMore(planned: seq<Planned>, id: string)
    requires planned != []
    ensures var n := |planned| - 1;
            ChangesId(planned, id) <==> ChangesId(planned[..n], id) || (planned[n].Changes() && planned[n].id == id)
  {
    var n := |planned| - 1;
    if ChangesId(planned[..n], id) {
      var i :| 0 <= i < n && planned[..n][i].Changes() && planned[..n][i].id == id;
      assert planned[i] == planned[..n][i];
    }
    if i :| 0 <= i < |planned| && planned[i].Changes() && planned[i].id == id && i < n {
      assert planned[..n][i] == planned[i];
    }
  }

  lemma {:induction false} ChangesCount(planned: seq<Planned>)
    requires forall i, j | 0 <= i < j < |planned| :: planned[i].id != planned[j].id
    ensures ChangesIn(planned) == |Changing(planned)|
  {
    if planned != [] {
      var n := |planned| - 1;
      ChangesCount(planned[..n]);
      forall id
        ensures id in Changing(planned) <==> id in Changing(planned[..n]) || (planned[n].Changes() && planned[n].id == id)
      {
        ChangesMore(planned, id);
      }
      assert Changing(planned) == Changing(planned[..n]) + if planned[n].Changes() then {planned[n].id} else {};
      assert planned[n].id !in Changing(planned[..n]);
    }
  }

  /** Everything that happens before the first write. */
  method PlanRewrite(rows: Rows, order: seq<string>, resolve: Resolver, maxAccounts: int)
    returns (report: Report, error: Option<Error>, planned: seq<Planned>)
    requires Sorts(order, rows)
    ensures report.updated == 0
    ensures error.None? ==> Accepted(rows, planned) && report.scanned == |rows|
    ensures error.None? ==> AllPlannable(rows, resolve) && AsResolved(rows, resolve, planned)
    ensures error.None? <==> Rewritable(rows, resolve, maxAccounts)
    ensures error == Some(CollisionsFound) ==> SharesTarget(rows, resolve) && GroupsWithTwo(planned, report.collisions)
    ensures error == Some(ChainFound) ==> FormsChain(rows, resolve)
    ensures error.Some? ==> !UpdateError(error.value)
    ensures error == Some(ChainFound) ==> PlanFor(rows, planned) && Chained(planned)
    ensures error == Some(CollisionsFound) ==> PlanFor(rows, planned) && (Colliding(planned) || Confusable(planned))
  {
    planned := [];
    report := Report(0, 0, map[]);
    NotRewritable(rows, resolve, maxAccounts);
    var listed := ListAll(rows, order, resolve, maxAccounts);
    if listed.Failure? {
      return report, Some(listed.error), planned;
    }
    planned := listed.value;
    RewritableIff(rows, resolve, planned, maxAccounts);
    var collisions;
    collisions, error := CheckPlan(rows, planned);
    report := Report(|planned|, 0, collisions);
  }

  /** The limit on the number of accounts, and the plan of all of them. */
  method ListAll(rows: Rows, order: seq<string>, resolve: Resolver, maxAccounts: int) returns (result: Result<seq<Planned>, Error>)
    requires Sorts(order, rows)
    ensures result.Success? <==> WithinLimit(|rows|, maxAccounts) && AllPlannable(rows, resolve)
    ensures result.Success? ==> PlanFor(rows, result.value) && AsResolved(rows, resolve, result.value) && |result.value| == |rows|
    ensures result.Failure? ==> result.error.OutOfBounds? || PlanningError(result.error)
  {
    var limit := if maxAccounts == 0 then 100_000 else maxAccounts;
    if limit < 1 || limit > 1_000_000 {
      return Failure(OutOfBounds);
    }
    SortedCount(order, rows);
    result := PlanAll(rows, order, resolve, limit);
  }

  /** The two checks on a plan: no shared targets, no swaps or chains. */
  method CheckPlan(rows: Rows, planned: seq<Planned>)
    returns (collisions: map<string, seq<Planned>>, error: Option<Error>)
    requires PlanFor(rows, planned)
    ensures error.None? <==> !Colliding(planned) && !Confusable(planned) && !Chained(planned)
    ensures GroupsWithTwo(planned, collisions)
    ensures error.Some? ==> error.value.ChainFound? || error.value.CollisionsFound?
    ensures error == Some(ChainFound) ==> Chained(planned)
    ensures error == Some(CollisionsFound) <==> Colliding(planned) || Confusable(planned)
  {
    collisions := Collisions(planned);
    ReportIsExact(planned);
    if collisions != map[] {
      var key :| key in collisions;
      assert |Group(planned, key)| >= 2;
      return collisions, Some(CollisionsFound);
    }
    assert forall key :: key !in collisions;
    var chained := ChainedRewrite(planned);
    ChainIsExact(rows, planned);
    return collisions, if chained then Some(ChainFound) else None;
  }

  lemma FollowsKeys(before: Rows, planned: seq<Planned>, rows: Rows)
    requires Follows(before, planned, |planned|, rows)
    ensures |rows| == |before|
  {
  }

  lemma SortedCount(order: seq<string>, rows: Rows)
    requires Sorts(order, rows)
    ensures |rows| == |order|
  {
    DistinctCount(order);
    var ids := set id | id in order;
    assert rows.Keys == ids by {
      forall id
        ensures id in rows.Keys <==> id in ids
      {
        assert id in rows <==> id in order;
      }
    }
  }

  lemma {:induction false} DistinctCount(order: seq<string>)
    requires forall i, j | 0 <= i < j < |order| :: order[i] != order[j]
    ensures |set id | id in order| == |order|
  {
    if order != [] {
      var n := |order| - 1;
      DistinctCount(order[..n]);
      assert order == order[..n] + [order[n]];
      assert (set id | id in order) == (set id | id in order[..n]) + {order[n]};
      assert order[n] !in order[..n];
    }
  }

  // ---------------------------------------------------------------- when a plan is accepted

  ghost predicate EveryOrderRuns(rows: Rows, planned: seq<Planned>) {
    forall order | multiset(order) == multiset(planned) :: RunUpdates(rows, order).Success?
  }

  /** The plans without shared targets and chains are exactly those that run without a conflict in
      every order. */
  lemma AcceptedIffEveryOrderRuns(rows: Rows, planned: seq<Planned>)
    requires UniqueKeys(rows) && PlanFor(rows, planned)
    ensures !Colliding(planned) && !Chained(planned) <==> EveryOrderRuns(rows, planned)
  {
    if Chained(planned) {
      ChainFails(rows, planned);
    } else if Colliding(planned) {
      CollisionFails(rows, planned);
    } else {
      forall order | multiset(order) == multiset(planned)
        ensures RunUpdates(rows, order).Success?
      {
        ReorderPlan(rows, planned, order);
        AcceptedRuns(rows, order, 0, rows);
        assert order[0..] == order;
      }
    }
  }

  /** With the moving row first, its update meets the row it moves onto. */
  lemma ChainFails(rows: Rows, planned: seq<Planned>)
    requires PlanFor(rows, planned) && Chained(planned)
    ensures !EveryOrderRuns(rows, planned)
  {
    var i, j :| 0 <= i < |planned| && 0 <= j < |planned| && MovesOnto(planned[i], planned[j]);
    var order := MovedFirst(planned, i);
    MoverMeets(rows, planned, i, j);
    assert RunUpdates(rows, order).Failure?;
  }

  lemma MovedFirst(planned: seq<Planned>, i: nat) returns (order: seq<Planned>)
    requires i < |planned|
    ensures multiset(order) == multiset(planned) && order != [] && order[0] == planned[i]
  {
    order := [planned[i]] + planned[..i] + planned[i + 1..];
    assert planned == planned[..i] + [planned[i]] + planned[i + 1..];
  }

  lemma MoverMeets(rows: Rows, planned: seq<Planned>, i: nat, j: nat)
    requires PlanFor(rows, planned) && i < |planned| && j < |planned| && MovesOnto(planned[i], planned[j])
    ensures UpdateOne(rows, planned[i]).Failure?
  {
    assert Describes(rows, planned[i]) && Describes(rows, planned[j]);
    assert i != j;
    assert Taken(rows, planned[i].id, planned[i].provider, planned[i].newId);
  }

  /** No order carries out a plan in which two rows share a target. */
  lemma CollisionFails(rows: Rows, planned: seq<Planned>)
    requires UniqueKeys(rows) && PlanFor(rows, planned) && Colliding(planned)
    ensures !EveryOrderRuns(rows, planned)
  {
    assert planned[0..] == planned;
    if RunUpdates(rows, planned).Success? {
      RunReaches(rows, planned, 0, rows);
      FollowedIsDistinct(rows, planned, RunUpdates(rows, planned).value);
    }
  }

  lemma FollowedIsDistinct(before: Rows, planned: seq<Planned>, last: Rows)
    requires PlanFor(before, planned) && Follows(before, planned, |planned|, last) && UniqueKeys(last)
    ensures !Colliding(planned)
  {
    forall i, j | 0 <= i < j < |planned|
      ensures !SameTarget(planned[i], planned[j])
    {
      assert planned[i].id in last && planned[j].id in last;
    }
  }

  /** Any run that succeeds ends with the plan carried out and the key unique. */
  lemma {:induction false} RunReaches(before: Rows, planned: seq<Planned>, k: nat, rows: Rows)
    requires PlanFor(before, planned) && k <= |planned| && Follows(before, planned, k, rows) && UniqueKeys(rows)
    requires RunUpdates(rows, planned[k..]).Success?
    ensures var last := RunUpdates(rows, planned[k..]).value;
            UniqueKeys(last) && Follows(before, planned, |planned|, last)
    decreases |planned| - k
  {
    if k < |planned| {
      assert planned[k..][0] == planned[k] && planned[k..][1..] == planned[k + 1..];
      var next := UpdateOne(rows, planned[k]).value;
      assert UniqueKeys(next);
      assert Follows(before, planned, k + 1, next);
      RunReaches(before, planned, k + 1, next);
    }
  }

  lemma ReorderPlan(rows: Rows, planned: seq<Planned>, order: seq<Planned>)
    requires multiset(order) == multiset(planned) && PlanFor(rows, planned)
    ensures PlanFor(rows, order)
    ensures Colliding(order) ==> Colliding(planned)
    ensures Chained(order) ==> Chained(planned)
  {
    SameItems(planned, order);
    DistinctItems(planned);
    forall i, j | 0 <= i < j < |order|
      ensures order[i].id != order[j].id
      ensures SameTarget(order[i], order[j]) ==> Colliding(planned)
    {
      assert order[i] in planned && order[j] in planned;
      var p :| 0 <= p < |planned| && planned[p] == order[i];
      var q :| 0 <= q < |planned| && planned[q] == order[j];
      if p == q { TwiceInOrder(order, i, j); }
      if SameTarget(order[i], order[j]) {
        if p < q { assert SameTarget(planned[p], planned[q]); } else { assert SameTarget(planned[q], planned[p]); }
      }
    }
    forall i | 0 <= i < |order|
      ensures Describes(rows, order[i])
    {
      assert order[i] in planned;
    }
    forall id | id in rows
      ensures Lists(order, id)
    {
      assert Lists(planned, id);
      var p :| 0 <= p < |planned| && planned[p].id == id;
      assert planned[p] in order;
    }
    if Chained(order) {
      var i, j :| 0 <= i < |order| && 0 <= j < |order| && MovesOnto(order[i], order[j]);
      assert order[i] in planned && order[j] in planned;
    }
  }

  lemma SameItems(planned: seq<Planned>, order: seq<Planned>)
    requires multiset(order) == multiset(planned)
    ensures forall x :: x in order <==> x in planned
  {
    forall x
      ensures x in order <==> x in planned
    {
      assert x in order <==> x in multiset(order);
      assert x in planned <==> x in multiset(planned);
    }
  }

  lemma {:induction false} DistinctItems(planned: seq<Planned>)
    requires forall i, j | 0 <= i < j < |planned| :: planned[i].id != planned[j].id
    ensures forall x :: multiset(planned)[x] <= 1
  {
    if planned != [] {
      assert planned == [planned[0]] + planned[1..];
      DistinctItems(planned[1..]);
      assert planned[0] !in planned[1..];
    }
  }

  lemma TwiceInOrder(order: seq<Planned>, i: nat, j: nat)
    requires i < j < |order| && order[i] == order[j]
    ensures multiset(order)[order[i]] >= 2
  {
    assert order == order[..i] + [order[i]] + order[i + 1..j] + [order[j]] + order[j + 1..];
  }
}
