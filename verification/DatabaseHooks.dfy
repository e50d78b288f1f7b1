/**
 The layer that runs database hooks around every mutation. Inside a transaction the after
 hooks are put on a queue shared by all nested adapters, and run once the outermost
 transaction has committed.
 */
module DatabaseHooks {
  import opened Wrappers

  datatype Operation = Create | Update | UpdateMany | Delete | DeleteMany | ConsumeOne | IncrementOne

  /** What a hook sees: the mutation and its payload (predicate, data, increment, result). */
  datatype HookState<P> = HookState(operation: Operation, model: string, payload: P)

  /** One registration; handlers are looked up by its position in the list of hooks. */
  datatype Registration = Registration(model: string, operations: seq<Operation>, hasBefore: bool, hasAfter: bool) {
    predicate Matches<P>(state: HookState<P>) {
      (model == "*" || model == state.model) && (operations == [] || state.operation in operations)
    }
  }

  /** A handler call either fails or returns the payload that later hooks see. */
  type Handler<!P> = (nat, HookState<P>) -> Option<P>

  datatype Effect<P> = Effect(hook: nat, state: HookState<P>)

  /** What a transaction callback does with its adapter: mutations, each with the store's
      answer (None is an error), and nested transactions. */
  datatype Event<P> =
    | Mutate(state: HookState<P>, answer: Option<P>)
    | Nested(body: seq<Event<P>>)

  // ---------------------------------------------------------------- specification

  function BeforeFrom<P>(hooks: seq<Registration>, handler: Handler<P>, state: HookState<P>, i: nat): Option<HookState<P>>
    requires i <= |hooks|
    decreases |hooks| - i
  {
    if i == |hooks| then Some(state)
    else if !hooks[i].hasBefore || !hooks[i].Matches(state) then BeforeFrom(hooks, handler, state, i + 1)
    else
      match handler(i, state)
      case None => None
      case Some(payload) => BeforeFrom(hooks, handler, state.(payload := payload), i + 1)
  }

  /** The state a mutation leaves for its after hooks, or None when it did not succeed. */
  function Applied<P>(hooks: seq<Registration>, before: Handler<P>, state: HookState<P>, answer: Option<P>): Option<HookState<P>> {
    match BeforeFrom(hooks, before, state, 0)
    case None => None
    case Some(prepared) => if answer.None? then None else Some(prepared.(payload := answer.value))
  }

  /** The successful mutations of a callback in the order they happen, nested ones included. */
  function Mutations<P>(hooks: seq<Registration>, before: Handler<P>, events: seq<Event<P>>): seq<HookState<P>> {
    if events == [] then []
    else
      (match events[0]
       case Mutate(state, answer) =>
         (match Applied(hooks, before, state, answer)
          case None => []
          case Some(done) => [done])
       case Nested(body) => Mutations(hooks, before, body))
      + Mutations(hooks, before, events[1..])
  }

  /** The effects one mutation queues from the i-th registration on. */
  function EffectsFrom<P>(hooks: seq<Registration>, done: HookState<P>, i: nat): seq<Effect<P>>
    requires i <= |hooks|
    decreases |hooks| - i
  {
    if i == |hooks| then []
    else (if hooks[i].hasAfter && hooks[i].Matches(done) then [Effect(i, done)] else []) + EffectsFrom(hooks, done, i + 1)
  }

  function AllEffects<P>(hooks: seq<Registration>, mutations: seq<HookState<P>>): seq<Effect<P>> {
    if mutations == [] then []
    else EffectsFrom(hooks, mutations[0], 0) + AllEffects(hooks, mutations[1..])
  }

  /** The calls made for a list of effects: all of them up to and including the first that fails. */
  function Called<P>(after: Handler<P>, effects: seq<Effect<P>>): seq<Effect<P>> {
    if effects == [] then []
    else if after(effects[0].hook, effects[0].state).None? then [effects[0]]
    else [effects[0]] + Called(after, effects[1..])
  }

  /** The calls made at once from the i-th registration on: each handler sees what the one before
      left, and the first failure ends them. */
  function CallsFrom<P>(hooks: seq<Registration>, after: Handler<P>, state: HookState<P>, i: nat): seq<Effect<P>>
    requires i <= |hooks|
    decreases |hooks| - i
  {
    if i == |hooks| then []
    else if !hooks[i].hasAfter || !hooks[i].Matches(state) then CallsFrom(hooks, after, state, i + 1)
    else
      match after(i, state)
      case None => [Effect(i, state)]
      case Some(payload) => [Effect(i, state)] + CallsFrom(hooks, after, state.(payload := payload), i + 1)
  }

  predicate Fails<P>(after: Handler<P>, call: Effect<P>) {
    after(call.hook, call.state).None?
  }

  predicate NoneFails<P>(after: Handler<P>, calls: seq<Effect<P>>) {
    forall i | 0 <= i < |calls| :: !Fails(after, calls[i])
  }

  lemma FirstCall<P>(hooks: seq<Registration>, after: Handler<P>, state: HookState<P>, i: nat)
    requires i < |hooks| && hooks[i].hasAfter && hooks[i].Matches(state)
    ensures var calls, payload := CallsFrom(hooks, after, state, i), after(i, state);
            if payload.None? then calls == [Effect(i, state)] && !NoneFails(after, calls)
            else
              var rest := CallsFrom(hooks, after, state.(payload := payload.value), i + 1);
              calls == [Effect(i, state)] + rest && NoneFails(after, calls) == NoneFails(after, rest)
  {
    var calls, payload := CallsFrom(hooks, after, state, i), after(i, state);
    assert calls[0] == Effect(i, state);
    if payload.Some? {
      var rest := CallsFrom(hooks, after, state.(payload := payload.value), i + 1);
      assert forall k | 0 <= k < |rest| :: rest[k] == calls[k + 1];
    }
  }

  // ---------------------------------------------------------------- the adapter

  class Queue<P> {
    var effects: seq<Effect<P>>

    constructor ()
      ensures effects == []
    {
      effects := [];
    }
  }

  /** Records every call of an after handler. */
  class CallLog<P> {
    var calls: seq<Effect<P>>
  }

  class HookedAdapter<P> {
    const hooks: seq<Registration>
    const before: Handler<P>
    const after: Handler<P>
    const log: CallLog<P>
    const deferred: Queue?<P>

    constructor (hooks: seq<Registration>, before: Handler<P>, after: Handler<P>, log: CallLog<P>, deferred: Queue?<P>)
      ensures this.hooks == hooks && this.before == before && this.after == after
      ensures this.log == log && this.deferred == deferred
    {
      this.hooks, this.before, this.after, this.log, this.deferred := hooks, before, after, log, deferred;
    }

    method Before(state: HookState<P>) returns (prepared: Option<HookState<P>>)
      ensures prepared == BeforeFrom(hooks, before, state, 0)
    {
      var current, i := state, 0;
      while i < |hooks|
        invariant 0 <= i <= |hooks|
        invariant BeforeFrom(hooks, before, state, 0) == BeforeFrom(hooks, before, current, i)
      {
        if hooks[i].hasBefore && hooks[i].Matches(current) {
          var payload := before(i, current);
          if payload.None? {
            return None;
          }
          current := current.(payload := payload.value);
        }
        i := i + 1;
      }
      return Some(current);
    }

    /** Inside a transaction: queue the effects of one mutation, each with its own copy. */
    method Defer(done: HookState<P>)
      requires deferred != null
      modifies deferred
      ensures deferred.effects == old(deferred.effects) + EffectsFrom(hooks, done, 0)
    {
      var i := 0;
      while i < |hooks|
        invariant 0 <= i <= |hooks|
        invariant old(deferred.effects) + EffectsFrom(hooks, done, 0) == deferred.effects + EffectsFrom(hooks, done, i)
      {
        if hooks[i].hasAfter && hooks[i].Matches(done) {
          deferred.effects := deferred.effects + [Effect(i, done)];
        }
        i := i + 1;
      }
    }

    /** Outside a transaction: call the handlers at once, each seeing what the last one left. */
    method CallNow(done: HookState<P>) returns (ok: bool)
      modifies log
      ensures log.calls == old(log.calls) + CallsFrom(hooks, after, done, 0)
      ensures ok == NoneFails(after, CallsFrom(hooks, after, done, 0))
    {
      var state, i := done, 0;
      while i < |hooks|
        invariant 0 <= i <= |hooks|
        invariant old(log.calls) + CallsFrom(hooks, after, done, 0) == log.calls + CallsFrom(hooks, after, state, i)
        invariant NoneFails(after, CallsFrom(hooks, after, done, 0)) == NoneFails(after, CallsFrom(hooks, after, state, i))
      {
        if hooks[i].hasAfter && hooks[i].Matches(state) {
          FirstCall(hooks, after, state, i);
          log.calls := log.calls + [Effect(i, state)];
          var payload := after(i, state);
          if payload.None? {
            return false;
          }
          state := state.(payload := payload.value);
        }
        i := i + 1;
      }
      return true;
    }

    method MutateInside(state: HookState<P>, answer: Option<P>) returns (ok: bool)
      requires deferred != null
      modifies deferred
      ensures ok == Applied(hooks, before, state, answer).Some?
      ensures deferred.effects == old(deferred.effects)
                + AllEffects(hooks, Mutations(hooks, before, [Mutate(state, answer)]))
    {
      var prepared := Before(state);
      ok := prepared.Some? && answer.Some?;
      assert [Mutate(state, answer)][1..] == [];
      if ok {
        var done := prepared.value.(payload := answer.value);
        assert Mutations(hooks, before, [Mutate(state, answer)]) == [done];
        assert [done][1..] == [];
        assert AllEffects(hooks, [done]) == EffectsFrom(hooks, done, 0);
        Defer(done);
      }
    }

    /** A callback running inside a transaction; a nested transaction shares the queue. */
    method RunInside(events: seq<Event<P>>)
      requires deferred != null
      modifies deferred
      ensures deferred.effects == old(deferred.effects) + AllEffects(hooks, Mutations(hooks, before, events))
      decreases events
    {
      var i := 0;
      while i < |events|
        invariant 0 <= i <= |events|
        invariant deferred.effects == old(deferred.effects) + AllEffects(hooks, Mutations(hooks, before, events[..i]))
      {
        match events[i] {
          case Mutate(state, answer) =>
            var ok := MutateInside(state, answer);
          case Nested(body) =>
            var transaction := new HookedAdapter(hooks, before, after, log, deferred);
            transaction.RunInside(body);
            NestedIsFlat(hooks, before, body);
        }
        MutationsAppend(hooks, before, events[..i], [events[i]]);
        AllEffectsAppend(hooks, Mutations(hooks, before, events[..i]), Mutations(hooks, before, [events[i]]));
        assert events[..i + 1] == events[..i] + [events[i]];
        i := i + 1;
      }
      assert events[..i] == events;
    }

    /** The outermost transaction. When the callback fails or the commit fails, nothing was
        committed and no after hook runs; otherwise the queued effects run up to the first
        failure, which cannot undo the commit. */
    method Transaction(events: seq<Event<P>>, commits: bool) returns (ok: bool)
      requires deferred == null
      modifies log
      ensures !commits ==> !ok && log.calls == old(log.calls)
      ensures commits ==>
                var effects := AllEffects(hooks, Mutations(hooks, before, events));
                && log.calls == old(log.calls) + Called(after, effects)
                && (ok <==> forall e | e in effects :: after(e.hook, e.state).Some?)
    {
      var queue := new Queue<P>();
      var transaction := new HookedAdapter(hooks, before, after, log, queue);
      transaction.RunInside(events);
      assert queue.effects == AllEffects(hooks, Mutations(hooks, before, events));
      if !commits {
        return false;
      }
      ok := RunEffects(queue.effects);
    }

    method RunEffects(effects: seq<Effect<P>>) returns (ok: bool)
      modifies log
      ensures log.calls == old(log.calls) + Called(after, effects)
      ensures ok <==> forall e | e in effects :: after(e.hook, e.state).Some?
    {
      var i := 0;
      assert effects[0..] == effects;
      while i < |effects|
        invariant 0 <= i <= |effects|
        invariant forall e | e in effects[..i] :: after(e.hook, e.state).Some?
        invariant log.calls + Called(after, effects[i..]) == old(log.calls) + Called(after, effects)
      {
        var effect := effects[i];
        assert effects[i..][1..] == effects[i + 1..];
        assert effects[..i + 1] == effects[..i] + [effect];
        ghost var calls := log.calls;
        log.calls := log.calls + [effect];
        var payload := after(effect.hook, effect.state);
        if payload.None? {
          assert Called(after, effects[i..]) == [effect];
          return false;
        }
        assert Called(after, effects[i..]) == [effect] + Called(after, effects[i + 1..]);
        assert calls + ([effect] + Called(after, effects[i + 1..])) == log.calls + Called(after, effects[i + 1..]);
        i := i + 1;
      }
      assert effects[..i] == effects && effects[i..] == [];
      return true;
    }
  }

  lemma NestedIsFlat<P>(hooks: seq<Registration>, before: Handler<P>, body: seq<Event<P>>)
    ensures Mutations(hooks, before, [Nested(body)]) == Mutations(hooks, before, body)
  {
    assert [Nested(body)][1..] == [];
  }

  lemma {:induction false} MutationsAppend<P>(hooks: seq<Registration>, before: Handler<P>, a: seq<Event<P>>, b: seq<Event<P>>)
    ensures Mutations(hooks, before, a + b) == Mutations(hooks, before, a) + Mutations(hooks, before, b)
  {
    if a == [] {
      assert a + b == b;
    } else {
      assert (a + b)[1..] == a[1..] + b;
      MutationsAppend(hooks, before, a[1..], b);
    }
  }

  lemma {:induction false} AllEffectsAppend<P>(hooks: seq<Registration>, a: seq<HookState<P>>, b: seq<HookState<P>>)
    ensures AllEffects(hooks, a + b) == AllEffects(hooks, a) + AllEffects(hooks, b)
  {
    if a == [] {
      assert a + b == b;
    } else {
      assert (a + b)[1..] == a[1..] + b;
      AllEffectsAppend(hooks, a[1..], b);
    }
  }

  // ---------------------------------------------------------------- exactly once, in order

  /** The (mutation, hook) pairs that the effects stand for. */
  function PairsFrom<P>(hooks: seq<Registration>, done: HookState<P>, m: nat, i: nat): seq<(nat, nat)>
    requires i <= |hooks|
    decreases |hooks| - i
  {
    if i == |hooks| then []
    else (if hooks[i].hasAfter && hooks[i].Matches(done) then [(m, i)] else []) + PairsFrom(hooks, done, m, i + 1)
  }

  function AllPairs<P>(hooks: seq<Registration>, mutations: seq<HookState<P>>, m: nat): seq<(nat, nat)>
    requires m <= |mutations|
    decreases |mutations| - m
  {
    if m == |mutations| then []
    else PairsFrom(hooks, mutations[m], m, 0) + AllPairs(hooks, mutations, m + 1)
  }

  predicate Before2(p: (nat, nat), q: (nat, nat)) {
    p.0 < q.0 || (p.0 == q.0 && p.1 < q.1)
  }

  predicate Increasing(pairs: seq<(nat, nat)>) {
    forall i, j | 0 <= i < j < |pairs| :: Before2(pairs[i], pairs[j])
  }

  ghost predicate Due<P>(hooks: seq<Registration>, mutations: seq<HookState<P>>, pair: (nat, nat)) {
    && pair.0 < |mutations| && pair.1 < |hooks|
    && hooks[pair.1].hasAfter && hooks[pair.1].Matches(mutations[pair.0])
  }

  lemma {:induction false} PairsFromExact<P>(hooks: seq<Registration>, done: HookState<P>, m: nat, i: nat)
    requires i <= |hooks|
    ensures var pairs, effects := PairsFrom(hooks, done, m, i), EffectsFrom(hooks, done, i);
            && |pairs| == |effects| && Increasing(pairs)
            && (forall p | 0 <= p < |pairs| :: effects[p] == Effect(pairs[p].1, done))
            && (forall pair :: pair in pairs <==>
                  pair.0 == m && i <= pair.1 < |hooks| && hooks[pair.1].hasAfter && hooks[pair.1].Matches(done))
    decreases |hooks| - i
  {
    if i < |hooks| {
      PairsFromExact(hooks, done, m, i + 1);
      var tail := PairsFrom(hooks, done, m, i + 1);
      forall q | 0 <= q < |tail|
        ensures tail[q].0 == m && tail[q].1 > i
      {
        assert tail[q] in tail;
      }
    }
  }

  lemma {:induction false} AllPairsExact<P>(hooks: seq<Registration>, mutations: seq<HookState<P>>, m: nat)
    requires m <= |mutations|
    ensures var pairs, effects := AllPairs(hooks, mutations, m), AllEffects(hooks, mutations[m..]);
            && |pairs| == |effects| && Increasing(pairs)
            && (forall p | 0 <= p < |pairs| ::
                  pairs[p].0 < |mutations| && effects[p] == Effect(pairs[p].1, mutations[pairs[p].0]))
            && (forall pair :: pair in pairs <==> pair.0 >= m && Due(hooks, mutations, pair))
    decreases |mutations| - m
  {
    if m < |mutations| {
      assert mutations[m..][1..] == mutations[m + 1..];
      PairsFromExact(hooks, mutations[m], m, 0);
      AllPairsExact(hooks, mutations, m + 1);
      PairsJoin(PairsFrom(hooks, mutations[m], m, 0), AllPairs(hooks, mutations, m + 1), m);
    }
  }

  lemma PairsJoin(head: seq<(nat, nat)>, tail: seq<(nat, nat)>, m: nat)
    requires Increasing(head) && Increasing(tail)
    requires forall p | p in head :: p.0 == m
    requires forall p | p in tail :: p.0 > m
    ensures Increasing(head + tail)
  {
    var all := head + tail;
    forall i, j | 0 <= i < j < |all|
      ensures Before2(all[i], all[j])
    {
      if i < |head| <= j {
        assert all[i] in head && all[j] in tail;
      }
    }
  }

  /** The queue of a committed transaction holds each matching after hook exactly once per
      successful mutation, ordered by mutation and then by registration. */
  lemma EffectsExactlyOnce<P>(hooks: seq<Registration>, before: Handler<P>, events: seq<Event<P>>) returns (pairs: seq<(nat, nat)>)
    ensures var mutations := Mutations(hooks, before, events);
            var effects := AllEffects(hooks, mutations);
            && |pairs| == |effects| && Increasing(pairs)
            && (forall p | 0 <= p < |pairs| ::
                  pairs[p].0 < |mutations| && effects[p] == Effect(pairs[p].1, mutations[pairs[p].0]))
            && (forall pair :: pair in pairs <==> Due(hooks, mutations, pair))
  {
    var mutations := Mutations(hooks, before, events);
    pairs := AllPairs(hooks, mutations, 0);
    AllPairsExact(hooks, mutations, 0);
    assert mutations[0..] == mutations;
  }

  predicate DueAt<P>(hooks: seq<Registration>, state: HookState<P>, h: nat)
    requires h < |hooks|
  {
    hooks[h].hasAfter && hooks[h].Matches(state)
  }

  predicate InOrder<P>(calls: seq<Effect<P>>) {
    forall a, b | 0 <= a < b < |calls| :: calls[a].hook < calls[b].hook
  }

  predicate OnlyDue<P>(hooks: seq<Registration>, state: HookState<P>, calls: seq<Effect<P>>, i: nat) {
    forall a | 0 <= a < |calls| :: i <= calls[a].hook < |hooks| && DueAt(hooks, state, calls[a].hook)
  }

  predicate OnlyLastFails<P>(after: Handler<P>, calls: seq<Effect<P>>) {
    forall a | 0 <= a < |calls| - 1 :: !Fails(after, calls[a])
  }

  predicate WasCalled<P>(calls: seq<Effect<P>>, h: nat) {
    exists a | 0 <= a < |calls| :: calls[a].hook == h
  }

  /** No matching hook is passed over: all are called when none fails, else all up to the last. */
  predicate NoneSkipped<P>(hooks: seq<Registration>, after: Handler<P>, state: HookState<P>, calls: seq<Effect<P>>, i: nat) {
    forall h {:trigger WasCalled(calls, h)} | i <= h < |hooks| && DueAt(hooks, state, h) && Reached(after, calls, h) :: WasCalled(calls, h)
  }

  predicate Reached<P>(after: Handler<P>, calls: seq<Effect<P>>, h: nat) {
    NoneFails(after, calls) || (calls != [] && h <= calls[|calls| - 1].hook)
  }

  /** Calls made at once are in registration order, each hook at most once and only matching ones.
      Only the last can have failed, every matching hook up to it was called, and all of them
      when none failed. */
  lemma {:induction false} CallsOnceInOrder<P>(hooks: seq<Registration>, after: Handler<P>, state: HookState<P>, i: nat)
    requires i <= |hooks|
    ensures var calls := CallsFrom(hooks, after, state, i);
            && InOrder(calls) && OnlyDue(hooks, state, calls, i) && OnlyLastFails(after, calls)
            && NoneSkipped(hooks, after, state, calls, i)
    decreases |hooks| - i
  {
    if i < |hooks| {
      var calls, payload := CallsFrom(hooks, after, state, i), after(i, state);
      if !DueAt(hooks, state, i) {
        CallsOnceInOrder(hooks, after, state, i + 1);
        SkippedOne(hooks, after, state, calls, i);
      } else {
        FirstCall(hooks, after, state, i);
        if payload.Some? {
          var next := state.(payload := payload.value);
          CallsOnceInOrder(hooks, after, next, i + 1);
          SameDue(hooks, after, state, next, CallsFrom(hooks, after, next, i + 1), i + 1);
          CalledFirst(hooks, after, state, CallsFrom(hooks, after, next, i + 1), i);
        } else {
          assert calls[0].hook == i;
        }
      }
    }
  }

  lemma SkippedOne<P>(hooks: seq<Registration>, after: Handler<P>, state: HookState<P>, calls: seq<Effect<P>>, i: nat)
    requires i < |hooks| && !DueAt(hooks, state, i)
    requires OnlyDue(hooks, state, calls, i + 1) && NoneSkipped(hooks, after, state, calls, i + 1)
    ensures OnlyDue(hooks, state, calls, i) && NoneSkipped(hooks, after, state, calls, i)
  {
  }

  /** A handler changes the payload only, which does not decide what matches. */
  lemma SameDue<P>(hooks: seq<Registration>, after: Handler<P>, state: HookState<P>, next: HookState<P>, calls: seq<Effect<P>>, i: nat)
    requires next == state.(payload := next.payload)
    requires OnlyDue(hooks, next, calls, i) && NoneSkipped(hooks, after, next, calls, i)
    ensures OnlyDue(hooks, state, calls, i) && NoneSkipped(hooks, after, state, calls, i)
  {
    forall h: nat | h < |hooks|
      ensures DueAt(hooks, next, h) == DueAt(hooks, state, h)
    {
    }
  }

  lemma CalledFirst<P>(hooks: seq<Registration>, after: Handler<P>, state: HookState<P>, rest: seq<Effect<P>>, i: nat)
    requires i < |hooks| && DueAt(hooks, state, i) && !Fails(after, Effect(i, state))
    requires InOrder(rest) && OnlyDue(hooks, state, rest, i + 1) && OnlyLastFails(after, rest) && NoneSkipped(hooks, after, state, rest, i + 1)
    ensures var calls := [Effect(i, state)] + rest;
            && InOrder(calls) && OnlyDue(hooks, state, calls, i) && OnlyLastFails(after, calls)
            && NoneSkipped(hooks, after, state, calls, i)
  {
    var calls := [Effect(i, state)] + rest;
    assert forall k | 1 <= k < |calls| :: calls[k] == rest[k - 1];
    forall h | i <= h < |hooks| && DueAt(hooks, state, h) && Reached(after, calls, h)
      ensures WasCalled(calls, h)
    {
      CalledLater(after, Effect(i, state), rest, h);
    }
  }

  lemma CalledLater<P>(after: Handler<P>, first: Effect<P>, rest: seq<Effect<P>>, h: nat)
    requires !Fails(after, first) && h >= first.hook && Reached(after, [first] + rest, h)
    requires h > first.hook && Reached(after, rest, h) ==> WasCalled(rest, h)
    ensures WasCalled([first] + rest, h)
  {
    var calls := [first] + rest;
    assert calls[0] == first;
    if h > first.hook {
      assert forall k | 0 <= k < |rest| :: rest[k] == calls[k + 1];
      if rest != [] { assert calls[|calls| - 1] == rest[|rest| - 1]; }
      var a :| 0 <= a < |rest| && rest[a].hook == h;
      assert calls[a + 1].hook == h;
    }
  }

  /** The calls are a prefix of the effects, and stop only after a failure. */
  lemma {:induction false} CalledIsPrefix<P>(after: Handler<P>, effects: seq<Effect<P>>)
    ensures Called(after, effects) <= effects
    ensures forall i | 0 <= i < |Called(after, effects)| - 1 :: after(effects[i].hook, effects[i].state).Some?
    ensures |Called(after, effects)| < |effects| ==>
              var last := Called(after, effects);
              last != [] && after(last[|last| - 1].hook, last[|last| - 1].state).None?
  {
    if effects != [] { CalledIsPrefix(after, effects[1..]); }
  }

  // ---------------------------------------------------------------- what handlers see

  /** A hook is for its model, or for all, and for its operations, or for all. */
  predicate IsFor<P>(r: Registration, state: HookState<P>) {
    (r.model == "*" || r.model == state.model) && (|r.operations| == 0 || state.operation in r.operations)
  }

  lemma MatchesIff<P>(r: Registration, state: HookState<P>)
    ensures r.Matches(state) <==> IsFor(r, state)
  {
  }

  /** One state for each registration passed: a before handler that is for the mutation replaces
      the payload, and the others leave it. */
  ghost predicate Threads<P>(hooks: seq<Registration>, handler: Handler<P>, trace: seq<HookState<P>>, i: nat) {
    && 1 <= |trace| && i + |trace| <= |hooks| + 1
    && forall k | 0 <= k < |trace| - 1 :: Threaded(hooks[i + k], handler, i + k, trace[k], trace[k + 1])
  }

  ghost predicate Threaded<P>(r: Registration, handler: Handler<P>, i: nat, state: HookState<P>, next: HookState<P>) {
    if r.hasBefore && IsFor(r, state) then handler(i, state).Some? && next == state.(payload := handler(i, state).value)
    else next == state
  }

  /** The before hooks run in registration order, each on what the one before left; all of them
      when none fails, and up to the first that does. */
  lemma {:induction false} BeforeThreads<P>(hooks: seq<Registration>, handler: Handler<P>, state: HookState<P>, i: nat) returns (trace: seq<HookState<P>>)
    requires i <= |hooks|
    ensures Threads(hooks, handler, trace, i) && trace[0] == state
    ensures var last, stop := trace[|trace| - 1], i + |trace| - 1;
            match BeforeFrom(hooks, handler, state, i)
            case Some(prepared) => stop == |hooks| && prepared == last
            case None => stop < |hooks| && hooks[stop].hasBefore && IsFor(hooks[stop], last) && handler(stop, last).None?
    decreases |hooks| - i
  {
    trace := [state];
    if i < |hooks| {
      MatchesIff(hooks[i], state);
      if !hooks[i].hasBefore || !hooks[i].Matches(state) {
        var rest := BeforeThreads(hooks, handler, state, i + 1);
        ThreadsMore(hooks, handler, state, rest, i);
        trace := [state] + rest;
      } else if handler(i, state).Some? {
        var rest := BeforeThreads(hooks, handler, state.(payload := handler(i, state).value), i + 1);
        ThreadsMore(hooks, handler, state, rest, i);
        trace := [state] + rest;
      }
    }
  }

  lemma ThreadsMore<P>(hooks: seq<Registration>, handler: Handler<P>, state: HookState<P>, rest: seq<HookState<P>>, i: nat)
    requires i < |hooks| && Threads(hooks, handler, rest, i + 1) && Threaded(hooks[i], handler, i, state, rest[0])
    ensures Threads(hooks, handler, [state] + rest, i)
  {
    var trace := [state] + rest;
    forall k | 0 <= k < |trace| - 1
      ensures Threaded(hooks[i + k], handler, i + k, trace[k], trace[k + 1])
    {
      if k > 0 {
        assert trace[k] == rest[k - 1] && trace[k + 1] == rest[k];
        assert Threaded(hooks[i + 1 + (k - 1)], handler, i + 1 + (k - 1), rest[k - 1], rest[k]);
      }
    }
  }

  /** A mutation counts exactly when its before hooks let it through and the store answers; its
      after hooks see the prepared mutation with the store's answer. */
  lemma CountsIff<P>(hooks: seq<Registration>, before: Handler<P>, state: HookState<P>, answer: Option<P>)
    ensures var done, prepared := Mutations(hooks, before, [Mutate(state, answer)]), BeforeFrom(hooks, before, state, 0);
            if prepared.None? || answer.None? then done == []
            else done == [HookState(prepared.value.operation, prepared.value.model, answer.value)]
  {
    assert [Mutate(state, answer)][1..] == [];
  }

  /** Of the calls made at once, the first sees the mutation and each later one what the one
      before left. */
  lemma {:induction false} CallsThread<P>(hooks: seq<Registration>, after: Handler<P>, state: HookState<P>, i: nat)
    requires i <= |hooks|
    ensures var calls := CallsFrom(hooks, after, state, i);
            && (calls != [] ==> calls[0].state == state)
            && forall a | 0 <= a < |calls| - 1 :: LeftBy(after, calls[a], calls[a + 1])
    decreases |hooks| - i
  {
    if i < |hooks| {
      if hooks[i].hasAfter && hooks[i].Matches(state) {
        FirstCall(hooks, after, state, i);
        var payload := after(i, state);
        if payload.Some? {
          var rest := CallsFrom(hooks, after, state.(payload := payload.value), i + 1);
          CallsThread(hooks, after, state.(payload := payload.value), i + 1);
          assert forall a | 0 <= a < |rest| :: ([Effect(i, state)] + rest)[a + 1] == rest[a];
        }
      } else {
        CallsThread(hooks, after, state, i + 1);
      }
    }
  }

  ghost predicate LeftBy<P>(after: Handler<P>, call: Effect<P>, next: Effect<P>) {
    after(call.hook, call.state).Some? && next.state == call.state.(payload := after(call.hook, call.state).value)
  }
}
