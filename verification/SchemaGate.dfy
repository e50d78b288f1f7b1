/**
 The single-flight schema gate as a state machine. Each step is one atomic action of one
 caller: a locked section, an atomic load, a channel close, or the return of the check.
 */
module SchemaGate {
  import opened Wrappers

  type Caller = nat
  type CallId = nat

  datatype Verdict = Clean | Failed(reason: string)

  /** One schemaCall: who leads it, the verdict once run has returned, whether the leader's
      own context had ended by then, and whether the done channel is closed. */
  datatype Call = Call(leader: Caller, verdict: Option<Verdict>, canceled: bool, closed: bool)

  /** Where a returned verdict came from. */
  datatype Source = FromClean | FromOwnCheck(call: CallId) | FromShared(call: CallId) | FromOwnContext

  datatype Position =
    | Entering
    | Locking
    | Running(call: CallId)
    | Publishing(call: CallId)
    | Closing(call: CallId)
    | Waiting(call: CallId)
    | Returned(verdict: Verdict, source: Source)

  datatype Gate = Gate(
    clean: bool,
    pending: Option<CallId>,
    calls: seq<Call>,
    callers: map<Caller, Position>,
    ended: set<Caller>)  // callers whose context is done

  const Initial := Gate(false, None, [], map[], {})

  datatype Step =
    | Arrive(caller: Caller)
    | EndContext(caller: Caller)
    | ReadClean(caller: Caller)
    | Lock(caller: Caller)
    | Finish(caller: Caller, verdict: Verdict)
    | Publish(caller: Caller)
    | Close(caller: Caller)
    | Wake(caller: Caller)
    | GiveUp(caller: Caller)

  predicate At(g: Gate, c: Caller, position: Position) {
    c in g.callers && g.callers[c] == position
  }

  function Move(g: Gate, c: Caller, position: Position): Gate {
    g.(callers := g.callers[c := position])
  }

  function SetCall(g: Gate, k: CallId, call: Call): Gate
    requires k < |g.calls|
  {
    g.(calls := g.calls[k := call])
  }

  /** The state after a step, or None when the step cannot be taken. */
  function Next(g: Gate, step: Step): Option<Gate> {
    match step
    case Arrive(c) =>
      if c in g.callers then None else Some(Move(g, c, Entering))
    case EndContext(c) =>
      if c in g.callers && c !in g.ended then Some(g.(ended := g.ended + {c})) else None
    case ReadClean(c) =>
      if !At(g, c, Entering) then None
      else Some(Move(g, c, if g.clean then Returned(Clean, FromClean) else Locking))
    case Lock(c) =>
      if !At(g, c, Locking) then None
      else if g.clean then Some(Move(g, c, Returned(Clean, FromClean)))
      else if g.pending.Some? then Some(Move(g, c, Waiting(g.pending.value)))
      else
        var k := |g.calls|;
        Some(Move(g.(calls := g.calls + [Call(c, None, false, false)], pending := Some(k)), c, Running(k)))
    case Finish(c, verdict) =>
      if c !in g.callers || !g.callers[c].Running? || g.callers[c].call >= |g.calls| then None
      else
        var k := g.callers[c].call;
        var finished := g.calls[k].(verdict := Some(verdict), canceled := verdict.Failed? && c in g.ended);
        Some(Move(SetCall(g, k, finished), c, Publishing(k)))
    case Publish(c) =>
      if c !in g.callers || !g.callers[c].Publishing? || g.callers[c].call >= |g.calls| then None
      else
        var k := g.callers[c].call;
        Some(Move(g.(clean := g.clean || g.calls[k].verdict == Some(Clean), pending := None), c, Closing(k)))
    case Close(c) =>
      if c !in g.callers || !g.callers[c].Closing? || g.callers[c].call >= |g.calls|
        || g.calls[g.callers[c].call].verdict.None? then None
      else
        var k := g.callers[c].call;
        Some(Move(SetCall(g, k, g.calls[k].(closed := true)), c,
                  Returned(g.calls[k].verdict.value, FromOwnCheck(k))))
    case Wake(c) =>
      if c !in g.callers || !g.callers[c].Waiting? || g.callers[c].call >= |g.calls| then None
      else
        var k := g.callers[c].call;
        var call := g.calls[k];
        if !call.closed || call.verdict.None? then None
        else Some(Move(g, c, if call.canceled then Entering else Returned(call.verdict.value, FromShared(k))))
    case GiveUp(c) =>
      if c in g.callers && g.callers[c].Waiting? && c in g.ended
      then Some(Move(g, c, Returned(Failed("context"), FromOwnContext))) else None
  }

  // ---------------------------------------------------------------- the invariant

  predicate InCheck(p: Position, k: CallId) {
    p == Running(k) || p == Publishing(k)
  }

  /** The leader has work left on this call. */
  predicate ActiveLeader(g: Gate, k: CallId)
    requires k < |g.calls|
  {
    var leader := g.calls[k].leader;
    leader in g.callers && (InCheck(g.callers[leader], k) || g.callers[leader] == Closing(k))
  }

  predicate PositionAgrees(g: Gate, c: Caller)
    requires c in g.callers
  {
    match g.callers[c]
    case Entering => true
    case Locking => true
    case Running(k) => k < |g.calls| && g.pending == Some(k) && g.calls[k] == Call(c, None, false, false)
    case Publishing(k) =>
      k < |g.calls| && g.pending == Some(k) && g.calls[k].leader == c && g.calls[k].verdict.Some? && !g.calls[k].closed
    case Closing(k) => k < |g.calls| && g.calls[k].leader == c && g.calls[k].verdict.Some? && !g.calls[k].closed && g.pending != Some(k)
    case Waiting(k) => k < |g.calls|
    case Returned(verdict, source) =>
      && (verdict.Clean? ==> g.clean)
      && (match source
          case FromClean => verdict.Clean?
          case FromOwnCheck(k) => k < |g.calls| && g.calls[k].leader == c && g.calls[k].closed && g.calls[k].verdict == Some(verdict)
          case FromShared(k) =>
            k < |g.calls| && g.calls[k].closed && !g.calls[k].canceled && g.calls[k].verdict == Some(verdict)
          case FromOwnContext => c in g.ended && verdict.Failed?)
  }

  predicate CallAgrees(g: Gate, k: CallId)
    requires k < |g.calls|
  {
    && (!g.calls[k].closed ==> ActiveLeader(g, k))
    && (g.calls[k].closed ==> g.calls[k].verdict.Some?)
    && (g.calls[k].canceled ==> g.calls[k].verdict.Some? && g.calls[k].verdict.value.Failed?)
    && (g.calls[k].verdict == Some(Clean) && g.pending != Some(k) ==> g.clean)
  }

  predicate PendingAgrees(g: Gate) {
    g.pending.Some? ==>
      var k := g.pending.value;
      && !g.clean && k < |g.calls| && !g.calls[k].closed
      && g.calls[k].leader in g.callers && InCheck(g.callers[g.calls[k].leader], k)
  }

  ghost predicate Inv(g: Gate) {
    && (forall c | c in g.callers :: PositionAgrees(g, c))
    && (forall k | 0 <= k < |g.calls| :: CallAgrees(g, k))
    && PendingAgrees(g)
    && (g.clean ==> exists k | 0 <= k < |g.calls| :: g.calls[k].verdict == Some(Clean))
  }

  lemma StepKeepsInv(g: Gate, step: Step)
    requires Inv(g) && Next(g, step).Some?
    ensures Inv(Next(g, step).value)
  {
    var h := Next(g, step).value;
    forall c | c in h.callers
      ensures PositionAgrees(h, c)
    {
      PositionKept(g, step, c);
    }
    forall k | 0 <= k < |h.calls|
      ensures CallAgrees(h, k)
    {
      CallKept(g, step, k);
    }
    PendingKept(g, step);
    if h.clean { CleanHasReason(g, step); }
  }

  lemma PositionKept(g: Gate, step: Step, c: Caller)
    requires Inv(g) && Next(g, step).Some? && c in Next(g, step).value.callers
    ensures PositionAgrees(Next(g, step).value, c)
  {
    var h := Next(g, step).value;
    CallsSurvive(g, step);
    if c in g.callers {
      assert PositionAgrees(g, c);
      if step.Publish? || step.Finish? || step.Close? { assert PositionAgrees(g, step.caller); }
      if c == step.caller && (step.Close? || step.Wake?) { assert CallAgrees(g, g.callers[c].call); }
    }
  }

  lemma CallKept(g: Gate, step: Step, k: CallId)
    requires Inv(g) && Next(g, step).Some? && k < |Next(g, step).value.calls|
    ensures CallAgrees(Next(g, step).value, k)
  {
    CallsSurvive(g, step);
    if k < |g.calls| {
      assert CallAgrees(g, k);
      if step.caller in g.callers { assert PositionAgrees(g, step.caller); }
    }
  }

  lemma PendingKept(g: Gate, step: Step)
    requires Inv(g) && Next(g, step).Some?
    ensures PendingAgrees(Next(g, step).value)
  {
    var h := Next(g, step).value;
    if h.pending.Some? {
      CallsSurvive(g, step);
      if step.caller in g.callers { assert PositionAgrees(g, step.caller); }
      if g.pending.Some? { assert PositionAgrees(g, g.calls[g.pending.value].leader); }
    }
  }

  lemma CleanHasReason(g: Gate, step: Step)
    requires Inv(g) && Next(g, step).Some? && Next(g, step).value.clean
    ensures exists k | 0 <= k < |Next(g, step).value.calls| :: Next(g, step).value.calls[k].verdict == Some(Clean)
  {
    var h := Next(g, step).value;
    CallsSurvive(g, step);
    if g.clean {
      var k :| 0 <= k < |g.calls| && g.calls[k].verdict == Some(Clean);
      assert h.calls[k].verdict == Some(Clean);
    } else {
      assert PositionAgrees(g, step.caller);
      assert h.calls[g.callers[step.caller].call].verdict == Some(Clean);
    }
  }

  /** Calls are only added, keep their leader, and once they have a verdict keep it. */
  lemma CallsSurvive(g: Gate, step: Step)
    requires Inv(g) && Next(g, step).Some?
    ensures var h := Next(g, step).value;
            && |g.calls| <= |h.calls|
            && forall k | 0 <= k < |g.calls| ::
                 && h.calls[k].leader == g.calls[k].leader
                 && (g.calls[k].verdict.Some? ==> h.calls[k].verdict == g.calls[k].verdict && h.calls[k].canceled == g.calls[k].canceled)
                 && (g.calls[k].closed ==> h.calls[k].closed)
  {
    if step.Finish? { assert PositionAgrees(g, step.caller); }
  }

  // ---------------------------------------------------------------- runs

  /** A run: every state follows from the one before by a step. */
  ghost predicate Run(states: seq<Gate>, steps: seq<Step>) {
    && |states| == |steps| + 1
    && states[0] == Initial
    && forall i | 0 <= i < |steps| :: Next(states[i], steps[i]) == Some(states[i + 1])
  }

  lemma {:induction false} RunKeepsInv(states: seq<Gate>, steps: seq<Step>, i: nat)
    requires Run(states, steps) && i < |states|
    ensures Inv(states[i])
  {
    if i > 0 {
      RunKeepsInv(states, steps, i - 1);
      assert Next(states[i - 1], steps[i - 1]) == Some(states[i - 1 + 1]);
      StepKeepsInv(states[i - 1], steps[i - 1]);
    }
  }

  /** At most one check runs at any time. */
  lemma SingleFlight(states: seq<Gate>, steps: seq<Step>, i: nat, a: Caller, b: Caller)
    requires Run(states, steps) && i < |states|
    requires a in states[i].callers && states[i].callers[a].Running?
    requires b in states[i].callers && states[i].callers[b].Running?
    ensures a == b
  {
    RunKeepsInv(states, steps, i);
    assert PositionAgrees(states[i], a) && PositionAgrees(states[i], b);
  }

  predicate NobodyChecks(g: Gate) {
    forall c | c in g.callers.Keys :: !g.callers[c].Running?
  }

  /** clean is set only by publishing a clean verdict of a finished check, and is never
      cleared; once it is set no check is running and none starts. */
  lemma CleanIsFinal(states: seq<Gate>, steps: seq<Step>, i: nat)
    requires Run(states, steps) && i < |steps|
    ensures states[i].clean ==>
              && states[i + 1].clean
              && NobodyChecks(states[i + 1])
    ensures !states[i].clean && states[i + 1].clean ==>
              exists c, k: nat :: k < |states[i].calls| && steps[i] == Publish(c) && At(states[i], c, Publishing(k))
                             && states[i].calls[k].verdict == Some(Clean)
  {
    var g, h := states[i], states[i + 1];
    RunKeepsInv(states, steps, i);
    RunKeepsInv(states, steps, i + 1);
    if g.clean {
      forall c | c in h.callers
        ensures !h.callers[c].Running?
      {
        assert PositionAgrees(h, c);
      }
      assert NobodyChecks(h);
    } else if h.clean {
      var c := steps[i].caller;
      assert PositionAgrees(g, c);
      var k := g.callers[c].call;
      assert At(g, c, Publishing(k)) && g.calls[k].verdict == Some(Clean);
    }
  }

  /** What a returned verdict means: nil implies a clean schema; a follower's verdict comes
      from a closed call whose leader was not canceled. */
  lemma ReturnedVerdict(states: seq<Gate>, steps: seq<Step>, i: nat, c: Caller)
    requires Run(states, steps) && i < |states|
    requires c in states[i].callers && states[i].callers[c].Returned?
    ensures states[i].callers[c].verdict.Clean? ==> states[i].clean
    ensures match states[i].callers[c].source
            case FromShared(k) =>
              k < |states[i].calls| && states[i].calls[k].closed && !states[i].calls[k].canceled
              && states[i].calls[k].verdict == Some(states[i].callers[c].verdict)
            case FromOwnContext => c in states[i].ended
            case FromOwnCheck(k) => k < |states[i].calls| && states[i].calls[k].leader == c
            case FromClean => states[i].clean
  {
    RunKeepsInv(states, steps, i);
    assert PositionAgrees(states[i], c);
  }

  /** A waiting follower's call is closed or still has an active leader. */
  lemma NoLostWakeup(states: seq<Gate>, steps: seq<Step>, i: nat, c: Caller)
    requires Run(states, steps) && i < |states|
    requires c in states[i].callers && states[i].callers[c].Waiting?
    ensures var k := states[i].callers[c].call;
            k < |states[i].calls| && (states[i].calls[k].closed || ActiveLeader(states[i], k))
  {
    RunKeepsInv(states, steps, i);
    assert PositionAgrees(states[i], c);
    assert CallAgrees(states[i], states[i].callers[c].call);
  }

  // ---------------------------------------------------------------- progress

  /** The step that the caller can take next, once the check it runs (if any) returns. */
  function OwnStep(c: Caller, p: Position, verdict: Verdict): Step {
    match p
    case Entering => ReadClean(c)
    case Locking => Lock(c)
    case Running(_) => Finish(c, verdict)
    case Publishing(_) => Publish(c)
    case Closing(_) => Close(c)
    case Waiting(_) => Wake(c)
    case Returned(_, _) => GiveUp(c)
  }

  /** No deadlock: while some caller has not returned, some such caller can step. */
  lemma SomeoneCanStep(g: Gate, c: Caller, verdict: Verdict) returns (d: Caller)
    requires Inv(g) && c in g.callers && !g.callers[c].Returned?
    ensures d in g.callers && !g.callers[d].Returned?
    ensures Next(g, OwnStep(d, g.callers[d], verdict)).Some?
  {
    d := c;
    assert PositionAgrees(g, c);
    if g.callers[c].Waiting? {
      var k := g.callers[c].call;
      assert CallAgrees(g, k);
      if !g.calls[k].closed {
        d := g.calls[k].leader;
        assert PositionAgrees(g, d);
      }
    }
  }

  function Rank(g: Gate, p: Position): nat {
    match p
    case Waiting(k) => if k < |g.calls| && g.calls[k].closed then 6 else 3
    case Entering => 5
    case Locking => 4
    case Running(_) => 3
    case Publishing(_) => 2
    case Closing(_) => 1
    case Returned(_, _) => 0
  }

  ghost function Unreturned(g: Gate): set<Caller> {
    set c | c in g.callers && !g.callers[c].Returned?
  }

  ghost function RankSum(g: Gate, callers: set<Caller>): nat
    requires callers <= g.callers.Keys
  {
    if callers == {} then 0
    else var c :| c in callers; Rank(g, g.callers[c]) + RankSum(g, callers - {c})
  }

  lemma {:induction false} RankSumSplit(g: Gate, callers: set<Caller>, c: Caller)
    requires callers <= g.callers.Keys && c in callers
    ensures RankSum(g, callers) == Rank(g, g.callers[c]) + RankSum(g, callers - {c})
  {
    var d :| d in callers && RankSum(g, callers) == Rank(g, g.callers[d]) + RankSum(g, callers - {d});
    if d != c {
      RankSumSplit(g, callers - {d}, c);
      RankSumSplit(g, callers - {c}, d);
      assert callers - {d} - {c} == callers - {c} - {d};
    }
  }

  lemma {:induction false} RankSumSame(g: Gate, h: Gate, callers: set<Caller>)
    requires callers <= g.callers.Keys && callers <= h.callers.Keys
    requires forall c | c in callers :: Rank(g, g.callers[c]) == Rank(h, h.callers[c])
    ensures RankSum(g, callers) == RankSum(h, callers)
  {
    if callers != {} {
      var c :| c in callers;
      RankSumSplit(g, callers, c);
      RankSumSplit(h, callers, c);
      RankSumSame(g, h, callers - {c});
    }
  }

  /** Every step other than an arrival or the end of a context makes progress: either one
      more caller has returned, or none has and the ranks go down. With no deadlock this
      means that all callers return once arrivals stop and every check returns. */
  lemma StepsMakeProgress(g: Gate, step: Step)
    requires Inv(g) && Next(g, step).Some? && !step.Arrive? && !step.EndContext?
    ensures var h := Next(g, step).value;
            || Unreturned(h) < Unreturned(g)
            || (Unreturned(h) == Unreturned(g) && RankSum(h, h.callers.Keys) < RankSum(g, g.callers.Keys))
  {
    var h, c := Next(g, step).value, step.caller;
    assert PositionAgrees(g, c);
    assert h.callers.Keys == g.callers.Keys;
    if h.callers[c].Returned? {
      assert c in Unreturned(g) && c !in Unreturned(h);
    } else {
      RanksGoDown(g, step);
    }
  }

  lemma RanksGoDown(g: Gate, step: Step)
    requires Inv(g) && Next(g, step).Some? && !step.Arrive? && !step.EndContext?
    requires Next(g, step).value.callers.Keys == g.callers.Keys && !Next(g, step).value.callers[step.caller].Returned?
    ensures RankSum(Next(g, step).value, g.callers.Keys) < RankSum(g, g.callers.Keys)
  {
    var h, c := Next(g, step).value, step.caller;
    var others := g.callers.Keys - {c};
    OwnRankGoesDown(g, step);
    RankSumSplit(g, g.callers.Keys, c);
    RankSumSplit(h, h.callers.Keys, c);
    forall d | d in others
      ensures Rank(g, g.callers[d]) == Rank(h, h.callers[d])
    {
      OtherRankStays(g, step, d);
    }
    RankSumSame(g, h, others);
  }

  lemma OwnRankGoesDown(g: Gate, step: Step)
    requires Inv(g) && Next(g, step).Some? && !step.Arrive? && !step.EndContext?
    requires Next(g, step).value.callers.Keys == g.callers.Keys && !Next(g, step).value.callers[step.caller].Returned?
    ensures step.caller in g.callers
    ensures Rank(Next(g, step).value, Next(g, step).value.callers[step.caller]) < Rank(g, g.callers[step.caller])
  {
    assert PositionAgrees(g, step.caller);
  }

  lemma OtherRankStays(g: Gate, step: Step, d: Caller)
    requires Inv(g) && Next(g, step).Some? && !step.Arrive? && !step.EndContext? && d in g.callers && d != step.caller
    requires Next(g, step).value.callers.Keys == g.callers.Keys && !Next(g, step).value.callers[step.caller].Returned?
    ensures Rank(g, g.callers[d]) == Rank(Next(g, step).value, Next(g, step).value.callers[d])
  {
    assert PositionAgrees(g, d) && PositionAgrees(g, step.caller);
  }

  // ---------------------------------------------------------------- where verdicts come from

  /** The check of call k returned its verdict in this step, to its leader; `canceled` tells whether
      it failed under a leader whose context had ended. */
  predicate Checked(g: Gate, step: Step, call: Call, k: CallId) {
    && step.Finish? && step.caller == call.leader && Some(step.verdict) == call.verdict
    && At(g, call.leader, Running(k))
    && (call.canceled <==> step.verdict.Failed? && call.leader in g.ended)
  }

  /** Every verdict is that of one check which a leader ran. */
  lemma {:induction false} VerdictHasCheck(states: seq<Gate>, steps: seq<Step>, i: nat, k: CallId)
    requires Run(states, steps) && i < |states| && k < |states[i].calls| && states[i].calls[k].verdict.Some?
    ensures exists j | 0 <= j < i :: Checked(states[j], steps[j], states[i].calls[k], k)
  {
    RunKeepsInv(states, steps, i);
    if i > 0 {
      RunKeepsInv(states, steps, i - 1);
      var g, step := states[i - 1], steps[i - 1];
      CallsSurvive(g, step);
      if k < |g.calls| && g.calls[k].verdict.Some? {
        VerdictHasCheck(states, steps, i - 1, k);
        var j :| 0 <= j < i - 1 && Checked(states[j], steps[j], g.calls[k], k);
        assert Checked(states[j], steps[j], states[i].calls[k], k);
      } else {
        FirstVerdict(g, step, k);
      }
    }
  }

  lemma FirstVerdict(g: Gate, step: Step, k: CallId)
    requires Inv(g) && Next(g, step).Some? && k < |Next(g, step).value.calls|
    requires Next(g, step).value.calls[k].verdict.Some? && (k >= |g.calls| || g.calls[k].verdict.None?)
    ensures Checked(g, step, Next(g, step).value.calls[k], k)
  {
    if step.Finish? { assert PositionAgrees(g, step.caller); }
  }

  /** What a caller is told was found by a check: its own, or one whose leader was still waiting
      for it when it failed. */
  lemma VerdictsAreChecked(states: seq<Gate>, steps: seq<Step>, i: nat, c: Caller)
    requires Run(states, steps) && i < |states|
    requires c in states[i].callers && states[i].callers[c].Returned?
    requires states[i].callers[c].source.FromShared? || states[i].callers[c].source.FromOwnCheck?
    ensures var verdict, k := states[i].callers[c].verdict, states[i].callers[c].source.call;
            exists j | 0 <= j < i ::
              && steps[j].Finish? && steps[j].verdict == verdict && At(states[j], steps[j].caller, Running(k))
              && (states[i].callers[c].source.FromOwnCheck? ==> steps[j].caller == c)
              && (states[i].callers[c].source.FromShared? && verdict.Failed? ==> steps[j].caller !in states[j].ended)
  {
    RunKeepsInv(states, steps, i);
    assert PositionAgrees(states[i], c);
    var k := states[i].callers[c].source.call;
    VerdictHasCheck(states, steps, i, k);
    var j :| 0 <= j < i && Checked(states[j], steps[j], states[i].calls[k], k);
    assert steps[j].verdict == states[i].callers[c].verdict;
  }

  /** And no caller whose context goes on is told that it ended. */
  lemma OnlyEndedGiveUp(states: seq<Gate>, steps: seq<Step>, i: nat, c: Caller)
    requires Run(states, steps) && i < |states|
    requires c in states[i].callers && states[i].callers[c].Returned? && states[i].callers[c].source.FromOwnContext?
    ensures c in states[i].ended && states[i].callers[c].verdict.Failed?
  {
    RunKeepsInv(states, steps, i);
    assert PositionAgrees(states[i], c);
  }
}
