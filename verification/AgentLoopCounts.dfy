/** Which tool calls a run handles, how often, and what it reports about them. */
module AgentLoopCounts {
  import opened Common
  import opened AgentLoopModel

  function CallIds(calls: seq<ToolCall>): (r: seq<string>)
    ensures |r| == |calls| && forall i :: 0 <= i < |calls| ==> r[i] == calls[i].id
  {
    seq(|calls|, i requires 0 <= i < |calls| => calls[i].id)
  }

  function ResultIds(results: seq<ToolResult>): (r: seq<string>)
    ensures |r| == |results| && forall i :: 0 <= i < |results| ==> r[i] == results[i].id
  {
    seq(|results|, i requires 0 <= i < |results| => results[i].id)
  }

  /** The call ids for which `execute` was called, in order. */
  function ExecutedIds(trace: seq<Event>): (r: seq<string>) {
    if trace == [] then []
    else
      var front, e := ExecutedIds(trace[..|trace| - 1]), trace[|trace| - 1];
      if e.Executed? then front + [e.call.id] else front
  }

  lemma {:induction false} ExecutedIdsConcat(a: seq<Event>, b: seq<Event>)
    ensures ExecutedIds(a + b) == ExecutedIds(a) + ExecutedIds(b)
  {
    if b == [] {
      assert a + b == a;
    } else {
      assert (a + b)[..|a + b| - 1] == a + b[..|b| - 1];
      ExecutedIdsConcat(a, b[..|b| - 1]);
    }
  }

  lemma ExecutedIdsSnoc(a: seq<Event>, e: Event)
    ensures ExecutedIds(a + [e]) == ExecutedIds(a) + if e.Executed? then [e.call.id] else []
  {
    ExecutedIdsConcat(a, [e]);
    assert [e][..0] == [];
  }

  lemma {:induction false} NothingExecuted(trace: seq<Event>)
    requires forall e :: e in trace ==> !e.Executed?
    ensures ExecutedIds(trace) == []
  {
    if trace != [] {
      assert trace[|trace| - 1] in trace;
      NothingExecuted(trace[..|trace| - 1]);
    }
  }

  /** The result reports an execution, successful or not, rather than a refusal. */
  predicate FromExecution(r: ToolResult) {
    r.error.None? || r.error.value.ExecutionFailed?
  }

  /** A result has an output or an error, never both; a denial is recorded with exactly the
      errors of denied calls. */
  predicate WellFormedResult(r: ToolResult) {
    && (r.output.Some? <==> r.error.None?)
    && (r.approval.Some? <==> r.error.Some? && (r.error.value.DeniedByRule? || r.error.value.DeniedByUser?))
  }

  /** One call executes its tool at most once, and records one result unless it throws first. */
  lemma HandleCallCounts(opts: Options, env: Env, s: Settings, ce: CallEnv, step: nat, call: ToolCall, approvals: nat)
    ensures
      var r := HandleCall(opts, env, s, ce, step, call, approvals);
      && (ExecutedIds(r.events) == [] || ExecutedIds(r.events) == [call.id])
      && (r.results == [] ==> ExecutedIds(r.events) == [] && r.thrown.Some?)
      && (r.results != [] ==>
            |r.results| == 1 && r.results[0].id == call.id && WellFormedResult(r.results[0])
            && (FromExecution(r.results[0]) <==> ExecutedIds(r.events) == [call.id]))
  {
    hide ExecutedIds, HasTimer, HasSecret, ResolveToolApproval, Sign;
    var r := HandleCall(opts, env, s, ce, step, call, approvals);
    var body := TryCall(opts, env, s, ce, step, call, approvals);
    var armed := Armed(call.id, HasTimer(opts), HasListener(opts, ce));
    var released := Released(call.id, HasTimer(opts), opts.hasSignal);
    TryCallCounts(opts, env, s, ce, step, call, approvals);
    NothingExecuted([armed]);
    NothingExecuted([released]);
    ExecutedIdsConcat([armed], body.events);
    ExecutedIdsConcat([armed] + body.events, [released]);
  }

  predicate RefusesAsDenied(v: Verdict) {
    v.Refuse? ==> v.error.DeniedByRule? || v.error.DeniedByUser?
  }

  lemma GateExecutesNothing(opts: Options, env: Env, ce: CallEnv, call: ToolCall, input: Value, d: Decision, approvals: nat)
    ensures
      var g := ApprovalGate(opts, env, ce, call, input, d, approvals);
      ExecutedIds(g.events) == [] && RefusesAsDenied(g.verdict)
  {
    hide ExecutedIds, HasSecret, Sign;
    NothingExecuted(ApprovalGate(opts, env, ce, call, input, d, approvals).events);
  }

  lemma TryCallCounts(opts: Options, env: Env, s: Settings, ce: CallEnv, step: nat, call: ToolCall, approvals: nat)
    ensures
      var r := TryCall(opts, env, s, ce, step, call, approvals);
      && (ExecutedIds(r.events) == [] || ExecutedIds(r.events) == [call.id])
      && (r.results == [] ==> ExecutedIds(r.events) == [] && r.thrown.Some?)
      && (r.results != [] ==>
            |r.results| == 1 && r.results[0].id == call.id && WellFormedResult(r.results[0])
            && (FromExecution(r.results[0]) <==> ExecutedIds(r.events) == [call.id]))
  {
    hide ExecutedIds, ApprovalGate, ResolveToolApproval, ToolContext;
    NothingExecuted([]);
    if ce.refined.Answers? {
      var input := ce.refined.value;
      var resolved := ResolveToolApproval(s.toolApproval, call.name, ce.computedApproval);
      if resolved.Answers? {
        var openings := [Resolved(step, call.id, resolved.value), ToolStarted(step, call.id, input)];
        var g := ApprovalGate(opts, env, ce, call, input, resolved.value, approvals);
        GateExecutesNothing(opts, env, ce, call, input, resolved.value, approvals);
        NothingExecuted(openings);
        ExecutedIdsConcat(openings, g.events);
        AfterGateCounts(s, ce, step, call, input, openings, g);
      }
    }
  }

  lemma AfterGateCounts(s: Settings, ce: CallEnv, step: nat, call: ToolCall, input: Value, before: seq<Event>, g: Gate)
    requires ExecutedIds(before + g.events) == [] && RefusesAsDenied(g.verdict)
    ensures
      var r := AfterGate(s, ce, step, call, input, before, g);
      && (ExecutedIds(r.events) == [] || ExecutedIds(r.events) == [call.id])
      && (r.results == [] ==> ExecutedIds(r.events) == [] && r.thrown.Some?)
      && (r.results != [] ==>
            |r.results| == 1 && r.results[0].id == call.id && WellFormedResult(r.results[0])
            && (FromExecution(r.results[0]) <==> ExecutedIds(r.events) == [call.id]))
  {
    hide ExecutedIds, ToolContext;
    var sofar := before + g.events;
    var executed := Executed(step, call.(input := input), s.runtime, ToolContext(s, call.name));
    ExecutedIdsSnoc(sofar, executed);
    match g.verdict {
      case Fail(_) =>
      case Refuse(error, denial) =>
        ExecutedIdsSnoc(sofar, ToolEnded(step, ToolResult(call.id, call.name, None, Some(error), Some(denial))));
      case Run =>
        ExecutedIdsSnoc(sofar + [executed], ToolEnded(step, ResultOfExecution(call, ce.execute)));
    }
  }

  // ---- what holds between two calls, and what survives a throw ----

  /** `execute` ran at most once per recorded call. */
  ghost predicate ExecutedOnce(m: Machine) {
    && NoDuplicates(ExecutedIds(m.trace))
    && |ExecutedIds(m.trace)| <= |m.allToolCalls|
    && forall x :: x in ExecutedIds(m.trace) ==> x in CallIds(m.allToolCalls)
  }

  /** A result reports an execution exactly when its tool was executed. */
  ghost predicate Truthful(m: Machine) {
    forall r :: r in m.toolResults ==>
      WellFormedResult(r) && (FromExecution(r) <==> r.id in ExecutedIds(m.trace))
  }

  /** Holds of every state a run can be left in. */
  ghost predicate WithinBudget(opts: Options, m: Machine) {
    && Truthful(m)
    && |m.allToolCalls| <= MaxToolCalls(opts)
    && NoDuplicates(CallIds(m.allToolCalls))
    && ExecutedOnce(m)
    && ResultIds(m.toolResults) <= CallIds(m.allToolCalls)
  }

  /** Holds between two calls, `seen` being the ids requested so far. */
  ghost predicate Tally(opts: Options, m: Machine, seen: seq<string>) {
    && WithinBudget(opts, m)
    && CallIds(m.allToolCalls) == Distinct(seen)
    && ResultIds(m.toolResults) == CallIds(m.allToolCalls)
    && m.toolCallCount == |m.allToolCalls|
    && m.executed == (set x | x in seen)
  }

  /** No result so far can be about a call that has not been seen. */
  lemma NewCallKeepsTruth(m: Machine, id: string)
    requires ResultIds(m.toolResults) == CallIds(m.allToolCalls)
    requires id !in CallIds(m.allToolCalls) && ExecutedOnce(m)
    ensures id !in ExecutedIds(m.trace) && forall r :: r in m.toolResults ==> r.id != id
  {
    forall r | r in m.toolResults ensures r.id != id {
      var i :| 0 <= i < |m.toolResults| && m.toolResults[i] == r;
      assert ResultIds(m.toolResults)[i] == r.id;
      assert r.id in CallIds(m.allToolCalls);
    }
  }

  /** A handled call, as `HandleCallCounts` describes its report. */
  ghost predicate ReportFits(call: ToolCall, r: CallReport) {
    && (ExecutedIds(r.events) == [] || ExecutedIds(r.events) == [call.id])
    && (r.results == [] ==> ExecutedIds(r.events) == [] && r.thrown.Some?)
    && (r.results != [] ==>
          |r.results| == 1 && r.results[0].id == call.id && WellFormedResult(r.results[0])
          && (FromExecution(r.results[0]) <==> ExecutedIds(r.events) == [call.id]))
  }

  lemma RecordedCounts(opts: Options, m: Machine, call: ToolCall, r: CallReport, seen: seq<string>, m': Machine)
    requires Tally(opts, m, seen) && call.id !in seen
    requires |m.allToolCalls| < MaxToolCalls(opts)
    requires ReportFits(call, r)
    requires m'.allToolCalls == m.allToolCalls + [call] && m'.executed == m.executed + {call.id}
    requires m'.toolCallCount == m.toolCallCount + 1
    requires m'.toolResults == m.toolResults + r.results && m'.trace == m.trace + r.events
    ensures WithinBudget(opts, m')
    ensures r.thrown.None? ==> Tally(opts, m', seen + [call.id])
  {
    hide ExecutedIds, Distinct, MaxToolCalls, WellFormedResult, FromExecution, ExecutedOnce, Truthful;
    DistinctSnoc(seen, call.id);
    assert CallIds(m'.allToolCalls) == CallIds(m.allToolCalls) + [call.id];
    assert ResultIds(m'.toolResults) == ResultIds(m.toolResults) + ResultIds(r.results);
    assert call.id !in CallIds(m.allToolCalls);
    NewCallKeepsTruth(m, call.id);
    RecordedOnce(m, call, r, m');
    assert (set x | x in seen + [call.id]) == (set x | x in seen) + {call.id};
    RecordedTruth(m, call, r, m');
  }

  lemma RecordedOnce(m: Machine, call: ToolCall, r: CallReport, m': Machine)
    requires ExecutedOnce(m) && ReportFits(call, r) && call.id !in ExecutedIds(m.trace)
    requires m'.allToolCalls == m.allToolCalls + [call] && m'.trace == m.trace + r.events
    ensures ExecutedOnce(m')
  {
    hide ExecutedIds, WellFormedResult, FromExecution;
    ExecutedIdsConcat(m.trace, r.events);
    assert CallIds(m'.allToolCalls) == CallIds(m.allToolCalls) + [call.id];
  }

  lemma RecordedTruth(m: Machine, call: ToolCall, r: CallReport, m': Machine)
    requires Truthful(m) && ReportFits(call, r)
    requires call.id !in ExecutedIds(m.trace) && forall t :: t in m.toolResults ==> t.id != call.id
    requires m'.toolResults == m.toolResults + r.results && m'.trace == m.trace + r.events
    ensures Truthful(m')
  {
    hide ExecutedIds, WellFormedResult, FromExecution;
    ExecutedIdsConcat(m.trace, r.events);
    forall t | t in m'.toolResults
      ensures WellFormedResult(t) && (FromExecution(t) <==> t.id in ExecutedIds(m'.trace))
    {
      assert t in m.toolResults || t == r.results[0];
    }
  }

  lemma RepeatedCounts(opts: Options, m: Machine, id: string, seen: seq<string>)
    requires Tally(opts, m, seen) && id in seen
    ensures Tally(opts, m, seen + [id])
  {
    DistinctSnoc(seen, id);
    assert (set x | x in seen + [id]) == (set x | x in seen);
  }

  lemma CallStepCounts(opts: Options, env: Env, step: nat, k: nat, call: ToolCall, m: Machine, seen: seq<string>)
    requires Tally(opts, m, seen)
    ensures
      var f := CallStep(opts, env, step, k, call, m);
      && WithinBudget(opts, f.m)
      && (f.thrown.None? ==> Tally(opts, f.m, seen + [call.id]))
      && (f.thrown == Some(BudgetExceeded) ==> |Distinct(seen + [call.id])| == MaxToolCalls(opts) + 1)
  {
    hide HandleCall, ExecutedIds, Distinct, MaxToolCalls, ToolAllowed, Truthful, ExecutedOnce;
    var f := CallStep(opts, env, step, k, call, m);
    if call.id in m.executed {
      RepeatedCounts(opts, m, call.id, seen);
    } else if |m.allToolCalls| == MaxToolCalls(opts) {
      DistinctSnoc(seen, call.id);
      SameRecordsWithinBudget(opts, m, f.m);
    } else if !ToolAllowed(opts, m.settings, call.name) {
      var refusal := ToolResult(call.id, call.name, None, Some(NotAllowed(call.name)), None);
      NothingExecuted([]);
      RecordedCounts(opts, m, call, CallReport([], m.approvals, [refusal], None), seen, f.m);
    } else {
      var r := HandleCall(opts, env, m.settings, env.call(step, k), step, call, m.approvals);
      HandleCallCounts(opts, env, m.settings, env.call(step, k), step, call, m.approvals);
      HandleCallThrows(opts, env, m.settings, env.call(step, k), step, call, m.approvals);
      RecordedCounts(opts, m, call, r, seen, f.m);
    }
  }

  lemma SameRecordsWithinBudget(opts: Options, m: Machine, m': Machine)
    requires WithinBudget(opts, m)
    requires m'.allToolCalls == m.allToolCalls && m'.toolResults == m.toolResults && m'.trace == m.trace
    ensures WithinBudget(opts, m')
  {
  }

  /** The budget is not something a handled call can exceed. */
  lemma HandleCallThrows(opts: Options, env: Env, s: Settings, ce: CallEnv, step: nat, call: ToolCall, approvals: nat)
    ensures HandleCall(opts, env, s, ce, step, call, approvals).thrown != Some(BudgetExceeded)
  {
  }

  lemma {:induction false} CallsUpToCounts(
    opts: Options, env: Env, step: nat, calls: seq<ToolCall>, k: nat, m: Machine, seen: seq<string>)
    requires k <= |calls|
    requires Tally(opts, m, seen)
    ensures
      var f := CallsUpTo(opts, env, step, calls, k, m);
      && WithinBudget(opts, f.m)
      && (f.thrown.None? ==> Tally(opts, f.m, seen + CallIds(calls[..k])))
  {
    hide CallStep, WithinBudget;
    if k == 0 {
      assert seen + CallIds(calls[..0]) == seen;
    } else {
      CallsUpToCounts(opts, env, step, calls, k - 1, m, seen);
      var f := CallsUpTo(opts, env, step, calls, k - 1, m);
      if f.thrown.None? {
        CallStepCounts(opts, env, step, k - 1, calls[k - 1], f.m, seen + CallIds(calls[..k - 1]));
        assert seen + CallIds(calls[..k]) == seen + CallIds(calls[..k - 1]) + [calls[k - 1].id];
      }
    }
  }

  /** The call ids that the first `n` answers of `runStep` ask for, in order. */
  function RequestedIds(env: Env, n: nat): (r: seq<string>) {
    if n == 0 then []
    else RequestedIds(env, n - 1)
         + if env.runStep(n - 1).Answers? then CallIds(env.runStep(n - 1).value.toolCalls) else []
  }

  lemma {:induction false} RequestedGrows(env: Env, i: nat, n: nat)
    requires i <= n
    ensures RequestedIds(env, i) <= RequestedIds(env, n)
  {
    if i < n { RequestedGrows(env, i, n - 1); }
  }

  /** Call `k` of step `i` is the first to ask for its id. */
  predicate FirstToAsk(env: Env, i: nat, k: nat) {
    && env.runStep(i).Answers? && k < |env.runStep(i).value.toolCalls|
    && var calls := env.runStep(i).value.toolCalls;
      calls[k].id !in RequestedIds(env, i) + CallIds(calls[..k])
  }

  /** No other call is the first to ask for the same id. */
  lemma FirstToAskIsUnique(env: Env, i: nat, k: nat, i': nat, k': nat)
    requires FirstToAsk(env, i, k) && FirstToAsk(env, i', k')
    requires env.runStep(i).value.toolCalls[k].id == env.runStep(i').value.toolCalls[k'].id
    ensures i == i' && k == k'
  {
    if i < i' || (i == i' && k < k') { AskedBefore(env, i, k, i', k'); }
    if i' < i || (i == i' && k' < k) { AskedBefore(env, i', k', i, k); }
  }

  lemma AskedBefore(env: Env, i: nat, k: nat, i': nat, k': nat)
    requires env.runStep(i).Answers? && k < |env.runStep(i).value.toolCalls|
    requires env.runStep(i').Answers? && k' <= |env.runStep(i').value.toolCalls|
    requires i < i' || (i == i' && k < k')
    ensures env.runStep(i).value.toolCalls[k].id in RequestedIds(env, i') + CallIds(env.runStep(i').value.toolCalls[..k'])
  {
    var calls := env.runStep(i).value.toolCalls;
    if i < i' {
      assert CallIds(calls)[k] in RequestedIds(env, i + 1);
      RequestedGrows(env, i + 1, i');
    } else {
      assert CallIds(calls[..k'])[k] == calls[k].id;
    }
  }

  lemma TallySeen(opts: Options, m: Machine, seen: seq<string>, id: string)
    requires Tally(opts, m, seen)
    ensures id in m.executed <==> id in seen
  {
  }

  /** Logging anything but an execution keeps the counts. */
  lemma LogKeepsTally(opts: Options, m: Machine, m': Machine, e: Event, seen: seq<string>)
    requires !e.Executed? && m'.trace == m.trace + [e]
    requires m'.allToolCalls == m.allToolCalls && m'.toolResults == m.toolResults
    ensures WithinBudget(opts, m) ==> WithinBudget(opts, m')
    ensures Tally(opts, m, seen) && m'.executed == m.executed && m'.toolCallCount == m.toolCallCount
            ==> Tally(opts, m', seen)
  {
    hide ExecutedIds, MaxToolCalls;
    ExecutedIdsSnoc(m.trace, e);
  }

  lemma PrologueCounts(opts: Options, env: Env, i: nat, m: Machine, seen: seq<string>)
    requires Tally(opts, m, seen)
    ensures Tally(opts, Prologue(opts, env, i, m).m, seen)
  {
    hide Tally, WithinBudget;
    var m1 := Log(m, StepStarted(i, StateOf(m, i)));
    LogKeepsTally(opts, m, m1, StepStarted(i, StateOf(m, i)), seen);
    var m2 := Log(m1, Prepared(i));
    LogKeepsTally(opts, m1, m2, Prepared(i), seen);
    if env.prepareStep(i).Answers? {
      var m3 := m2.(settings := Override(m2.settings, env.prepareStep(i).value));
      LogKeepsTally(opts, m2, Log(m3, RanStep(i, StateOf(m3, i))), RanStep(i, StateOf(m3, i)), seen);
    }
  }

  ghost predicate StatusCounts(opts: Options, env: Env, n: nat, s: Status) {
    match s
    case Running(m) => Tally(opts, m, RequestedIds(env, n))
    case Returned(m, state) =>
      Tally(opts, m, RequestedIds(env, state.step)) && state.toolResults == m.toolResults
    case Failed(m, _) => WithinBudget(opts, m)
  }

  lemma FinishCounts(opts: Options, env: Env, n: nat, m: Machine, state: LoopState)
    requires Tally(opts, m, RequestedIds(env, n))
    requires state.step == n && state.toolResults == m.toolResults
    ensures StatusCounts(opts, env, n, Finish(env, m, state))
  {
    hide WithinBudget, RequestedIds;
    var e := Ended(m.text, m.allToolCalls, m.lastFinishReason.GetOr(Unknown), state);
    LogKeepsTally(opts, m, Log(m, e), e, RequestedIds(env, n));
  }

  lemma EpilogueCounts(opts: Options, env: Env, i: nat, latest: StepResult, before: seq<ToolResult>, m: Machine)
    requires Tally(opts, m, RequestedIds(env, i + 1))
    ensures StatusCounts(opts, env, i + 1, Epilogue(opts, env, i, latest, before, m))
  {
    hide WithinBudget, RequestedIds, CheckConditions, Finish;
    var seen := RequestedIds(env, i + 1);
    var e := StepEnded(i, latest.text, before, m.lastFinishReason.GetOr(Unknown), StateOf(m, i + 1));
    var m1 := Log(m, e);
    LogKeepsTally(opts, m, m1, e, seen);
    var m2 := Log(m1, StepFinished(i));
    LogKeepsTally(opts, m1, m2, StepFinished(i), seen);
    FinishCounts(opts, env, i + 1, m2, StateOf(m, i + 1));
  }

  lemma StepBodyCounts(opts: Options, env: Env, i: nat, m: Machine)
    requires Tally(opts, m, RequestedIds(env, i))
    ensures StatusCounts(opts, env, i + 1, StepBody(opts, env, i, m))
  {
    hide WithinBudget, CallsUpTo, Prologue, Epilogue, Distinct;
    var seen := RequestedIds(env, i);
    PrologueCounts(opts, env, i, m, seen);
    var p := Prologue(opts, env, i, m);
    assert Tally(opts, p.m, seen);
    if p.thrown.None? && env.runStep(i).Answers? {
      var latest := env.runStep(i).value;
      var m1 := Absorb(p.m, i, latest);
      AbsorbKeepsTally(opts, p.m, i, latest, seen);
      CallsUpToCounts(opts, env, i, latest.toolCalls, |latest.toolCalls|, m1, seen);
      assert latest.toolCalls[..|latest.toolCalls|] == latest.toolCalls;
      var f := CallsUpTo(opts, env, i, latest.toolCalls, |latest.toolCalls|, m1);
      if f.thrown.None? { EpilogueCounts(opts, env, i, latest, m.toolResults, f.m); }
    }
  }

  lemma AbsorbKeepsTally(opts: Options, m: Machine, i: nat, latest: StepResult, seen: seq<string>)
    requires Tally(opts, m, seen)
    ensures Tally(opts, Absorb(m, i, latest), seen)
  {
  }

  lemma BeforeFirstStep(opts: Options, env: Env, approvals: nat)
    ensures StatusCounts(opts, env, 0, After(opts, env, approvals, 0))
  {
    var m := Initial(opts, approvals);
    assert Tally(opts, m, []);
    LogKeepsTally(opts, m, Log(m, Started(MaxSteps(opts))), Started(MaxSteps(opts)), []);
  }

  lemma {:induction false} AfterCounts(opts: Options, env: Env, approvals: nat, n: nat)
    ensures StatusCounts(opts, env, n, After(opts, env, approvals, n))
  {
    hide StepBody;
    if n == 0 {
      BeforeFirstStep(opts, env, approvals);
    } else {
      hide Tally, WithinBudget;
      AfterCounts(opts, env, approvals, n - 1);
      var s := After(opts, env, approvals, n - 1);
      if s.Running? { StepBodyCounts(opts, env, n - 1, s.m); }
    }
  }

  lemma WholeRunCounts(opts: Options, env: Env, approvals: nat)
    ensures StatusCounts(opts, env, 0, WholeRun(opts, env, approvals)) && !WholeRun(opts, env, approvals).Running?
  {
    hide After, StatusCounts;
    AfterCounts(opts, env, approvals, MaxSteps(opts));
    var s := After(opts, env, approvals, MaxSteps(opts));
    SameStatusCounts(opts, env, MaxSteps(opts), s);
    if s.Running? {
      FinishCounts(opts, env, MaxSteps(opts), s.m, StateOf(s.m, MaxSteps(opts)));
      SameStatusCounts(opts, env, MaxSteps(opts), WholeRun(opts, env, approvals));
    }
  }

  lemma SameStatusCounts(opts: Options, env: Env, n: nat, s: Status)
    requires StatusCounts(opts, env, n, s)
    ensures s.Running? ==> Tally(opts, s.m, RequestedIds(env, n))
    ensures !s.Running? ==> StatusCounts(opts, env, 0, s)
  {
  }

  /** Over a whole run, however it ends, `execute` is called at most once per call id and
      at most `maxToolCalls` times in all, only for recorded calls. */
  lemma ExecutesAtMostOncePerCall(opts: Options, env: Env, approvals: nat)
    ensures
      var m := WholeRun(opts, env, approvals).m;
      && NoDuplicates(ExecutedIds(m.trace))
      && |ExecutedIds(m.trace)| <= |m.allToolCalls| <= MaxToolCalls(opts)
      && (forall x :: x in ExecutedIds(m.trace) ==> x in CallIds(m.allToolCalls))
      && ResultIds(m.toolResults) <= CallIds(m.allToolCalls)
  {
    hide WholeRun, RequestedIds;
    WholeRunCounts(opts, env, approvals);
  }

  /** However a run ends, each result it recorded carries an output or an error, and
      reports an execution exactly when that tool was executed: a call that was denied, not
      allowed or not registered has an error, no output, and never reached `execute`. */
  lemma ResultsAreTruthful(opts: Options, env: Env, approvals: nat)
    ensures
      var m := WholeRun(opts, env, approvals).m;
      forall r :: r in m.toolResults ==>
        WellFormedResult(r) && (FromExecution(r) <==> r.id in ExecutedIds(m.trace))
  {
    hide WholeRun, RequestedIds;
    WholeRunCounts(opts, env, approvals);
  }

  /** A run that returns reports exactly one result per distinct requested call id, in
      order of first request. */
  lemma ResultsMatchCalls(opts: Options, env: Env, approvals: nat)
    ensures
      var s := WholeRun(opts, env, approvals);
      s.Returned? ==>
        && ResultIds(s.state.toolResults) == CallIds(s.m.allToolCalls)
        && CallIds(s.m.allToolCalls) == Distinct(RequestedIds(env, s.state.step))
        && |Distinct(RequestedIds(env, s.state.step))| <= MaxToolCalls(opts)
  {
    hide WholeRun, RequestedIds;
    WholeRunCounts(opts, env, approvals);
  }
}
