/** What the callbacks of a run are told about it: the states and totals passed to them and
    returned (packages/agent/src/agent-loop.ts:132-152, 282-302). */
module AgentLoopStates {
  import opened Common
  import opened Usage
  import opened AgentLoopModel
  import opened AgentLoopCounts
  import opened AgentLoopGates
  import opened AgentLoopStop

  /** The state after `n` steps, with the settings in effect after `e` preparations: the records
      of those steps, their usages added up, and one result for each distinct id asked for, the
      first ones of `results`. */
  ghost predicate IsStateAfter(opts: Options, env: Env, n: nat, e: nat, results: seq<ToolResult>, s: LoopState) {
    && s.step == n
    && s.steps == seq(n, j requires j >= 0 => StepRecord(env, j))
    && s.usage == FoldUsage(seq(n, j requires j >= 0 => LatestAt(env, j).usage))
    && s.runtime == Effective(opts, env, e).runtime && s.providerOptions == Effective(opts, env, e).providerOptions
    && ResultIds(s.toolResults) == Distinct(RequestedIds(env, n)) && s.toolResults <= results
  }

  /** The event tells the state the run is in. */
  ghost predicate TellsState(opts: Options, env: Env, results: seq<ToolResult>, e: Event) {
    match e
    case Started(maxSteps) => maxSteps == MaxSteps(opts)
    case StepStarted(i, s) => IsStateAfter(opts, env, i, i, results, s)
    case RanStep(i, s) => IsStateAfter(opts, env, i, i + 1, results, s)
    case StepEnded(i, text, _, reason, s) =>
      && IsStateAfter(opts, env, i + 1, i + 1, results, s)
      && text == LatestAt(env, i).text && reason == LatestAt(env, i).finishReason.GetOr(Unknown)
    case Ended(text, calls, reason, s) =>
      && s.step >= 1 && IsStateAfter(opts, env, s.step, s.step, results, s)
      && text == Concat(seq(s.step, j requires j >= 0 => LatestAt(env, j).text))
      && CallIds(calls) == Distinct(RequestedIds(env, s.step))
      && reason == LatestAt(env, s.step - 1).finishReason.GetOr(Unknown)
    case _ => true
  }

  ghost predicate AllTell(opts: Options, env: Env, m: Machine) {
    forall e :: e in m.trace ==> TellsState(opts, env, m.toolResults, e)
  }

  /** Nothing in the handling of a call tells a state. */
  predicate TellsNothing(e: Event) {
    !e.Started? && !e.StepStarted? && !e.RanStep? && !e.StepEnded? && !e.Ended?
  }

  lemma GateTellsNothing(opts: Options, env: Env, ce: CallEnv, call: ToolCall, input: Value, d: Decision, approvals: nat)
    ensures forall e :: e in ApprovalGate(opts, env, ce, call, input, d, approvals).events ==> TellsNothing(e)
  {
    hide HasSecret, Sign;
  }

  lemma AfterGateTellsNothing(s: Settings, ce: CallEnv, step: nat, call: ToolCall, input: Value, before: seq<Event>, g: Gate)
    requires forall e :: e in before + g.events ==> TellsNothing(e)
    ensures forall e :: e in AfterGate(s, ce, step, call, input, before, g).events ==> TellsNothing(e)
  {
    hide ToolContext, ResultOfExecution;
  }

  lemma HandleCallTellsNothing(opts: Options, env: Env, s: Settings, ce: CallEnv, step: nat, call: ToolCall, approvals: nat)
    ensures forall e :: e in HandleCall(opts, env, s, ce, step, call, approvals).events ==> TellsNothing(e)
  {
    hide ApprovalGate, AfterGate, ResolveToolApproval, HasTimer, HasListener;
    if ce.refined.Answers? {
      var resolved := ResolveToolApproval(s.toolApproval, call.name, ce.computedApproval);
      if resolved.Answers? {
        var input, d := ce.refined.value, resolved.value;
        var g := ApprovalGate(opts, env, ce, call, input, d, approvals);
        GateTellsNothing(opts, env, ce, call, input, d, approvals);
        AfterGateTellsNothing(s, ce, step, call, input, [Resolved(step, call.id, d), ToolStarted(step, call.id, input)], g);
      }
    }
  }

  lemma LongerResults(opts: Options, env: Env, results: seq<ToolResult>, longer: seq<ToolResult>, e: Event)
    requires TellsState(opts, env, results, e) && results <= longer
    ensures TellsState(opts, env, longer, e)
  {
    hide Effective, RequestedIds, FoldUsage, Concat;
  }

  lemma LogTells(opts: Options, env: Env, m: Machine, e: Event)
    requires AllTell(opts, env, m) && TellsState(opts, env, m.toolResults, e)
    ensures AllTell(opts, env, Log(m, e))
  {
    hide TellsState;
  }

  lemma {:induction false} CallsUpToTell(opts: Options, env: Env, step: nat, calls: seq<ToolCall>, k: nat, m: Machine)
    requires k <= |calls| && AllTell(opts, env, m)
    ensures
      var m' := CallsUpTo(opts, env, step, calls, k, m).m;
      AllTell(opts, env, m') && m.toolResults <= m'.toolResults && m'.settings == m.settings
  {
    hide CallStep;
    if k > 0 {
      CallsUpToTell(opts, env, step, calls, k - 1, m);
      var f := CallsUpTo(opts, env, step, calls, k - 1, m);
      hide AllTell;
      CallStepTells(opts, env, step, k - 1, calls[k - 1], f.m);
    }
  }

  lemma CallStepTells(opts: Options, env: Env, step: nat, k: nat, call: ToolCall, m: Machine)
    requires AllTell(opts, env, m)
    ensures
      var m' := CallStep(opts, env, step, k, call, m).m;
      AllTell(opts, env, m') && m.toolResults <= m'.toolResults && m'.settings == m.settings
  {
    hide HandleCall, TellsState, ToolAllowed, MaxToolCalls;
    var m' := CallStep(opts, env, step, k, call, m).m;
    HandleCallTellsNothing(opts, env, m.settings, env.call(step, k), step, call, m.approvals);
    forall e | e in m'.trace ensures TellsState(opts, env, m'.toolResults, e) {
      if e in m.trace { LongerResults(opts, env, m.toolResults, m'.toolResults, e); } else { NothingTold(opts, env, m'.toolResults, e); }
    }
  }

  lemma NothingTold(opts: Options, env: Env, results: seq<ToolResult>, e: Event)
    requires TellsNothing(e)
    ensures TellsState(opts, env, results, e)
  {
  }

  /** The variables of a run after `n` steps, with settings after `e` preparations. */
  ghost predicate InState(opts: Options, env: Env, n: nat, e: nat, m: Machine) {
    Accumulated(env, m, n) && m.settings == Effective(opts, env, e) && Tally(opts, m, RequestedIds(env, n))
  }

  lemma StateOfTells(opts: Options, env: Env, n: nat, e: nat, m: Machine)
    requires InState(opts, env, n, e, m)
    ensures IsStateAfter(opts, env, n, e, m.toolResults, StateOf(m, n))
  {
    hide Effective, RequestedIds, FoldUsage, Concat, WithinBudget;
  }

  lemma LogInState(opts: Options, env: Env, n: nat, e: nat, m: Machine, event: Event)
    requires InState(opts, env, n, e, m) && !event.Executed?
    ensures InState(opts, env, n, e, Log(m, event))
  {
    hide Effective, RequestedIds, Accumulated, Tally;
    LogKeepsTally(opts, m, Log(m, event), event, RequestedIds(env, n));
    SameAccumulated(env, m, Log(m, event), n);
  }

  lemma PrologueTells(opts: Options, env: Env, i: nat, m: Machine)
    requires AllTell(opts, env, m) && InState(opts, env, i, i, m)
    ensures
      var f := Prologue(opts, env, i, m);
      AllTell(opts, env, f.m) && (f.thrown.None? ==> InState(opts, env, i, i + 1, f.m))
  {
    hide Effective, AllTell, InState, IsStateAfter, Override;
    if opts.hasSignal && env.aborted(i) { return; }
    var e1 := StepStarted(i, StateOf(m, i));
    StateOfTells(opts, env, i, i, m);
    LogTells(opts, env, m, e1);
    LogInState(opts, env, i, i, m, e1);
    var m1 := Log(m, e1);
    if env.onStepStart(i).Throws? { return; }
    LogTells(opts, env, m1, Prepared(i));
    LogInState(opts, env, i, i, m1, Prepared(i));
    var m2 := Log(m1, Prepared(i));
    if env.prepareStep(i).Throws? { return; }
    var m3 := m2.(settings := Override(m2.settings, env.prepareStep(i).value));
    PreparedState(opts, env, i, m2, m3);
    var e3 := RanStep(i, StateOf(m3, i));
    StateOfTells(opts, env, i, i + 1, m3);
    LogTells(opts, env, m3, e3);
    LogInState(opts, env, i, i + 1, m3, e3);
  }

  lemma PreparedState(opts: Options, env: Env, i: nat, m: Machine, m': Machine)
    requires AllTell(opts, env, m) && InState(opts, env, i, i, m) && env.prepareStep(i).Answers?
    requires m' == m.(settings := Override(m.settings, env.prepareStep(i).value))
    ensures AllTell(opts, env, m') && InState(opts, env, i, i + 1, m')
  {
    hide Effective, RequestedIds, TellsState, ExecutedIds, Distinct;
    OverrideKeepsEffective(opts, env, i);
    SameAccumulated(env, m, m', i);
  }

  lemma FinishTells(opts: Options, env: Env, n: nat, m: Machine)
    requires AllTell(opts, env, m) && InState(opts, env, n, n, m) && n >= 1
    requires m.lastFinishReason == Some(LatestAt(env, n - 1).finishReason.GetOr(Unknown))
    ensures AllTell(opts, env, Finish(env, m, StateOf(m, n)).m)
  {
    hide Effective, AllTell, IsStateAfter, RequestedIds, FoldUsage, WithinBudget;
    StateOfTells(opts, env, n, n, m);
    LogTells(opts, env, m, Ended(m.text, m.allToolCalls, m.lastFinishReason.GetOr(Unknown), StateOf(m, n)));
  }

  /** What a status after `n` steps tells. */
  ghost predicate StatusTells(opts: Options, env: Env, n: nat, s: Status) {
    && AllTell(opts, env, s.m)
    && match s
      case Running(m) =>
        InState(opts, env, n, n, m) && (n >= 1 ==> m.lastFinishReason == Some(LatestAt(env, n - 1).finishReason.GetOr(Unknown)))
      case Returned(m, state) => IsStateAfter(opts, env, state.step, state.step, m.toolResults, state)
      case Failed(_, _) => true
  }

  lemma EpilogueTells(opts: Options, env: Env, i: nat, before: seq<ToolResult>, m: Machine)
    requires AllTell(opts, env, m) && InState(opts, env, i + 1, i + 1, m)
    requires m.lastFinishReason == Some(LatestAt(env, i).finishReason.GetOr(Unknown))
    ensures StatusTells(opts, env, i + 1, Epilogue(opts, env, i, LatestAt(env, i), before, m))
  {
    hide Effective, AllTell, InState, IsStateAfter, CheckConditions, LatestAt;
    var e1 := StepEnded(i, LatestAt(env, i).text, before, m.lastFinishReason.GetOr(Unknown), StateOf(m, i + 1));
    StateOfTells(opts, env, i + 1, i + 1, m);
    LogTells(opts, env, m, e1);
    LogInState(opts, env, i + 1, i + 1, m, e1);
    var m1 := Log(m, e1);
    LogTells(opts, env, m1, StepFinished(i));
    LogInState(opts, env, i + 1, i + 1, m1, StepFinished(i));
    var m2 := Log(m1, StepFinished(i));
    assert StateOf(m2, i + 1) == StateOf(m, i + 1);
    FinishTells(opts, env, i + 1, m2);
  }

  lemma StepBodyTells(opts: Options, env: Env, i: nat, m: Machine)
    requires AllTell(opts, env, m) && InState(opts, env, i, i, m)
    ensures StatusTells(opts, env, i + 1, StepBody(opts, env, i, m))
  {
    hide Effective, AllTell, Prologue, CallsUpTo, Epilogue, RequestedIds, IsStateAfter, Accumulated, Tally, Absorb;
    PrologueTells(opts, env, i, m);
    var p := Prologue(opts, env, i, m);
    if p.thrown.None? && env.runStep(i).Answers? {
      var latest := LatestAt(env, i);
      var m1 := Absorb(p.m, i, latest);
      AbsorbTells(opts, env, i, p.m, m1);
      CallsUpToTell(opts, env, i, latest.toolCalls, |latest.toolCalls|, m1);
      CallsUpToKeepsAccumulators(opts, env, i, latest.toolCalls, |latest.toolCalls|, m1);
      var f := CallsUpTo(opts, env, i, latest.toolCalls, |latest.toolCalls|, m1);
      CallsUpToCounts(opts, env, i, latest.toolCalls, |latest.toolCalls|, m1, RequestedIds(env, i));
      RequestedNext(env, i);
      SameAccumulated(env, m1, f.m, i + 1);
      if f.thrown.None? { EpilogueTells(opts, env, i, m.toolResults, f.m); }
    }
  }

  lemma RequestedNext(env: Env, i: nat)
    requires env.runStep(i).Answers?
    ensures
      var calls := LatestAt(env, i).toolCalls;
      RequestedIds(env, i + 1) == RequestedIds(env, i) + CallIds(calls[..|calls|])
  {
    var calls := LatestAt(env, i).toolCalls;
    assert calls[..|calls|] == calls;
  }

  lemma AbsorbTells(opts: Options, env: Env, i: nat, m: Machine, m': Machine)
    requires AllTell(opts, env, m) && InState(opts, env, i, i + 1, m) && env.runStep(i).Answers?
    requires m' == Absorb(m, i, LatestAt(env, i))
    ensures AllTell(opts, env, m') && Accumulated(env, m', i + 1) && Tally(opts, m', RequestedIds(env, i))
    ensures m'.settings == m.settings && m'.lastFinishReason == Some(LatestAt(env, i).finishReason.GetOr(Unknown))
  {
    hide Effective, TellsState, RequestedIds, Accumulated, Tally, AddUsage;
    AbsorbAccumulates(env, m, i);
    AbsorbKeepsTally(opts, m, i, LatestAt(env, i), RequestedIds(env, i));
  }

  lemma StartTells(opts: Options, env: Env, approvals: nat)
    ensures StatusTells(opts, env, 0, After(opts, env, approvals, 0))
  {
    hide MaxSteps, WithinBudget, TellsState;
    var m := Initial(opts, approvals);
    var m' := Log(m, Started(MaxSteps(opts)));
    assert TellsState(opts, env, [], Started(MaxSteps(opts))) by { StartedTells(opts, env); }
    BeforeFirstStep(opts, env, approvals);
    InitialTally(opts, m, m');
    assert Accumulated(env, m', 0);
  }

  lemma StartedTells(opts: Options, env: Env)
    ensures TellsState(opts, env, [], Started(MaxSteps(opts)))
  {
  }

  lemma InitialTally(opts: Options, m: Machine, m': Machine)
    requires m.trace == [] && m.toolResults == [] && m.allToolCalls == [] && m.executed == {} && m.toolCallCount == 0
    requires m' == Log(m, Started(MaxSteps(opts)))
    ensures Tally(opts, m', [])
  {
    hide MaxSteps;
    assert Tally(opts, m, []);
    LogKeepsTally(opts, m, m', Started(MaxSteps(opts)), []);
  }

  lemma {:induction false} AfterTells(opts: Options, env: Env, approvals: nat, n: nat)
    ensures StatusTells(opts, env, n, After(opts, env, approvals, n))
  {
    hide StepBody, AllTell, InState, IsStateAfter;
    if n == 0 {
      StartTells(opts, env, approvals);
    } else {
      AfterTells(opts, env, approvals, n - 1);
      var s := After(opts, env, approvals, n - 1);
      if s.Running? { StepBodyTells(opts, env, n - 1, s.m); }
    }
  }

  /** In every run each state told to a callback is the state after the steps so far, under the
      settings in effect; each text, reason and list of calls told is that of the steps so far;
      and a run that returns returns the state after its last step. */
  lemma CallbacksAreToldTheState(opts: Options, env: Env, approvals: nat)
    ensures
      var s := WholeRun(opts, env, approvals);
      && AllTell(opts, env, s.m)
      && (s.Returned? ==> IsStateAfter(opts, env, s.state.step, s.state.step, s.m.toolResults, s.state))
  {
    hide After, AllTell, InState, IsStateAfter;
    AfterTells(opts, env, approvals, MaxSteps(opts));
    var s := After(opts, env, approvals, MaxSteps(opts));
    if s.Running? {
      FinishTells(opts, env, MaxSteps(opts), s.m);
      StateOfTells(opts, env, MaxSteps(opts), MaxSteps(opts), s.m);
    }
  }

  // ---- the limits ----

  /** The default limits are 10 steps and 50 calls; others are rounded down, the one to at
      least 1, the other to at least 0. */
  lemma LimitsMean(opts: Options)
    ensures opts.maxSteps == None ==> MaxSteps(opts) == 10
    ensures opts.maxSteps.Some? ==>
      var x, n := opts.maxSteps.value, MaxSteps(opts);
      if x < 1.0 then n == 1 else n as real <= x < n as real + 1.0
    ensures opts.maxToolCalls == None ==> MaxToolCalls(opts) == 50
    ensures opts.maxToolCalls.Some? ==>
      var x, n := opts.maxToolCalls.value, MaxToolCalls(opts);
      if x < 0.0 then n == 0 else n as real <= x < n as real + 1.0
  {
  }
}
