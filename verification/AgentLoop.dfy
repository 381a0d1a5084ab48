/** The loop of `runAgentLoop` (packages/agent/src/agent-loop.ts:104-303), statement by
    statement, proved to compute `AgentLoopModel.WholeRun`. */
module AgentLoop {
  import opened Common
  import opened Usage
  import opened AgentLoopModel

  datatype Outcome = Resolves(text: string, state: LoopState) | Rejects(thrown: Thrown)

  /** The outcome a finished run has for its caller. */
  function OutcomeOf(s: Status): (o: Outcome)
    requires !s.Running?
  {
    match s
    case Returned(m, state) => Resolves(m.text, state)
    case Failed(_, thrown) => Rejects(thrown)
  }

  /** One run; the fields are the local variables of `runAgentLoop`. */
  class AgentRun {
    const opts: Options
    const env: Env
    var settings: Settings
    var steps: seq<GenerationStep>
    var toolResults: seq<ToolResult>
    var executed: set<string>
    var usage: AIUsage
    var text: string
    var toolCallCount: nat
    var allToolCalls: seq<ToolCall>
    var lastFinishReason: Option<FinishReason>
    var approvals: nat
    ghost var trace: seq<Event>

    constructor (opts: Options, env: Env, approvals: nat)
      ensures this.opts == opts && this.env == env
      ensures Now() == Initial(opts, approvals)
    {
      this.opts, this.env, this.approvals := opts, env, approvals;
      settings := opts.initial;
      steps, toolResults, executed := [], [], {};
      usage, text, toolCallCount := EMPTY, "", 0;
      allToolCalls, lastFinishReason := [], None;
      trace := [];
    }

    ghost function Now(): (m: Machine)
      reads this
    {
      Machine(settings, steps, toolResults, executed, usage, text, toolCallCount,
              allToolCalls, lastFinishReason, approvals, trace)
    }

    ghost function Snapshot(step: nat): (s: LoopState)
      reads this
    {
      StateOf(Now(), step)
    }

    /** Status `user-approval`: sign if there is a secret, ask, verify what was sent. */
    method AskUser(ce: CallEnv, call: ToolCall, refinedInput: Value) returns (verdict: Verdict)
      modifies this`approvals, this`trace
      ensures old(trace) <= trace
      ensures
        Gate(trace[|old(trace)|..], approvals, verdict) == UserGate(opts, env, ce, call, refinedInput, old(approvals))
    {
      var signed: Option<ApprovalId> := None;
      var signature := "";
      var firstId := ApprovalId(ce.firstStamp.0, approvals + 1, ce.firstStamp.1);
      if HasSecret(opts) {
        approvals := approvals + 1;
        signature := Sign(opts, env, firstId, call, refinedInput);
        approvals := approvals + 1;
        signed := Some(ApprovalId(ce.secondStamp.0, approvals, ce.secondStamp.1));
      }
      if ce.approver.Throws? { return Fail(ByCallback(ce.approver.error)); }
      var approved := ce.approver.value;
      trace := trace + [Asked(call.id, signed, approved)];
      if signed.Some? && approved {
        var valid := signature == Sign(opts, env, signed.value, call, refinedInput);
        trace := trace + [Verified(call.id, firstId, signed.value, valid)];
        if !valid { return Fail(SignatureRejected(call.name)); }
      }
      if approved { return Run; }
      return Refuse(DeniedByUser(call.name), Denial(Some("Denied by user")));
    }

    /** Status `not-applicable`: the legacy `needsApproval`. */
    method AskLegacy(ce: CallEnv, call: ToolCall) returns (verdict: Verdict)
      modifies this`trace
      ensures old(trace) <= trace
      ensures Gate(trace[|old(trace)|..], approvals, verdict) == LegacyGate(ce, call, approvals)
    {
      if ce.needsApproval.Throws? { return Fail(ByCallback(ce.needsApproval.error)); }
      trace := trace + [LegacyChecked(call.id, ce.needsApproval.value)];
      if ce.needsApproval.value {
        if ce.approver.Throws? { return Fail(ByCallback(ce.approver.error)); }
        trace := trace + [Asked(call.id, None, ce.approver.value)];
        if !ce.approver.value { return Fail(ApprovalRefused(call.name)); }
      }
      return Run;
    }

    /** The four-way switch on the approval status. */
    method ApprovalSwitch(ce: CallEnv, call: ToolCall, refinedInput: Value, decision: Decision) returns (verdict: Verdict)
      modifies this`approvals, this`trace
      ensures old(trace) <= trace
      ensures
        Gate(trace[|old(trace)|..], approvals, verdict)
        == ApprovalGate(opts, env, ce, call, refinedInput, decision, old(approvals))
    {
      match decision {
        case Denied(reason) => return Refuse(DeniedByRule(call.name, reason), Denial(reason));
        case UserApproval => verdict := AskUser(ce, call, refinedInput);
        case Approved => return Run;
        case NotApplicable => verdict := AskLegacy(ce, call);
      }
    }

    /** From the verdict to the recorded result. */
    method ExecuteAndRecord(ce: CallEnv, step: nat, call: ToolCall, refinedInput: Value, verdict: Verdict)
      returns (thrown: Option<Thrown>)
      modifies this`toolResults, this`trace
      ensures old(trace) <= trace && old(toolResults) <= toolResults
      ensures
        CallReport(trace[|old(trace)|..], approvals, toolResults[|old(toolResults)|..], thrown)
        == AfterGate(settings, ce, step, call, refinedInput, [], Gate([], approvals, verdict))
    {
      var finalOutput: Option<Value> := None;
      var finalError: Option<ToolError> := None;
      var finalApproval: Option<Denial> := None;
      match verdict {
        case Fail(t) => return Some(t);
        case Refuse(error, denial) =>
          finalError, finalApproval := Some(error), Some(denial);
        case Run =>
          trace := trace + [Executed(step, call.(input := refinedInput), settings.runtime, ToolContext(settings, call.name))];
          match ce.execute {
            case Answers(v) => finalOutput := Some(v);
            case Throws(e) => finalError := Some(ExecutionFailed(e));
          }
      }
      var toolResult := ToolResult(call.id, call.name, finalOutput, finalError, finalApproval);
      toolResults := toolResults + [toolResult];
      trace := trace + [ToolEnded(step, toolResult)];
      if ce.onToolEnd.Throws? { return Some(ByCallback(ce.onToolEnd.error)); }
      return None;
    }

    method TryCallBody(ce: CallEnv, step: nat, call: ToolCall) returns (thrown: Option<Thrown>)
      modifies this`toolResults, this`approvals, this`trace
      ensures old(trace) <= trace && old(toolResults) <= toolResults
      ensures
        CallReport(trace[|old(trace)|..], approvals, toolResults[|old(toolResults)|..], thrown)
        == TryCall(opts, env, settings, ce, step, call, old(approvals))
    {
      hide ApprovalGate, AfterGate;
      if ce.refined.Throws? { return Some(ByCallback(ce.refined.error)); }
      var refinedInput := ce.refined.value;
      var approvalStatus := ResolveToolApproval(settings.toolApproval, call.name, ce.computedApproval);
      if approvalStatus.Throws? { return Some(ByCallback(approvalStatus.error)); }
      trace := trace + [Resolved(step, call.id, approvalStatus.value)];
      trace := trace + [ToolStarted(step, call.id, refinedInput)];
      if ce.onToolStart.Throws? { return Some(ByCallback(ce.onToolStart.error)); }
      ghost var openings := [Resolved(step, call.id, approvalStatus.value), ToolStarted(step, call.id, refinedInput)];
      assert trace == old(trace) + openings;
      label gate:
      var verdict := ApprovalSwitch(ce, call, refinedInput, approvalStatus.value);
      ghost var gate := trace[|old@gate(trace)|..];
      assert trace[|old(trace)|..] == openings + gate;
      label run:
      thrown := ExecuteAndRecord(ce, step, call, refinedInput, verdict);
      ghost var rest := trace[|old@run(trace)|..];
      assert trace[|old(trace)|..] == openings + gate + rest;
      AfterGateSplits(settings, ce, step, call, refinedInput, openings, Gate(gate, approvals, verdict));
    }

    method HandleToolCall(ce: CallEnv, step: nat, call: ToolCall) returns (thrown: Option<Thrown>)
      modifies this`toolResults, this`approvals, this`trace
      ensures old(trace) <= trace && old(toolResults) <= toolResults
      ensures
        CallReport(trace[|old(trace)|..], approvals, toolResults[|old(toolResults)|..], thrown)
        == HandleCall(opts, env, settings, ce, step, call, old(approvals))
    {
      hide TryCall;
      trace := trace + [Armed(call.id, HasTimer(opts), HasListener(opts, ce))];
      thrown := TryCallBody(ce, step, call);
      trace := trace + [Released(call.id, HasTimer(opts), opts.hasSignal)];
      ghost var r := HandleCall(opts, env, settings, ce, step, call, old(approvals));
      assert trace == old(trace) + r.events;
    }

    /** The body of the loop over the tool calls; returning `None` moves on to the next. */
    method HandleNext(step: nat, k: nat, call: ToolCall) returns (thrown: Option<Thrown>)
      modifies this
      ensures Flow(Now(), thrown) == CallStep(opts, env, step, k, call, old(Now()))
    {
      hide HandleCall;
      if call.id in executed { return None; }
      executed := executed + {call.id};
      toolCallCount := toolCallCount + 1;
      if toolCallCount > MaxToolCalls(opts) { return Some(BudgetExceeded); }
      allToolCalls := allToolCalls + [call];
      if !(call.name in opts.tools) || (settings.allowTools.Some? && !(call.name in settings.allowTools.value)) {
        toolResults := toolResults + [ToolResult(call.id, call.name, None, Some(NotAllowed(call.name)), None)];
        return None;
      }
      thrown := HandleToolCall(env.call(step, k), step, call);
    }

    method HandleToolCalls(step: nat, calls: seq<ToolCall>) returns (thrown: Option<Thrown>)
      modifies this
      ensures Flow(Now(), thrown) == CallsUpTo(opts, env, step, calls, |calls|, old(Now()))
    {
      hide CallStep;
      var k := 0;
      while k < |calls|
        invariant 0 <= k <= |calls|
        invariant Flow(Now(), None) == CallsUpTo(opts, env, step, calls, k, old(Now()))
      {
        thrown := HandleNext(step, k, calls[k]);
        k := k + 1;
        if thrown.Some? {
          CallsUpToStaysThrown(opts, env, step, calls, k, old(Now()));
          return;
        }
      }
      return None;
    }

    method StopsNow(i: nat, latest: StepResult) returns (stop: Answer<bool>)
      ensures stop == CheckConditions(opts, env, i, latest, |opts.stopWhen|)
    {
      var any := false;
      var j := 0;
      while j < |opts.stopWhen|
        invariant 0 <= j <= |opts.stopWhen|
        invariant CheckConditions(opts, env, i, latest, j) == Answers(any)
      {
        var c := CheckCondition(opts.stopWhen[j], i + 1, latest, env.condition(i, j));
        j := j + 1;
        if c.Throws? {
          CheckConditionsStaysThrown(opts, env, i, latest, j);
          return c;
        }
        any := any || c.value;
      }
      return Answers(any);
    }

    /** `onEnd`, then the return value. */
    method End(step: nat) returns (out: Outcome)
      modifies this`trace
      ensures
        var s := Finish(env, old(Now()), old(Snapshot(step)));
        Now() == s.m && out == OutcomeOf(s)
    {
      var state := LoopState(step, steps, toolResults, usage, settings.runtime, settings.providerOptions);
      trace := trace + [Ended(text, allToolCalls, lastFinishReason.GetOr(Unknown), state)];
      if env.onEnd.Throws? { return Rejects(ByCallback(env.onEnd.error)); }
      return Resolves(text, state);
    }

    /** The top of the loop body, down to the call of `runStep`. */
    method Begin(index: nat) returns (thrown: Option<Thrown>)
      modifies this`settings, this`trace
      ensures Flow(Now(), thrown) == Prologue(opts, env, index, old(Now()))
    {
      if opts.hasSignal && env.aborted(index) { return Some(AbortedBySignal); }
      var before := LoopState(index, steps, toolResults, usage, settings.runtime, settings.providerOptions);
      trace := trace + [StepStarted(index, before)];
      if env.onStepStart(index).Throws? { return Some(ByCallback(env.onStepStart(index).error)); }
      trace := trace + [Prepared(index)];
      var prepareResult := env.prepareStep(index);
      if prepareResult.Throws? { return Some(ByCallback(prepareResult.error)); }
      if prepareResult.value.Some? {
        ApplyOverrides(prepareResult.value.value);
      }
      trace := trace + [RanStep(index, LoopState(index, steps, toolResults, usage, settings.runtime, settings.providerOptions))];
      return if env.runStep(index).Throws? then Some(ByCallback(env.runStep(index).error)) else None;
    }

    method ApplyOverrides(p: Settings)
      modifies this`settings
      ensures settings == Override(old(settings), Some(p))
    {
      if p.allowTools.Some? { settings := settings.(allowTools := p.allowTools); }
      if p.runtime.Some? { settings := settings.(runtime := p.runtime); }
      if p.toolContexts.Some? { settings := settings.(toolContexts := p.toolContexts); }
      if p.toolApproval.Some? { settings := settings.(toolApproval := p.toolApproval); }
      if p.providerOptions.Some? { settings := settings.(providerOptions := p.providerOptions); }
    }

    /** After the tool calls; `None` when the loop goes on. */
    method Conclude(index: nat, latest: StepResult, stepResults: seq<ToolResult>) returns (out: Option<Outcome>)
      modifies this`trace
      ensures
        var s := Epilogue(opts, env, index, latest, stepResults, old(Now()));
        Now() == s.m && out == if s.Running? then None else Some(OutcomeOf(s))
    {
      hide CheckConditions;
      var state := LoopState(index + 1, steps, toolResults, usage, settings.runtime, settings.providerOptions);
      trace := trace + [StepEnded(index, latest.text, stepResults, lastFinishReason.GetOr(Unknown), state)];
      if env.onStepEnd(index).Throws? { return Some(Rejects(ByCallback(env.onStepEnd(index).error))); }
      trace := trace + [StepFinished(index)];
      if env.onStepFinish(index).Throws? { return Some(Rejects(ByCallback(env.onStepFinish(index).error))); }
      var stop := StopsNow(index, latest);
      if stop.Throws? { return Some(Rejects(ByCallback(stop.error))); }
      if stop.value || (latest.toolCalls == [] && latest.finishReason != Some(ToolCalls)) {
        var o := End(index + 1);
        return Some(o);
      }
      return None;
    }

    /** One iteration of the outer loop; `None` when the loop goes on. */
    method Step(index: nat) returns (out: Option<Outcome>)
      modifies this
      ensures
        var s := StepBody(opts, env, index, old(Now()));
        Now() == s.m && out == if s.Running? then None else Some(OutcomeOf(s))
    {
      hide CallsUpTo, Prologue, Epilogue, NormalizeUsage;
      var stepResults := toolResults;
      var thrown := Begin(index);
      if thrown.Some? { return Some(Rejects(thrown.value)); }
      if env.runStep(index).Throws? { return Some(Rejects(ByCallback(env.runStep(index).error))); }
      var latest := env.runStep(index).value;
      label ran:
      lastFinishReason := Some(latest.finishReason.GetOr(Unknown));
      usage := AddUsage(usage, latest.usage);
      text := text + latest.text;
      steps := steps + [GenerationStep(index, latest.text, latest.usage.GetOr(EMPTY), lastFinishReason.value)];
      assert Now() == Absorb(old@ran(Now()), index, latest);

      thrown := HandleToolCalls(index, latest.toolCalls);
      if thrown.Some? { return Some(Rejects(thrown.value)); }
      out := Conclude(index, latest, stepResults);
    }

    /** The whole run, from a fresh object. */
    method RunAgentLoop() returns (out: Outcome)
      requires Now() == Initial(opts, approvals)
      modifies this
      ensures
        var s := WholeRun(opts, env, old(approvals));
        !s.Running? && Now() == s.m && out == OutcomeOf(s)
    {
      hide StepBody, NormalizeUsage;
      var maxSteps := MaxSteps(opts);
      ghost var start := approvals;
      trace := trace + [Started(maxSteps)];
      if env.onStart.Throws? {
        AfterStaysDone(opts, env, start, 0, maxSteps);
        return Rejects(ByCallback(env.onStart.error));
      }
      var index := 0;
      while index < maxSteps
        invariant 0 <= index <= maxSteps
        invariant After(opts, env, start, index) == Running(Now())
      {
        var o := Step(index);
        index := index + 1;
        if o.Some? {
          AfterStaysDone(opts, env, start, index, maxSteps);
          return o.value;
        }
      }
      out := End(maxSteps);
    }
  }

  /** What was logged before the verdict is simply in front of what follows it. */
  lemma AfterGateSplits(s: Settings, ce: CallEnv, step: nat, call: ToolCall, input: Value, before: seq<Event>, g: Gate)
    ensures
      var whole := AfterGate(s, ce, step, call, input, before, g);
      var rest := AfterGate(s, ce, step, call, input, [], Gate([], g.approvals, g.verdict));
      whole == rest.(events := before + g.events + rest.events)
  {
    var whole := AfterGate(s, ce, step, call, input, before, g);
    var rest := AfterGate(s, ce, step, call, input, [], Gate([], g.approvals, g.verdict));
    assert whole.events == before + g.events + rest.events;
  }

  lemma {:induction false} CallsUpToStaysThrown(opts: Options, env: Env, step: nat, calls: seq<ToolCall>, k: nat, m: Machine)
    requires k <= |calls|
    requires CallsUpTo(opts, env, step, calls, k, m).thrown.Some?
    ensures CallsUpTo(opts, env, step, calls, |calls|, m) == CallsUpTo(opts, env, step, calls, k, m)
    decreases |calls| - k
  {
    if k < |calls| { CallsUpToStaysThrown(opts, env, step, calls, k + 1, m); }
  }

  lemma {:induction false} CheckConditionsStaysThrown(opts: Options, env: Env, i: nat, latest: StepResult, k: nat)
    requires k <= |opts.stopWhen|
    requires CheckConditions(opts, env, i, latest, k).Throws?
    ensures CheckConditions(opts, env, i, latest, |opts.stopWhen|) == CheckConditions(opts, env, i, latest, k)
    decreases |opts.stopWhen| - k
  {
    if k < |opts.stopWhen| { CheckConditionsStaysThrown(opts, env, i, latest, k + 1); }
  }

  lemma {:induction false} AfterStaysDone(opts: Options, env: Env, approvals: nat, n: nat, n': nat)
    requires n <= n'
    requires !After(opts, env, approvals, n).Running?
    ensures After(opts, env, approvals, n') == After(opts, env, approvals, n)
    decreases n' - n
  {
    if n < n' { AfterStaysDone(opts, env, approvals, n + 1, n'); }
  }
}
