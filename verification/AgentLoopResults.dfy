/** What the results of a run say about what the tools answered. */
module AgentLoopResults {
  import opened Common
  import opened AgentLoopModel
  import opened AgentLoopCounts

  /** The result is what `execute` answered for call `k` of step `i`, or the error it threw. */
  ghost predicate ReportsExecution(env: Env, i: nat, k: nat, r: ToolResult) {
    && FirstToAsk(env, i, k)
    && var call := env.runStep(i).value.toolCalls[k];
      && r.id == call.id && r.name == call.name && r.approval.None?
      && match env.call(i, k).execute
        case Answers(v) => r.output == Some(v) && r.error.None?
        case Throws(e) => r.output.None? && r.error == Some(ExecutionFailed(e))
  }

  /** A result that reports an execution reports what that very call's `execute` did. */
  ghost predicate Honest(env: Env, r: ToolResult) {
    FromExecution(r) ==> exists i, k :: ReportsExecution(env, i, k, r)
  }

  ghost predicate AllHonest(env: Env, results: seq<ToolResult>) {
    forall r :: r in results ==> Honest(env, r)
  }

  lemma HandleCallHonest(opts: Options, env: Env, s: Settings, i: nat, k: nat, call: ToolCall, approvals: nat)
    requires FirstToAsk(env, i, k) && env.runStep(i).value.toolCalls[k] == call
    ensures AllHonest(env, HandleCall(opts, env, s, env.call(i, k), i, call, approvals).results)
  {
    hide ApprovalGate, ResolveToolApproval, ToolContext, HasTimer, HasListener, FirstToAsk;
    var ce := env.call(i, k);
    if ce.refined.Answers? {
      var resolved := ResolveToolApproval(s.toolApproval, call.name, ce.computedApproval);
      if resolved.Answers? { GateExecutesNothing(opts, env, ce, call, ce.refined.value, resolved.value, approvals); }
    }
    assert ReportsExecution(env, i, k, ResultOfExecution(call, ce.execute));
  }

  lemma CallStepHonest(opts: Options, env: Env, i: nat, k: nat, m: Machine)
    requires env.runStep(i).Answers? && k < |env.runStep(i).value.toolCalls|
    requires FirstToAsk(env, i, k) || env.runStep(i).value.toolCalls[k].id in m.executed
    requires AllHonest(env, m.toolResults)
    ensures AllHonest(env, CallStep(opts, env, i, k, env.runStep(i).value.toolCalls[k], m).m.toolResults)
  {
    hide HandleCall, ToolAllowed, MaxToolCalls, ReportsExecution, FirstToAsk;
    var call := env.runStep(i).value.toolCalls[k];
    if call.id !in m.executed { HandleCallHonest(opts, env, m.settings, i, k, call, m.approvals); }
  }

  lemma {:induction false} CallsUpToHonest(opts: Options, env: Env, i: nat, k: nat, m: Machine)
    requires env.runStep(i).Answers? && k <= |env.runStep(i).value.toolCalls|
    requires AllHonest(env, m.toolResults) && Tally(opts, m, RequestedIds(env, i))
    ensures AllHonest(env, CallsUpTo(opts, env, i, env.runStep(i).value.toolCalls, k, m).m.toolResults)
  {
    hide CallStep, AllHonest, Tally, RequestedIds;
    if k > 0 {
      CallsUpToHonest(opts, env, i, k - 1, m);
      var calls := env.runStep(i).value.toolCalls;
      var f := CallsUpTo(opts, env, i, calls, k - 1, m);
      var seen := RequestedIds(env, i) + CallIds(calls[..k - 1]);
      CallsUpToCounts(opts, env, i, calls, k - 1, m, RequestedIds(env, i));
      if f.thrown.None? {
        TallySeen(opts, f.m, seen, calls[k - 1].id);
        CallStepHonest(opts, env, i, k - 1, f.m);
      }
    }
  }

  lemma StepBodyHonest(opts: Options, env: Env, i: nat, m: Machine)
    requires AllHonest(env, m.toolResults) && Tally(opts, m, RequestedIds(env, i))
    ensures AllHonest(env, StepBody(opts, env, i, m).m.toolResults)
  {
    hide CallsUpTo, AllHonest, CheckConditions, Tally, RequestedIds;
    PrologueCounts(opts, env, i, m, RequestedIds(env, i));
    var p := Prologue(opts, env, i, m);
    assert p.m.toolResults == m.toolResults;
    if p.thrown.None? && env.runStep(i).Answers? {
      var latest := env.runStep(i).value;
      AbsorbKeepsTally(opts, p.m, i, latest, RequestedIds(env, i));
      CallsUpToHonest(opts, env, i, |latest.toolCalls|, Absorb(p.m, i, latest));
    }
  }

  lemma {:induction false} AfterHonest(opts: Options, env: Env, approvals: nat, n: nat)
    ensures AllHonest(env, After(opts, env, approvals, n).m.toolResults)
  {
    hide StepBody;
    if n > 0 {
      hide AllHonest, Tally, RequestedIds;
      AfterCounts(opts, env, approvals, n - 1);
      AfterHonest(opts, env, approvals, n - 1);
      var s := After(opts, env, approvals, n - 1);
      if s.Running? { StepBodyHonest(opts, env, n - 1, s.m); }
    }
  }

  /** However a run ends, each result that reports an execution carries the very value that
      `execute` answered for the first call that asked for its id, or the message of the
      error it threw. */
  lemma ResultsReportExecutions(opts: Options, env: Env, approvals: nat)
    ensures
      var m := WholeRun(opts, env, approvals).m;
      forall r :: r in m.toolResults && FromExecution(r) ==> exists i, k :: ReportsExecution(env, i, k, r)
  {
    hide After, ReportsExecution;
    AfterHonest(opts, env, approvals, MaxSteps(opts));
  }
}
