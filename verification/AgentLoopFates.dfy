/** What becomes of each tool call, told from the tools registered, the settings in effect and
    what its callbacks answer (packages/agent/src/agent-loop.ts:164-280). */
module AgentLoopFates {
  import opened Common
  import opened AgentLoopModel
  import opened AgentLoopCounts
  import opened AgentLoopGates

  // ---- the table ----

  /** The tool is registered, and on the list if there is one. */
  predicate Permitted(opts: Options, s: Settings, name: string) {
    name in opts.tools && (s.allowTools.None? || name in s.allowTools.value)
  }

  /** The two ids drawn for the call, from counter `n` on, get one signature. */
  predicate SameSignature(opts: Options, env: Env, ce: CallEnv, call: ToolCall, n: nat)
    requires opts.secret.Some? && ce.refined.Answers?
  {
    var digest := env.digest(ce.refined.value);
    env.mac(opts.secret.value, Payload(ApprovalId(ce.firstStamp.0, n + 1, ce.firstStamp.1), call.id, call.name, digest))
    == env.mac(opts.secret.value, Payload(ApprovalId(ce.secondStamp.0, n + 2, ce.secondStamp.1), call.id, call.name, digest))
  }

  ghost predicate Says(s: Settings, ce: CallEnv, call: ToolCall, d: Decision) {
    RulesSay(s.toolApproval, call.name, ce.computedApproval, d)
  }

  /** With this decision the call runs: approved; or approved by the user, with two equal
      signatures if there is a secret; or, where no rule applies, needing no approval or given it. */
  ghost predicate GoesAhead(opts: Options, env: Env, ce: CallEnv, call: ToolCall, d: Decision)
    requires ce.refined.Answers?
  {
    match d
    case Approved => true
    case UserApproval =>
      ce.approver == Answers(true) && (IsSecret(opts.secret) ==> exists n: nat :: SameSignature(opts, env, ce, call, n))
    case NotApplicable =>
      ce.needsApproval == Answers(false) || (ce.needsApproval == Answers(true) && ce.approver == Answers(true))
    case Denied(_) => false
  }

  /** The result reports what `execute` answered or threw. */
  predicate ReportsExecute(ce: CallEnv, r: ToolResult) {
    && r.approval.None?
    && match ce.execute
      case Answers(v) => r.output == Some(v) && r.error.None?
      case Throws(e) => r.output.None? && r.error == Some(ExecutionFailed(e))
  }

  /** The result a permitted call gets with this decision. */
  ghost predicate RecordsFor(opts: Options, env: Env, ce: CallEnv, call: ToolCall, d: Decision, r: ToolResult)
    requires ce.refined.Answers?
  {
    || (d.Denied? && r.output.None? && r.error == Some(DeniedByRule(call.name, d.reason)) && r.approval == Some(Denial(d.reason)))
    || (d == UserApproval && ce.approver == Answers(false) && r.output.None?
        && r.error == Some(DeniedByUser(call.name)) && r.approval == Some(Denial(Some("Denied by user"))))
    || (GoesAhead(opts, env, ce, call, d) && ReportsExecute(ce, r))
  }

  /** The result a call gets under the settings in effect. */
  ghost predicate Records(opts: Options, env: Env, s: Settings, ce: CallEnv, call: ToolCall, r: ToolResult) {
    && r.id == call.id && r.name == call.name
    && if !Permitted(opts, s, call.name) then
         r.output.None? && r.error == Some(NotAllowed(call.name)) && r.approval.None?
       else
         ce.refined.Answers? && ce.onToolStart.Answers?
         && exists d :: Says(s, ce, call, d) && RecordsFor(opts, env, ce, call, d, r)
  }

  /** A callback of the call throws this error, and is reached. */
  ghost predicate CallbackThrows(s: Settings, ce: CallEnv, call: ToolCall, e: string) {
    || ce.refined == Throws(e)
    || (ce.refined.Answers? && RulesThrow(s.toolApproval, call.name, ce.computedApproval, e))
    || (ce.refined.Answers? && exists d :: Says(s, ce, call, d) && LaterCallbackThrows(ce, d, e))
  }

  /** Once the decision is made: the announcement, the question the decision calls for, or the
      closing announcement throws. */
  predicate LaterCallbackThrows(ce: CallEnv, d: Decision, e: string) {
    || ce.onToolStart == Throws(e) || ce.onToolEnd == Throws(e)
    || (d == UserApproval && ce.approver == Throws(e))
    || (d == NotApplicable
        && (ce.needsApproval == Throws(e) || (ce.needsApproval == Answers(true) && ce.approver == Throws(e))))
  }

  /** The call ends the run with this. */
  ghost predicate Ends(opts: Options, env: Env, s: Settings, ce: CallEnv, call: ToolCall, t: Thrown) {
    && Permitted(opts, s, call.name)
    && match t
      case ByCallback(e) => CallbackThrows(s, ce, call, e)
      case SignatureRejected(name) =>
        && name == call.name && ce.refined.Answers? && Says(s, ce, call, UserApproval) && ce.approver == Answers(true)
        && IsSecret(opts.secret) && exists n: nat :: !SameSignature(opts, env, ce, call, n)
      case ApprovalRefused(name) =>
        && name == call.name && Says(s, ce, call, NotApplicable)
        && ce.needsApproval == Answers(true) && ce.approver == Answers(false)
      case _ => false
  }

  /** The call lets the run go on: it is not permitted, or none of its callbacks throws and its
      decision comes to a refusal or to a run. */
  ghost predicate LetsGoOn(opts: Options, env: Env, s: Settings, ce: CallEnv, call: ToolCall) {
    || !Permitted(opts, s, call.name)
    || (ce.refined.Answers? && ce.onToolStart.Answers? && ce.onToolEnd.Answers?
        && exists d :: Says(s, ce, call, d)
             && (d.Denied? || (d == UserApproval && ce.approver == Answers(false)) || GoesAhead(opts, env, ce, call, d)))
  }

  /** Nothing keeps the call from running, whatever its signatures: no secret is involved. */
  ghost predicate MustRun(opts: Options, env: Env, s: Settings, ce: CallEnv, call: ToolCall) {
    && Permitted(opts, s, call.name) && ce.refined.Answers? && ce.onToolStart.Answers?
    && exists d :: Says(s, ce, call, d) && GoesAhead(opts, env, ce, call, d) && !(d == UserApproval && IsSecret(opts.secret))
  }

  // ---- one call keeps to the table ----

  lemma GateFate(opts: Options, env: Env, ce: CallEnv, call: ToolCall, d: Decision, approvals: nat)
    requires ce.refined.Answers?
    ensures
      match ApprovalGate(opts, env, ce, call, ce.refined.value, d, approvals).verdict
      case Run => GoesAhead(opts, env, ce, call, d)
      case Refuse(error, denial) =>
        || (d.Denied? && error == DeniedByRule(call.name, d.reason) && denial == Denial(d.reason))
        || (d == UserApproval && ce.approver == Answers(false)
            && error == DeniedByUser(call.name) && denial == Denial(Some("Denied by user")))
      case Fail(ByCallback(e)) => LaterCallbackThrows(ce, d, e)
      case Fail(SignatureRejected(name)) =>
        && name == call.name && d == UserApproval && ce.approver == Answers(true) && IsSecret(opts.secret)
        && exists n: nat :: !SameSignature(opts, env, ce, call, n)
      case Fail(ApprovalRefused(name)) =>
        && name == call.name && d == NotApplicable && ce.needsApproval == Answers(true) && ce.approver == Answers(false)
      case Fail(_) => false
  {
    if d == UserApproval && ce.approver == Answers(true) && IsSecret(opts.secret) {
      var valid := SameSignature(opts, env, ce, call, approvals);
      assert ApprovalGate(opts, env, ce, call, ce.refined.value, d, approvals).verdict
        == if valid then Run else Fail(SignatureRejected(call.name));
    }
  }

  lemma SurelyRuns(opts: Options, env: Env, ce: CallEnv, call: ToolCall, d: Decision, approvals: nat)
    requires ce.refined.Answers? && GoesAhead(opts, env, ce, call, d) && !(d == UserApproval && IsSecret(opts.secret))
    ensures ApprovalGate(opts, env, ce, call, ce.refined.value, d, approvals).verdict == Run
  {
  }

  /** What handling a permitted call leaves. */
  ghost predicate HandledBy(opts: Options, env: Env, s: Settings, ce: CallEnv, call: ToolCall, r: CallReport) {
    && (r.results == [] || (|r.results| == 1 && Records(opts, env, s, ce, call, r.results[0])))
    && (r.thrown.Some? ==> Ends(opts, env, s, ce, call, r.thrown.value))
    && (r.thrown.None? ==> LetsGoOn(opts, env, s, ce, call))
    && (MustRun(opts, env, s, ce, call) ==> r.results != [] && FromExecution(r.results[0]))
  }

  lemma HandleCallFate(opts: Options, env: Env, s: Settings, ce: CallEnv, step: nat, call: ToolCall, approvals: nat)
    requires Permitted(opts, s, call.name)
    ensures HandledBy(opts, env, s, ce, call, HandleCall(opts, env, s, ce, step, call, approvals))
  {
    hide ApprovalGate, GoesAhead, SameSignature, HasTimer, HasListener, RulesSay, RulesThrow, ResolveToolApproval, IsSecret;
    ResolvesAsRulesSay(s.toolApproval, call.name, ce.computedApproval);
    if ce.refined.Answers? {
      var resolved := ResolveToolApproval(s.toolApproval, call.name, ce.computedApproval);
      if resolved.Answers? {
        var d := resolved.value;
        assert Says(s, ce, call, d);
        OneDecision(s, ce, call, d);
        DecidedFate(opts, env, s, ce, step, call, approvals, d);
      }
    }
  }

  lemma OneDecision(s: Settings, ce: CallEnv, call: ToolCall, d: Decision)
    requires Says(s, ce, call, d)
    ensures forall d' :: Says(s, ce, call, d') ==> d' == d
  {
  }

  lemma DecidedFate(opts: Options, env: Env, s: Settings, ce: CallEnv, step: nat, call: ToolCall, approvals: nat, d: Decision)
    requires Permitted(opts, s, call.name) && ce.refined.Answers?
    requires ResolveToolApproval(s.toolApproval, call.name, ce.computedApproval) == Answers(d)
    requires Says(s, ce, call, d) && forall d' :: Says(s, ce, call, d') ==> d' == d
    ensures HandledBy(opts, env, s, ce, call, HandleCall(opts, env, s, ce, step, call, approvals))
  {
    hide ApprovalGate, GoesAhead, SameSignature, HasTimer, HasListener, RulesSay, RulesThrow, ResolveToolApproval, IsSecret, Says;
    GateFate(opts, env, ce, call, d, approvals);
    if GoesAhead(opts, env, ce, call, d) && !(d == UserApproval && IsSecret(opts.secret)) {
      SurelyRuns(opts, env, ce, call, d, approvals);
    }
  }

  // ---- every run keeps to the table ----

  /** The result is the one the first call to ask for its id gets, under the settings in effect
      at its step. */
  ghost predicate RecordedAt(opts: Options, env: Env, i: nat, k: nat, r: ToolResult) {
    && FirstToAsk(env, i, k)
    && Records(opts, env, Effective(opts, env, i + 1), env.call(i, k), env.runStep(i).value.toolCalls[k], r)
  }

  ghost predicate Recorded(opts: Options, env: Env, r: ToolResult) {
    exists i, k :: RecordedAt(opts, env, i, k, r)
  }

  /** The first call to ask for its id must run. */
  ghost predicate MustRunAt(opts: Options, env: Env, i: nat, k: nat) {
    && FirstToAsk(env, i, k)
    && MustRun(opts, env, Effective(opts, env, i + 1), env.call(i, k), env.runStep(i).value.toolCalls[k])
  }

  /** Call `k` of step `i` is recorded as asked for, and not executed although it must be. */
  ghost predicate Missed(opts: Options, env: Env, m: Machine, i: nat, k: nat) {
    && MustRunAt(opts, env, i, k)
    && env.runStep(i).value.toolCalls[k].id in CallIds(m.allToolCalls)
    && env.runStep(i).value.toolCalls[k].id !in ExecutedIds(m.trace)
  }

  /** The recorded call is, in name and input, the first one to ask for its id. */
  ghost predicate IsFirst(env: Env, call: ToolCall) {
    exists i: nat, k: nat :: FirstToAsk(env, i, k) && env.runStep(i).value.toolCalls[k] == call
  }

  ghost predicate Fated(opts: Options, env: Env, m: Machine) {
    && (forall r :: r in m.toolResults ==> Recorded(opts, env, r))
    && (forall i, k :: !Missed(opts, env, m, i, k))
    && (forall call :: call in m.allToolCalls ==> IsFirst(env, call))
  }

  /** Call `k` of step `i`, if it is the first to ask for its id, lets the run go on. */
  ghost predicate LetsGoOnAt(opts: Options, env: Env, i: nat, k: nat) {
    FirstToAsk(env, i, k) ==>
      LetsGoOn(opts, env, Effective(opts, env, i + 1), env.call(i, k), env.runStep(i).value.toolCalls[k])
  }

  ghost predicate EndsAt(opts: Options, env: Env, i: nat, k: nat, t: Thrown) {
    && FirstToAsk(env, i, k)
    && Ends(opts, env, Effective(opts, env, i + 1), env.call(i, k), env.runStep(i).value.toolCalls[k], t)
  }

  /** A first call that is refused by the allow list, or handled as the table says. */
  lemma CallStepFate(opts: Options, env: Env, i: nat, k: nat, m: Machine, seen: seq<string>)
    requires FirstToAsk(env, i, k) && env.runStep(i).value.toolCalls[k].id !in m.executed
    requires m.settings == Effective(opts, env, i + 1) && Fated(opts, env, m) && Tally(opts, m, seen)
    ensures
      var f := CallStep(opts, env, i, k, env.runStep(i).value.toolCalls[k], m);
      && Fated(opts, env, f.m)
      && (f.thrown.None? ==> LetsGoOnAt(opts, env, i, k))
      && (f.thrown.Some? ==> f.thrown == Some(BudgetExceeded) || EndsAt(opts, env, i, k, f.thrown.value))
  {
    hide HandleCall, Effective, Fated, Records, LetsGoOn, MustRun, Ends, ExecutedIds, RequestedIds, Tally, MaxToolCalls;
    var call, ce := env.runStep(i).value.toolCalls[k], env.call(i, k);
    var f := CallStep(opts, env, i, k, call, m);
    if m.toolCallCount + 1 > MaxToolCalls(opts) {
      SameRecordsFated(opts, env, m, f.m);
    } else if !ToolAllowed(opts, m.settings, call.name) {
      RefusedFate(opts, env, i, k, m, f.m);
    } else {
      var r := HandleCall(opts, env, m.settings, ce, i, call, m.approvals);
      HandleCallFate(opts, env, m.settings, ce, i, call, m.approvals);
      HandleCallCounts(opts, env, m.settings, ce, i, call, m.approvals);
      HandledFate(opts, env, i, k, m, r, f.m);
    }
  }

  lemma SameRecordsFated(opts: Options, env: Env, m: Machine, m': Machine)
    requires Fated(opts, env, m)
    requires m'.toolResults == m.toolResults && m'.allToolCalls == m.allToolCalls && m'.trace == m.trace
    ensures Fated(opts, env, m')
  {
    hide Recorded, MustRunAt, IsFirst, ExecutedIds;
    forall i, k ensures !Missed(opts, env, m', i, k) {
      assert !Missed(opts, env, m, i, k);
    }
  }

  lemma RefusedFate(opts: Options, env: Env, i: nat, k: nat, m: Machine, m': Machine)
    requires FirstToAsk(env, i, k) && Fated(opts, env, m)
    requires !Permitted(opts, Effective(opts, env, i + 1), env.runStep(i).value.toolCalls[k].name)
    requires
      var call := env.runStep(i).value.toolCalls[k];
      && m'.toolResults == m.toolResults + [ToolResult(call.id, call.name, None, Some(NotAllowed(call.name)), None)]
      && m'.allToolCalls == m.allToolCalls + [call] && m'.trace == m.trace
    ensures Fated(opts, env, m') && LetsGoOnAt(opts, env, i, k)
  {
    hide Effective, ExecutedIds, RequestedIds;
    var call := env.runStep(i).value.toolCalls[k];
    var refusal := m'.toolResults[|m.toolResults|];
    assert RecordedAt(opts, env, i, k, refusal);
    forall r | r in m'.toolResults ensures Recorded(opts, env, r) {
      assert r in m.toolResults || r == refusal;
    }
    forall i', k' ensures !Missed(opts, env, m', i', k') {
      NotMissed(opts, env, m, m', call, i, k, i', k');
    }
    FirstCallsStay(env, m, m', call, i, k);
  }

  /** A call already recorded is not missed later; the new one is not if it need not run or ran. */
  lemma NotMissed(opts: Options, env: Env, m: Machine, m': Machine, call: ToolCall, i: nat, k: nat, i': nat, k': nat)
    requires FirstToAsk(env, i, k) && env.runStep(i).value.toolCalls[k] == call && !Missed(opts, env, m, i', k')
    requires m'.allToolCalls == m.allToolCalls + [call]
    requires forall x :: x in ExecutedIds(m.trace) ==> x in ExecutedIds(m'.trace)
    requires MustRunAt(opts, env, i, k) ==> call.id in ExecutedIds(m'.trace)
    ensures !Missed(opts, env, m', i', k')
  {
    hide ExecutedIds, RequestedIds, MustRun, Effective;
    assert CallIds(m'.allToolCalls) == CallIds(m.allToolCalls) + [call.id];
    if Missed(opts, env, m', i', k') && env.runStep(i').value.toolCalls[k'].id == call.id {
      FirstToAskIsUnique(env, i, k, i', k');
    }
  }

  lemma FirstCallsStay(env: Env, m: Machine, m': Machine, call: ToolCall, i: nat, k: nat)
    requires FirstToAsk(env, i, k) && env.runStep(i).value.toolCalls[k] == call
    requires m'.allToolCalls == m.allToolCalls + [call] && forall c :: c in m.allToolCalls ==> IsFirst(env, c)
    ensures forall c :: c in m'.allToolCalls ==> IsFirst(env, c)
  {
    hide RequestedIds;
    assert IsFirst(env, call);
  }

  lemma HandledFate(opts: Options, env: Env, i: nat, k: nat, m: Machine, r: CallReport, m': Machine)
    requires FirstToAsk(env, i, k) && Fated(opts, env, m)
    requires Permitted(opts, Effective(opts, env, i + 1), env.runStep(i).value.toolCalls[k].name)
    requires
      var call := env.runStep(i).value.toolCalls[k];
      && HandledBy(opts, env, Effective(opts, env, i + 1), env.call(i, k), call, r) && ReportFits(call, r)
      && m'.toolResults == m.toolResults + r.results && m'.allToolCalls == m.allToolCalls + [call]
      && m'.trace == m.trace + r.events
    ensures Fated(opts, env, m')
    ensures r.thrown.None? ==> LetsGoOnAt(opts, env, i, k)
    ensures r.thrown.Some? ==> EndsAt(opts, env, i, k, r.thrown.value)
  {
    hide Effective, ExecutedIds, RequestedIds, Records, LetsGoOn, MustRun, Ends, FromExecution, WellFormedResult;
    var call := env.runStep(i).value.toolCalls[k];
    ExecutedIdsConcat(m.trace, r.events);
    if r.results != [] { assert RecordedAt(opts, env, i, k, r.results[0]); }
    forall t | t in m'.toolResults ensures Recorded(opts, env, t) {
      assert t in m.toolResults || t == r.results[0];
    }
    forall i', k' ensures !Missed(opts, env, m', i', k') {
      NotMissed(opts, env, m, m', call, i, k, i', k');
    }
    FirstCallsStay(env, m, m', call, i, k);
  }

  /** What the first `k` calls of a step leave. */
  ghost predicate FlowFated(opts: Options, env: Env, i: nat, k: nat, f: Flow) {
    && Fated(opts, env, f.m)
    && (f.thrown.None? ==> f.m.settings == Effective(opts, env, i + 1) && forall j: nat :: j < k ==> LetsGoOnAt(opts, env, i, j))
    && (f.thrown.Some? ==> f.thrown == Some(BudgetExceeded) || exists j: nat :: EndsAt(opts, env, i, j, f.thrown.value))
  }

  lemma {:induction false} CallsUpToFate(opts: Options, env: Env, i: nat, k: nat, m: Machine)
    requires env.runStep(i).Answers? && k <= |env.runStep(i).value.toolCalls|
    requires m.settings == Effective(opts, env, i + 1) && Fated(opts, env, m) && Tally(opts, m, RequestedIds(env, i))
    ensures FlowFated(opts, env, i, k, CallsUpTo(opts, env, i, env.runStep(i).value.toolCalls, k, m))
  {
    hide CallStep, Effective, Fated, Tally, RequestedIds, LetsGoOnAt, EndsAt;
    if k > 0 {
      CallsUpToFate(opts, env, i, k - 1, m);
      var calls := env.runStep(i).value.toolCalls;
      var f := CallsUpTo(opts, env, i, calls, k - 1, m);
      var seen := RequestedIds(env, i) + CallIds(calls[..k - 1]);
      CallsUpToCounts(opts, env, i, calls, k - 1, m, RequestedIds(env, i));
      if f.thrown.None? {
        TallySeen(opts, f.m, seen, calls[k - 1].id);
        CallStepKeepsSettings(opts, env, i, k - 1, f.m);
        if calls[k - 1].id in f.m.executed {
          RepeatedFate(opts, env, i, k - 1, f.m);
        } else {
          CallStepFate(opts, env, i, k - 1, f.m, seen);
        }
      }
    }
  }

  lemma CallStepKeepsSettings(opts: Options, env: Env, i: nat, k: nat, m: Machine)
    requires env.runStep(i).Answers? && k < |env.runStep(i).value.toolCalls|
    ensures CallStep(opts, env, i, k, env.runStep(i).value.toolCalls[k], m).m.settings == m.settings
  {
    hide HandleCall;
  }

  lemma RepeatedFate(opts: Options, env: Env, i: nat, k: nat, m: Machine)
    requires env.runStep(i).Answers? && k < |env.runStep(i).value.toolCalls| && !FirstToAsk(env, i, k)
    requires env.runStep(i).value.toolCalls[k].id in m.executed
    ensures CallStep(opts, env, i, k, env.runStep(i).value.toolCalls[k], m) == Flow(m, None) && LetsGoOnAt(opts, env, i, k)
  {
    hide HandleCall, RequestedIds;
  }

  /** Every call of the first `n` steps lets the run go on. */
  ghost predicate AllLetGoOn(opts: Options, env: Env, n: nat) {
    forall i: nat, k: nat :: i < n ==> LetsGoOnAt(opts, env, i, k)
  }

  /** What a status after `n` steps says of the calls. */
  ghost predicate StatusFated(opts: Options, env: Env, n: nat, s: Status) {
    && Fated(opts, env, s.m)
    && match s
      case Running(m) => m.settings == Effective(opts, env, n) && AllLetGoOn(opts, env, n)
      case Returned(m, state) => AllLetGoOn(opts, env, state.step)
      case Failed(_, _) => true
  }

  lemma LoggingFated(opts: Options, env: Env, m: Machine, m': Machine)
    requires Fated(opts, env, m) && m'.toolResults == m.toolResults && m'.allToolCalls == m.allToolCalls
    requires forall x :: x in ExecutedIds(m.trace) ==> x in ExecutedIds(m'.trace)
    ensures Fated(opts, env, m')
  {
    hide Recorded, MustRunAt, IsFirst, ExecutedIds;
    forall i, k ensures !Missed(opts, env, m', i, k) {
      assert !Missed(opts, env, m, i, k);
    }
  }

  lemma StepBodyFate(opts: Options, env: Env, i: nat, m: Machine)
    requires m.settings == Effective(opts, env, i) && Fated(opts, env, m) && AllLetGoOn(opts, env, i)
    requires Tally(opts, m, RequestedIds(env, i))
    ensures StatusFated(opts, env, i + 1, StepBody(opts, env, i, m))
  {
    hide Effective, Prologue, CallsUpTo, Epilogue, Fated, Tally, RequestedIds, LetsGoOnAt, ExecutedIds, EndsAt;
    PrologueFate(opts, env, i, m);
    PrologueCounts(opts, env, i, m, RequestedIds(env, i));
    var p := Prologue(opts, env, i, m);
    if p.thrown.None? && env.runStep(i).Answers? {
      var latest := env.runStep(i).value;
      var m1 := Absorb(p.m, i, latest);
      AbsorbKeepsTally(opts, p.m, i, latest, RequestedIds(env, i));
      LoggingFated(opts, env, p.m, m1);
      CallsUpToFate(opts, env, i, |latest.toolCalls|, m1);
      var f := CallsUpTo(opts, env, i, latest.toolCalls, |latest.toolCalls|, m1);
      if f.thrown.None? {
        forall k: nat ensures LetsGoOnAt(opts, env, i, k) {
          if k >= |latest.toolCalls| { NoSuchCall(opts, env, i, k); }
        }
        EpilogueFate(opts, env, i, latest, m.toolResults, f.m);
      }
    }
  }

  lemma NoSuchCall(opts: Options, env: Env, i: nat, k: nat)
    requires env.runStep(i).Answers? && k >= |env.runStep(i).value.toolCalls|
    ensures LetsGoOnAt(opts, env, i, k)
  {
  }

  lemma PrologueFate(opts: Options, env: Env, i: nat, m: Machine)
    requires m.settings == Effective(opts, env, i) && Fated(opts, env, m)
    ensures
      var f := Prologue(opts, env, i, m);
      Fated(opts, env, f.m) && (f.thrown.None? ==> f.m.settings == Effective(opts, env, i + 1))
  {
    hide Effective, Fated, ExecutedIds;
    if env.prepareStep(i).Answers? { OverrideKeepsEffective(opts, env, i); }
    var f := Prologue(opts, env, i, m);
    PrologueExecutesNothing(opts, env, i, m);
    LoggingFated(opts, env, m, f.m);
  }

  lemma PrologueExecutesNothing(opts: Options, env: Env, i: nat, m: Machine)
    ensures ExecutedIds(Prologue(opts, env, i, m).m.trace) == ExecutedIds(m.trace)
  {
    hide ExecutedIds;
    var m1 := Log(m, StepStarted(i, StateOf(m, i)));
    ExecutedIdsSnoc(m.trace, StepStarted(i, StateOf(m, i)));
    ExecutedIdsSnoc(m1.trace, Prepared(i));
    if env.prepareStep(i).Answers? {
      var m3 := Log(m1, Prepared(i)).(settings := Override(m.settings, env.prepareStep(i).value));
      ExecutedIdsSnoc(m3.trace, RanStep(i, StateOf(m3, i)));
    }
  }

  lemma EpilogueFate(opts: Options, env: Env, i: nat, latest: StepResult, before: seq<ToolResult>, m: Machine)
    requires m.settings == Effective(opts, env, i + 1) && Fated(opts, env, m) && AllLetGoOn(opts, env, i + 1)
    ensures StatusFated(opts, env, i + 1, Epilogue(opts, env, i, latest, before, m))
  {
    hide Effective, Fated, ExecutedIds, CheckConditions, AllLetGoOn;
    var s := Epilogue(opts, env, i, latest, before, m);
    var e := StepEnded(i, latest.text, before, m.lastFinishReason.GetOr(Unknown), StateOf(m, i + 1));
    ExecutedIdsSnoc(m.trace, e);
    ExecutedIdsSnoc(m.trace + [e], StepFinished(i));
    ExecutedIdsSnoc(m.trace + [e] + [StepFinished(i)],
      Ended(m.text, m.allToolCalls, m.lastFinishReason.GetOr(Unknown), StateOf(m, i + 1)));
    LoggingFated(opts, env, m, s.m);
  }

  lemma StartFate(opts: Options, env: Env, approvals: nat)
    ensures StatusFated(opts, env, 0, After(opts, env, approvals, 0))
  {
    hide Records, MustRun;
    assert CallIds([]) == [];
  }

  lemma {:induction false} AfterFate(opts: Options, env: Env, approvals: nat, n: nat)
    ensures StatusFated(opts, env, n, After(opts, env, approvals, n))
  {
    hide StepBody, Fated, AllLetGoOn, Tally, RequestedIds, Effective;
    if n == 0 {
      StartFate(opts, env, approvals);
    } else {
      AfterFate(opts, env, approvals, n - 1);
      AfterCounts(opts, env, approvals, n - 1);
      var s := After(opts, env, approvals, n - 1);
      if s.Running? { StepBodyFate(opts, env, n - 1, s.m); }
    }
  }

  lemma WholeRunFate(opts: Options, env: Env, approvals: nat)
    ensures
      var s := WholeRun(opts, env, approvals);
      Fated(opts, env, s.m) && (s.Returned? ==> AllLetGoOn(opts, env, s.state.step))
  {
    hide After, Fated, AllLetGoOn, Effective, ExecutedIds;
    var n := MaxSteps(opts);
    AfterFate(opts, env, approvals, n);
    var s := After(opts, env, approvals, n);
    if s.Running? {
      var e := Ended(s.m.text, s.m.allToolCalls, s.m.lastFinishReason.GetOr(Unknown), StateOf(s.m, n));
      ExecutedIdsSnoc(s.m.trace, e);
      LoggingFated(opts, env, s.m, Log(s.m, e));
    }
  }

  // ---- what a reader can rely on ----

  /** However a run ends, each result it recorded is the one the table gives the first call to
      ask for its id. */
  lemma ResultsFollowTheTable(opts: Options, env: Env, approvals: nat, r: ToolResult)
    requires r in WholeRun(opts, env, approvals).m.toolResults
    ensures exists i, k :: RecordedAt(opts, env, i, k, r)
  {
    hide WholeRun, RecordedAt;
    WholeRunFate(opts, env, approvals);
  }

  /** However a run ends, a recorded result says that the tool is not allowed exactly when the
      first call to ask for its id names a tool that is not registered, or that is not on the
      list in effect at its step, if there is one. */
  lemma NotAllowedIff(opts: Options, env: Env, approvals: nat, r: ToolResult, i: nat, k: nat)
    requires r in WholeRun(opts, env, approvals).m.toolResults
    requires FirstToAsk(env, i, k) && env.runStep(i).value.toolCalls[k].id == r.id
    ensures
      var name, list := env.runStep(i).value.toolCalls[k].name, Effective(opts, env, i + 1).allowTools;
      r.error == Some(NotAllowed(name)) <==> name !in opts.tools || (list.Some? && name !in list.value)
  {
    hide WholeRun, Effective, RequestedIds, GoesAhead, Says;
    WholeRunFate(opts, env, approvals);
    var i': nat, k': nat :| RecordedAt(opts, env, i', k', r);
    FirstToAskIsUnique(env, i, k, i', k');
  }

  /** However a run ends, a recorded call that nothing keeps from running was executed. */
  lemma NothingIsMissed(opts: Options, env: Env, approvals: nat, i: nat, k: nat)
    requires MustRunAt(opts, env, i, k)
    requires env.runStep(i).value.toolCalls[k].id in CallIds(WholeRun(opts, env, approvals).m.allToolCalls)
    ensures env.runStep(i).value.toolCalls[k].id in ExecutedIds(WholeRun(opts, env, approvals).m.trace)
  {
    hide WholeRun, MustRunAt;
    WholeRunFate(opts, env, approvals);
    assert !Missed(opts, env, WholeRun(opts, env, approvals).m, i, k);
  }

  /** In a run that returns, the first call to ask for an id was executed exactly when its tool
      is permitted and the decision of the rules in effect lets it go ahead. */
  lemma ExecutesIffGoesAhead(opts: Options, env: Env, approvals: nat, i: nat, k: nat)
    requires WholeRun(opts, env, approvals).Returned? && i < WholeRun(opts, env, approvals).state.step && FirstToAsk(env, i, k)
    ensures
      var s, ce, call := Effective(opts, env, i + 1), env.call(i, k), env.runStep(i).value.toolCalls[k];
      call.id in ExecutedIds(WholeRun(opts, env, approvals).m.trace) <==>
      && Permitted(opts, s, call.name) && ce.refined.Answers?
      && exists d :: Says(s, ce, call, d) && GoesAhead(opts, env, ce, call, d)
  {
    hide WholeRun, Effective, RequestedIds, GoesAhead, Says, Distinct, ExecutedIds;
    WholeRunFate(opts, env, approvals);
    ResultsMatchCalls(opts, env, approvals);
    ResultsAreTruthful(opts, env, approvals);
    var run := WholeRun(opts, env, approvals);
    var call := env.runStep(i).value.toolCalls[k];
    AskedIsRequested(env, i, k, run.state.step);
    assert call.id in ResultIds(run.state.toolResults);
    SameResults(opts, env, approvals);
    var n :| 0 <= n < |run.m.toolResults| && ResultIds(run.m.toolResults)[n] == call.id;
    var r := run.m.toolResults[n];
    var i': nat, k': nat :| RecordedAt(opts, env, i', k', r);
    FirstToAskIsUnique(env, i, k, i', k');
    RecordTellsExecution(opts, env, Effective(opts, env, i + 1), env.call(i, k), call, r);
  }

  lemma AskedIsRequested(env: Env, i: nat, k: nat, n: nat)
    requires i < n && FirstToAsk(env, i, k)
    ensures env.runStep(i).value.toolCalls[k].id in RequestedIds(env, n)
  {
    var calls := env.runStep(i).value.toolCalls;
    assert CallIds(calls)[k] in RequestedIds(env, i + 1);
    RequestedGrows(env, i + 1, n);
  }

  lemma SameResults(opts: Options, env: Env, approvals: nat)
    ensures
      var s := WholeRun(opts, env, approvals);
      s.Returned? ==> s.state.toolResults == s.m.toolResults
  {
    hide WholeRun, RequestedIds;
    WholeRunCounts(opts, env, approvals);
  }

  lemma RecordTellsExecution(opts: Options, env: Env, s: Settings, ce: CallEnv, call: ToolCall, r: ToolResult)
    requires Records(opts, env, s, ce, call, r)
    ensures FromExecution(r) <==>
      && Permitted(opts, s, call.name) && ce.refined.Answers?
      && exists d :: Says(s, ce, call, d) && GoesAhead(opts, env, ce, call, d)
  {
    hide SameSignature, IsSecret;
    forall d | Says(s, ce, call, d) ensures forall d' :: Says(s, ce, call, d') ==> d' == d { OneDecision(s, ce, call, d); }
    hide RulesSay, Says;
  }
}
