/** When a tool body runs: under which settings, and after which approval. */
module AgentLoopGates {
  import opened Common
  import opened AgentLoopModel
  import opened AgentLoopTrace
  import opened AgentLoopCounts

  // ---- the settings in effect ----

  /** The last of `f(0) .. f(n - 1)` that is defined, else `initial`. */
  function LastDefined<T>(initial: Option<T>, f: nat -> Option<T>, n: nat): (r: Option<T>) {
    if n == 0 then initial
    else if f(n - 1).Some? then f(n - 1)
    else LastDefined(initial, f, n - 1)
  }

  lemma {:induction false} LastDefinedIsLast<T>(initial: Option<T>, f: nat -> Option<T>, n: nat, j: nat)
    requires j < n && f(j).Some? && forall i :: j < i < n ==> f(i).None?
    ensures LastDefined(initial, f, n) == f(j)
  {
    if j < n - 1 { LastDefinedIsLast(initial, f, n - 1, j); }
  }

  lemma {:induction false} NothingDefined<T>(initial: Option<T>, f: nat -> Option<T>, n: nat)
    requires forall i :: 0 <= i < n ==> f(i).None?
    ensures LastDefined(initial, f, n) == initial
  {
    if n > 0 { NothingDefined(initial, f, n - 1); }
  }

  /** What `prepareStep` returned at step `j`. */
  function PreparedAt(env: Env, j: nat): (s: Settings) {
    match env.prepareStep(j)
    case Answers(Some(s)) => s
    case _ => NO_SETTINGS
  }

  /** Each setting in effect once `prepareStep` has answered `n` times: its last defined
      override, else the initial option. */
  function Effective(opts: Options, env: Env, n: nat): (s: Settings) {
    Settings(
      LastDefined(opts.initial.allowTools, (j: nat) => PreparedAt(env, j).allowTools, n),
      LastDefined(opts.initial.runtime, (j: nat) => PreparedAt(env, j).runtime, n),
      LastDefined(opts.initial.toolContexts, (j: nat) => PreparedAt(env, j).toolContexts, n),
      LastDefined(opts.initial.toolApproval, (j: nat) => PreparedAt(env, j).toolApproval, n),
      LastDefined(opts.initial.providerOptions, (j: nat) => PreparedAt(env, j).providerOptions, n))
  }

  lemma OverrideKeepsEffective(opts: Options, env: Env, i: nat)
    requires env.prepareStep(i).Answers?
    ensures Override(Effective(opts, env, i), env.prepareStep(i).value) == Effective(opts, env, i + 1)
  {
  }

  // ---- what every event of a run owes to the settings in effect ----

  /** The call that is the first to ask for `id`, and so the only one that is handled: number
      `k` of step `i`. */
  ghost predicate AskedFor(env: Env, i: nat, k: nat, id: string, name: string) {
    && FirstToAsk(env, i, k)
    && env.runStep(i).value.toolCalls[k].id == id
    && env.runStep(i).value.toolCalls[k].name == name
  }

  /** The tool is registered and allowed, and sees the refined input, the runtime and the
      tool context in effect at its step. */
  ghost predicate LawfulExecution(opts: Options, env: Env, i: nat, k: nat, call: ToolCall, runtime: Option<Value>, context: Option<Value>) {
    var s := Effective(opts, env, i + 1);
    && AskedFor(env, i, k, call.id, call.name)
    && env.call(i, k).refined == Answers(call.input)
    && call.name in opts.tools
    && (s.allowTools.Some? ==> call.name in s.allowTools.value)
    && runtime == s.runtime
    && context == match s.toolContexts
      case None => None
      case Some(contexts) => if call.name in contexts then Some(contexts[call.name]) else None
  }

  /** What the rules say of a tool: nothing without rules or without one for it; a fixed
      decision as it stands; else what the function answers, nothing if it answers nothing. */
  predicate RulesSay(config: Option<ApprovalConfig>, name: string, computed: Answer<Option<Decision>>, d: Decision) {
    match config
    case None => d == NotApplicable
    case Some(ByFunction) => computed == Answers(Some(d)) || (computed == Answers(None) && d == NotApplicable)
    case Some(ByTool(rules)) =>
      if name !in rules then d == NotApplicable
      else match rules[name]
        case Fixed(fixed) => d == fixed
        case Computed => computed == Answers(Some(d)) || (computed == Answers(None) && d == NotApplicable)
  }

  /** The rules ask a function, and it throws. */
  predicate RulesThrow(config: Option<ApprovalConfig>, name: string, computed: Answer<Option<Decision>>, error: string) {
    && computed == Throws(error)
    && (config == Some(ByFunction) || (config.Some? && config.value.ByTool? && name in config.value.rules
        && config.value.rules[name] == Computed))
  }

  lemma ResolvesAsRulesSay(config: Option<ApprovalConfig>, name: string, computed: Answer<Option<Decision>>)
    ensures forall d :: ResolveToolApproval(config, name, computed) == Answers(d) <==> RulesSay(config, name, computed, d)
    ensures forall e :: ResolveToolApproval(config, name, computed) == Throws(e) <==> RulesThrow(config, name, computed, e)
  {
  }

  /** There is a secret: any text but the empty one, or bytes. */
  predicate IsSecret(secret: Option<Secret>) {
    secret.Some? && secret != Some(Text(""))
  }

  /** The decision is the one the approval rules in effect make for that call. */
  ghost predicate LawfulDecision(opts: Options, env: Env, i: nat, k: nat, id: string, name: string, d: Decision) {
    && AskedFor(env, i, k, id, name)
    && RulesSay(Effective(opts, env, i + 1).toolApproval, name, env.call(i, k).computedApproval, d)
  }

  /** The tool starts with the refined input. */
  ghost predicate LawfulStart(env: Env, i: nat, k: nat, id: string, name: string, input: Value) {
    AskedFor(env, i, k, id, name) && env.call(i, k).refined == Answers(input)
  }

  /** The user is asked about the call and gives the answer; the request is signed exactly when
      the rules want the user's approval and there is a secret. */
  ghost predicate LawfulAsking(
    opts: Options, env: Env, i: nat, k: nat, id: string, name: string, signedAs: Option<ApprovalId>, approved: bool)
  {
    && AskedFor(env, i, k, id, name) && env.call(i, k).approver == Answers(approved)
    && (signedAs.Some? <==>
      IsSecret(opts.secret)
      && RulesSay(Effective(opts, env, i + 1).toolApproval, name, env.call(i, k).computedApproval, UserApproval))
  }

  ghost predicate LawfulCheck(env: Env, i: nat, k: nat, id: string, name: string, needed: bool) {
    AskedFor(env, i, k, id, name) && env.call(i, k).needsApproval == Answers(needed)
  }

  /** There is a timer unless the timeout is not positive, 30 seconds by default, and a listener
      when there is a signal that has not been aborted. */
  ghost predicate LawfulArming(opts: Options, env: Env, i: nat, k: nat, id: string, name: string, timer: bool, listener: bool) {
    && AskedFor(env, i, k, id, name)
    && (timer <==> opts.toolTimeoutMs.None? || opts.toolTimeoutMs.value > 0.0)
    && (listener <==> opts.hasSignal && !env.call(i, k).aborted)
  }

  /** The two approval ids come from two draws one after the other, for a call that the user
      approved, and the verification succeeds exactly when both get one signature. */
  ghost predicate LawfulVerification(
    opts: Options, env: Env, i: nat, k: nat, call: ToolCall, id: string, signed: ApprovalId, sent: ApprovalId, valid: bool)
  {
    var ce := env.call(i, k);
    && FirstToAsk(env, i, k) && env.runStep(i).value.toolCalls[k] == call
    && call.id == id && ce.refined.Answers? && ce.approver == Answers(true)
    && (signed.now, signed.random) == ce.firstStamp && (sent.now, sent.random) == ce.secondStamp
    && sent.counter == signed.counter + 1
    && IsSecret(opts.secret)
    && (valid <==>
      env.mac(opts.secret.value, Payload(signed, call.id, call.name, env.digest(ce.refined.value)))
      == env.mac(opts.secret.value, Payload(sent, call.id, call.name, env.digest(ce.refined.value))))
  }

  /** For the call that first asks for this id, `signed` and `sent` are the two ids drawn, and
      they get one signature exactly when `agree`. */
  ghost predicate SignaturesAgreeIff(opts: Options, env: Env, id: string, signed: ApprovalId, sent: ApprovalId, agree: bool) {
    exists i, k, call :: LawfulVerification(opts, env, i, k, call, id, signed, sent, agree)
  }

  /** There is one such call, so the answer is one or the other. */
  lemma AgreementIsDecided(opts: Options, env: Env, id: string, signed: ApprovalId, sent: ApprovalId)
    ensures !(SignaturesAgreeIff(opts, env, id, signed, sent, true) && SignaturesAgreeIff(opts, env, id, signed, sent, false))
  {
    hide Sign, FirstToAsk;
    if SignaturesAgreeIff(opts, env, id, signed, sent, true) && SignaturesAgreeIff(opts, env, id, signed, sent, false) {
      var i: nat, k: nat, call :| LawfulVerification(opts, env, i, k, call, id, signed, sent, true);
      var i': nat, k': nat, call' :| LawfulVerification(opts, env, i', k', call', id, signed, sent, false);
      FirstToAskIsUnique(env, i, k, i', k');
    }
  }

  ghost predicate Lawful(opts: Options, env: Env, e: Event) {
    match e
    case Executed(i, call, runtime, context) => exists k :: LawfulExecution(opts, env, i, k, call, runtime, context)
    case Resolved(i, id, d) => exists k, name :: LawfulDecision(opts, env, i, k, id, name, d)
    case ToolStarted(i, id, input) => exists k, name :: LawfulStart(env, i, k, id, name, input)
    case Asked(id, signedAs, approved) => exists i, k, name :: LawfulAsking(opts, env, i, k, id, name, signedAs, approved)
    case LegacyChecked(id, needed) => exists i, k, name :: LawfulCheck(env, i, k, id, name, needed)
    case Armed(id, timer, listener) => exists i, k, name :: LawfulArming(opts, env, i, k, id, name, timer, listener)
    case RanStep(i, state) =>
      && state.runtime == Effective(opts, env, i + 1).runtime
      && state.providerOptions == Effective(opts, env, i + 1).providerOptions
    case Verified(id, signed, sent, valid) => SignaturesAgreeIff(opts, env, id, signed, sent, valid)
    case _ => true
  }

  ghost predicate AllLawful(opts: Options, env: Env, trace: seq<Event>) {
    forall e :: e in trace ==> Lawful(opts, env, e)
  }

  lemma GateIsLawful(opts: Options, env: Env, i: nat, k: nat, call: ToolCall, d: Decision, approvals: nat)
    requires FirstToAsk(env, i, k) && env.runStep(i).value.toolCalls[k] == call
    requires env.call(i, k).refined.Answers? && LawfulDecision(opts, env, i, k, call.id, call.name, d)
    ensures
      var ce := env.call(i, k);
      AllLawful(opts, env, ApprovalGate(opts, env, ce, call, ce.refined.value, d, approvals).events)
  {
    hide FirstToAsk, Effective, Lawful, LawfulAsking, LawfulCheck, LawfulVerification;
    var ce := env.call(i, k);
    var g := ApprovalGate(opts, env, ce, call, ce.refined.value, d, approvals);
    forall e | e in g.events ensures Lawful(opts, env, e) {
      match e {
        case Asked(id, signedAs, approved) => AskingIsLawful(opts, env, i, k, call, d, approvals, e);
        case LegacyChecked(id, needed) => CheckIsLawful(opts, env, i, k, call, approvals, e);
        case _ => VerificationIsLawful(opts, env, i, k, call, approvals, e);
      }
    }
  }

  lemma AskingIsLawful(opts: Options, env: Env, i: nat, k: nat, call: ToolCall, d: Decision, approvals: nat, e: Event)
    requires FirstToAsk(env, i, k) && env.runStep(i).value.toolCalls[k] == call
    requires env.call(i, k).refined.Answers? && LawfulDecision(opts, env, i, k, call.id, call.name, d) && e.Asked?
    requires e in ApprovalGate(opts, env, env.call(i, k), call, env.call(i, k).refined.value, d, approvals).events
    ensures Lawful(opts, env, e)
  {
    hide FirstToAsk, Effective, Sign;
    assert LawfulAsking(opts, env, i, k, call.id, call.name, e.signedAs, e.approved);
  }

  lemma CheckIsLawful(opts: Options, env: Env, i: nat, k: nat, call: ToolCall, approvals: nat, e: Event)
    requires FirstToAsk(env, i, k) && env.runStep(i).value.toolCalls[k] == call && e.LegacyChecked?
    requires e in LegacyGate(env.call(i, k), call, approvals).events
    ensures Lawful(opts, env, e)
  {
    hide FirstToAsk;
    assert LawfulCheck(env, i, k, call.id, call.name, e.needed);
  }

  lemma VerificationIsLawful(opts: Options, env: Env, i: nat, k: nat, call: ToolCall, approvals: nat, e: Event)
    requires FirstToAsk(env, i, k) && env.runStep(i).value.toolCalls[k] == call && e.Verified?
    requires env.call(i, k).refined.Answers?
    requires e in UserGate(opts, env, env.call(i, k), call, env.call(i, k).refined.value, approvals).events
    ensures Lawful(opts, env, e)
  {
    hide FirstToAsk;
    assert LawfulVerification(opts, env, i, k, call, call.id, e.signed, e.sent, e.valid);
  }

  lemma HandleCallLawful(opts: Options, env: Env, i: nat, k: nat, call: ToolCall, approvals: nat)
    requires FirstToAsk(env, i, k) && env.runStep(i).value.toolCalls[k] == call
    requires ToolAllowed(opts, Effective(opts, env, i + 1), call.name)
    ensures AllLawful(opts, env, HandleCall(opts, env, Effective(opts, env, i + 1), env.call(i, k), i, call, approvals).events)
  {
    hide ApprovalGate, Effective, HasTimer, HasListener, ResolveToolApproval, FirstToAsk, RulesSay;
    var s, ce := Effective(opts, env, i + 1), env.call(i, k);
    assert AskedFor(env, i, k, call.id, call.name);
    if ce.refined.Answers? {
      var input := ce.refined.value;
      var resolved := ResolveToolApproval(s.toolApproval, call.name, ce.computedApproval);
      if resolved.Answers? {
        var d := resolved.value;
        ResolvesAsRulesSay(s.toolApproval, call.name, ce.computedApproval);
        assert LawfulDecision(opts, env, i, k, call.id, call.name, d);
        assert Lawful(opts, env, Resolved(i, call.id, d));
        assert LawfulStart(env, i, k, call.id, call.name, input);
        assert Lawful(opts, env, ToolStarted(i, call.id, input));
        GateIsLawful(opts, env, i, k, call, d, approvals);
        assert LawfulExecution(opts, env, i, k, call.(input := input), s.runtime, ToolContext(s, call.name));
        assert Lawful(opts, env, Executed(i, call.(input := input), s.runtime, ToolContext(s, call.name)));
        AfterGateLawful(opts, env, s, ce, i, call, input,
                        [Resolved(i, call.id, d), ToolStarted(i, call.id, input)],
                        ApprovalGate(opts, env, ce, call, input, d, approvals));
      }
    }
    ArmingIsLawful(opts, env, i, k, call);
    TryCallWithin(opts, env, s, ce, i, call, approvals);
  }

  lemma ArmingIsLawful(opts: Options, env: Env, i: nat, k: nat, call: ToolCall)
    requires AskedFor(env, i, k, call.id, call.name)
    ensures Lawful(opts, env, Armed(call.id, HasTimer(opts), HasListener(opts, env.call(i, k))))
  {
    hide FirstToAsk;
    assert LawfulArming(opts, env, i, k, call.id, call.name, HasTimer(opts), HasListener(opts, env.call(i, k)));
  }

  lemma AfterGateLawful(opts: Options, env: Env, s: Settings, ce: CallEnv, i: nat, call: ToolCall, input: Value, before: seq<Event>, g: Gate)
    requires AllLawful(opts, env, before) && AllLawful(opts, env, g.events)
    requires Lawful(opts, env, Executed(i, call.(input := input), s.runtime, ToolContext(s, call.name)))
    ensures AllLawful(opts, env, AfterGate(s, ce, i, call, input, before, g).events)
  {
    hide ToolContext, ResultOfExecution;
  }

  /** Set-up and `finally` are lawful around anything that is. */
  lemma TryCallWithin(opts: Options, env: Env, s: Settings, ce: CallEnv, i: nat, call: ToolCall, approvals: nat)
    requires AllLawful(opts, env, TryCall(opts, env, s, ce, i, call, approvals).events)
    requires Lawful(opts, env, Armed(call.id, HasTimer(opts), HasListener(opts, ce)))
    ensures AllLawful(opts, env, HandleCall(opts, env, s, ce, i, call, approvals).events)
  {
    hide TryCall, HasTimer, HasListener;
  }

  ghost predicate LawfulSoFar(opts: Options, env: Env, m: Machine, n: nat) {
    AllLawful(opts, env, m.trace) && m.settings == Effective(opts, env, n)
  }

  lemma CallStepLawful(opts: Options, env: Env, i: nat, k: nat, m: Machine)
    requires env.runStep(i).Answers? && k < |env.runStep(i).value.toolCalls|
    requires FirstToAsk(env, i, k) || env.runStep(i).value.toolCalls[k].id in m.executed
    requires LawfulSoFar(opts, env, m, i + 1)
    ensures LawfulSoFar(opts, env, CallStep(opts, env, i, k, env.runStep(i).value.toolCalls[k], m).m, i + 1)
  {
    hide HandleCall, Effective, Lawful, FirstToAsk, ToolAllowed, MaxToolCalls;
    var call := env.runStep(i).value.toolCalls[k];
    if call.id !in m.executed && ToolAllowed(opts, m.settings, call.name) {
      HandleCallLawful(opts, env, i, k, call, m.approvals);
    }
  }

  lemma {:induction false} CallsUpToLawful(opts: Options, env: Env, i: nat, k: nat, m: Machine)
    requires env.runStep(i).Answers? && k <= |env.runStep(i).value.toolCalls|
    requires LawfulSoFar(opts, env, m, i + 1) && Tally(opts, m, RequestedIds(env, i))
    ensures LawfulSoFar(opts, env, CallsUpTo(opts, env, i, env.runStep(i).value.toolCalls, k, m).m, i + 1)
  {
    hide CallStep, LawfulSoFar, Tally, RequestedIds;
    if k > 0 {
      CallsUpToLawful(opts, env, i, k - 1, m);
      var calls := env.runStep(i).value.toolCalls;
      var f := CallsUpTo(opts, env, i, calls, k - 1, m);
      CallsUpToCounts(opts, env, i, calls, k - 1, m, RequestedIds(env, i));
      if f.thrown.None? {
        TallySeen(opts, f.m, RequestedIds(env, i) + CallIds(calls[..k - 1]), calls[k - 1].id);
        CallStepLawful(opts, env, i, k - 1, f.m);
      }
    }
  }

  lemma PrologueLawful(opts: Options, env: Env, i: nat, m: Machine)
    requires LawfulSoFar(opts, env, m, i)
    ensures
      var f := Prologue(opts, env, i, m);
      AllLawful(opts, env, f.m.trace) && (f.thrown.None? ==> LawfulSoFar(opts, env, f.m, i + 1))
  {
    hide Effective;
    if env.prepareStep(i).Answers? { OverrideKeepsEffective(opts, env, i); }
  }

  ghost predicate StatusLawful(opts: Options, env: Env, n: nat, s: Status) {
    AllLawful(opts, env, s.m.trace) && (s.Running? ==> s.m.settings == Effective(opts, env, n))
  }

  lemma EpilogueLawful(opts: Options, env: Env, i: nat, latest: StepResult, before: seq<ToolResult>, m: Machine)
    requires LawfulSoFar(opts, env, m, i + 1)
    ensures StatusLawful(opts, env, i + 1, Epilogue(opts, env, i, latest, before, m))
  {
    hide Effective, CheckConditions;
  }

  lemma StepBodyLawful(opts: Options, env: Env, i: nat, m: Machine)
    requires LawfulSoFar(opts, env, m, i) && Tally(opts, m, RequestedIds(env, i))
    ensures StatusLawful(opts, env, i + 1, StepBody(opts, env, i, m))
  {
    hide Effective, Prologue, CallsUpTo, Epilogue, AllLawful, Tally, RequestedIds;
    PrologueLawful(opts, env, i, m);
    PrologueCounts(opts, env, i, m, RequestedIds(env, i));
    var p := Prologue(opts, env, i, m);
    if p.thrown.None? && env.runStep(i).Answers? {
      var latest := env.runStep(i).value;
      var m1 := Absorb(p.m, i, latest);
      assert m1.trace == p.m.trace && m1.settings == p.m.settings;
      AbsorbKeepsTally(opts, p.m, i, latest, RequestedIds(env, i));
      CallsUpToLawful(opts, env, i, |latest.toolCalls|, m1);
      var f := CallsUpTo(opts, env, i, latest.toolCalls, |latest.toolCalls|, m1);
      if f.thrown.None? { EpilogueLawful(opts, env, i, latest, m.toolResults, f.m); }
    }
  }

  lemma {:induction false} AfterLawful(opts: Options, env: Env, approvals: nat, n: nat)
    ensures StatusLawful(opts, env, n, After(opts, env, approvals, n))
  {
    hide StepBody, Tally, RequestedIds;
    if n > 0 {
      AfterLawful(opts, env, approvals, n - 1);
      AfterCounts(opts, env, approvals, n - 1);
      var s := After(opts, env, approvals, n - 1);
      if s.Running? { StepBodyLawful(opts, env, n - 1, s.m); }
    }
  }

  /** In every run, each execution is of a tool that is registered and allowed, with the
      runtime, context and refined input in effect at its step; each approval decision is
      the one the rules in effect make for the call that is the first to ask for the id. */
  lemma RunsOnlyUnderSettingsInEffect(opts: Options, env: Env, approvals: nat)
    ensures AllLawful(opts, env, WholeRun(opts, env, approvals).m.trace)
  {
    hide After, Effective, LawfulExecution, LawfulDecision;
    AfterLawful(opts, env, approvals, MaxSteps(opts));
  }

  // ---- what precedes an execution ----

  /** The trace ends with the decision for call `id` and the announcement of its start. */
  ghost predicate OpenedWith(trace: seq<Event>, id: string, d: Decision) {
    var n := |trace|;
    && n >= 2
    && trace[n - 2].Resolved? && trace[n - 2].id == id && trace[n - 2].decision == d
    && trace[n - 1].ToolStarted? && trace[n - 1].id == id
  }

  /** Approved by the user: asked and granted, and verified as well when there is a secret. */
  ghost predicate GrantedByUser(secret: bool, trace: seq<Event>, id: string) {
    var n := |trace|;
    if secret then
      && n >= 4 && OpenedWith(trace[..n - 2], id, UserApproval)
      && trace[n - 1].Verified? && trace[n - 1].id == id && trace[n - 1].valid
      && trace[n - 2] == Asked(id, Some(trace[n - 1].sent), true)
    else
      && n >= 3 && OpenedWith(trace[..n - 1], id, UserApproval)
      && trace[n - 1] == Asked(id, None, true)
  }

  /** No rule applied, and the legacy approval was not needed or was granted. */
  ghost predicate GrantedByLegacy(trace: seq<Event>, id: string) {
    var n := |trace|;
    || (n >= 3 && OpenedWith(trace[..n - 1], id, NotApplicable) && trace[n - 1] == LegacyChecked(id, false))
    || (n >= 4 && OpenedWith(trace[..n - 2], id, NotApplicable)
        && trace[n - 2] == LegacyChecked(id, true) && trace[n - 1] == Asked(id, None, true))
  }

  ghost predicate Justified(secret: bool, trace: seq<Event>, id: string) {
    OpenedWith(trace, id, Approved) || GrantedByUser(secret, trace, id) || GrantedByLegacy(trace, id)
  }

  /** What the last events of a trace must have been for the automaton to be where it is. */
  ghost predicate Recent(secret: bool, p: Phase, trace: seq<Event>) {
    var n := |trace|;
    p.Holding? ==>
      match p.stage
      case Decided(d) => n >= 1 && trace[n - 1].Resolved? && trace[n - 1].id == p.id && trace[n - 1].decision == d
      case Opened(d) => OpenedWith(trace, p.id, d)
      case LegacyAsking => n >= 3 && OpenedWith(trace[..n - 1], p.id, NotApplicable) && trace[n - 1] == LegacyChecked(p.id, true)
      case Signing(sent) =>
        && secret && n >= 3 && OpenedWith(trace[..n - 1], p.id, UserApproval)
        && trace[n - 1].Asked? && trace[n - 1].id == p.id && trace[n - 1].signedAs == Some(sent) && trace[n - 1].approved
      case Cleared => GrantedByUser(secret, trace, p.id) || GrantedByLegacy(trace, p.id)
      case _ => true
  }

  lemma RecentStep(secret: bool, p: Phase, trace: seq<Event>, e: Event)
    requires Recent(secret, p, trace)
    ensures Recent(secret, Next(secret, p, e), trace + [e])
  {
    hide Next, Recent;
    if e.Asked? {
      RecentAsked(secret, p, trace, e);
    } else if e.Verified? {
      RecentVerified(secret, p, trace, e);
    } else if e.LegacyChecked? {
      RecentChecked(secret, p, trace, e);
    } else {
      RecentOther(secret, p, trace, e);
    }
  }

  lemma RecentOther(secret: bool, p: Phase, trace: seq<Event>, e: Event)
    requires Recent(secret, p, trace) && !e.Asked? && !e.Verified? && !e.LegacyChecked?
    ensures Recent(secret, Next(secret, p, e), trace + [e])
  {
    hide OpenedWith, IsOpen, MustGoOn, GrantedByUser, GrantedByLegacy;
    if p.Holding? && p.stage.Decided? && e.ToolStarted? {
      Opening(trace, e, p.id, p.stage.decision);
    }
  }

  lemma RecentAsked(secret: bool, p: Phase, trace: seq<Event>, e: Event)
    requires Recent(secret, p, trace) && e.Asked?
    ensures Recent(secret, Next(secret, p, e), trace + [e])
  {
    hide OpenedWith, IsOpen, MustGoOn;
    var n := |trace|;
    assert (trace + [e])[..n] == trace;
    if n >= 1 { assert (trace + [e])[..n - 1] == trace[..n - 1]; }
    if p.Holding? && p.stage.Opened? { OpenedLength(trace, p.id, p.stage.decision); }
  }

  lemma RecentVerified(secret: bool, p: Phase, trace: seq<Event>, e: Event)
    requires Recent(secret, p, trace) && e.Verified?
    ensures Recent(secret, Next(secret, p, e), trace + [e])
  {
    hide OpenedWith, IsOpen, MustGoOn, GrantedByLegacy, Refusal;
    var n := |trace|;
    if n >= 1 { assert (trace + [e])[..n - 1] == trace[..n - 1]; }
  }

  lemma RecentChecked(secret: bool, p: Phase, trace: seq<Event>, e: Event)
    requires Recent(secret, p, trace) && e.LegacyChecked?
    ensures Recent(secret, Next(secret, p, e), trace + [e])
  {
    hide OpenedWith, IsOpen, MustGoOn, GrantedByUser, Refusal;
    assert (trace + [e])[..|trace|] == trace;
    if p.Holding? && p.stage.Opened? { OpenedLength(trace, p.id, p.stage.decision); }
  }

  lemma OpenedLength(trace: seq<Event>, id: string, d: Decision)
    ensures OpenedWith(trace, id, d) ==> |trace| >= 2
  {
  }

  lemma Opening(trace: seq<Event>, e: Event, id: string, d: Decision)
    requires |trace| >= 1 && trace[|trace| - 1].Resolved? && trace[|trace| - 1].id == id
    requires trace[|trace| - 1].decision == d && e.ToolStarted?
    ensures e.id == id ==> OpenedWith(trace + [e], id, d)
  {
  }

  lemma {:induction false} RecentAlways(secret: bool, trace: seq<Event>)
    ensures Recent(secret, Drive(secret, Fresh, trace), trace)
  {
    if trace != [] {
      var front, e := trace[..|trace| - 1], trace[|trace| - 1];
      RecentAlways(secret, front);
      RecentStep(secret, Drive(secret, Fresh, front), front, e);
      assert trace == front + [e];
    }
  }

  lemma {:induction false} PrefixesAreLegal(secret: bool, trace: seq<Event>, p: nat)
    requires p <= |trace| && Drive(secret, Fresh, trace) != Bad
    ensures Drive(secret, Fresh, trace[..p]) != Bad
    decreases |trace|
  {
    if p < |trace| {
      var front := trace[..|trace| - 1];
      PrefixesAreLegal(secret, front, p);
      assert front[..p] == trace[..p];
    } else {
      assert trace[..p] == trace;
    }
  }

  lemma ExecutionNeedsClearance(secret: bool, q: Phase, e: Event)
    requires e.Executed? && Next(secret, q, e) != Bad
    ensures q.Holding? && q.id == e.call.id && (q.stage == Opened(Approved) || q.stage == Cleared)
  {
  }

  /** In every run, whatever executes has just been approved: by a rule; or by the user, and
      verified if there is a secret; or, where no rule applies, by the legacy check. */
  lemma ExecutionIsJustified(opts: Options, env: Env, approvals: nat, p: nat)
    requires
      var trace := WholeRun(opts, env, approvals).m.trace;
      p < |trace| && trace[p].Executed?
    ensures
      var trace := WholeRun(opts, env, approvals).m.trace;
      Justified(HasSecret(opts), trace[..p], trace[p].call.id)
  {
    hide WholeRun, Next, Drive, HasSecret, OpenedWith, GrantedByUser, GrantedByLegacy;
    var secret, trace := HasSecret(opts), WholeRun(opts, env, approvals).m.trace;
    RunKeepsProtocol(opts, env, approvals);
    PrefixesAreLegal(secret, trace, p + 1);
    assert trace[..p + 1] == trace[..p] + [trace[p]];
    DriveSnoc(secret, Fresh, trace[..p], trace[p]);
    ExecutionNeedsClearance(secret, Drive(secret, Fresh, trace[..p]), trace[p]);
    RecentAlways(secret, trace[..p]);
  }

  // ---- the signed approval as the code is written ----

  /** The events after `p` in a run: what a call that must go on does next. */
  lemma GoesOn(opts: Options, env: Env, approvals: nat, p: nat)
    requires p < |WholeRun(opts, env, approvals).m.trace|
    ensures
      var secret, trace := HasSecret(opts), WholeRun(opts, env, approvals).m.trace;
      var q := Drive(secret, Fresh, trace[..p]);
      var next := Next(secret, q, trace[p]);
      && q != Bad && next != Bad
      && (next.Holding? ==> p + 1 < |trace| && Next(secret, next, trace[p + 1]) != Bad)
  {
    hide WholeRun, Next, Drive, HasSecret;
    var secret, trace := HasSecret(opts), WholeRun(opts, env, approvals).m.trace;
    RunKeepsProtocol(opts, env, approvals);
    PrefixesAreLegal(secret, trace, p);
    PrefixesAreLegal(secret, trace, p + 1);
    assert trace[..p + 1] == trace[..p] + [trace[p]];
    DriveSnoc(secret, Fresh, trace[..p], trace[p]);
    if p + 1 < |trace| {
      PrefixesAreLegal(secret, trace, p + 2);
      assert trace[..p + 2] == trace[..p + 1] + [trace[p + 1]];
      DriveSnoc(secret, Fresh, trace[..p + 1], trace[p + 1]);
    } else {
      assert trace[..p + 1] == trace;
    }
  }

  /** Event `p` is the execution of call `id`. */
  predicate ExecutesAt(trace: seq<Event>, p: nat, id: string) {
    p < |trace| && trace[p].Executed? && trace[p].call.id == id
  }

  lemma SignedApprovalGoesOn(secret: bool, q: Phase, asked: Event, verified: Event)
    requires asked.Asked? && asked.signedAs.Some? && asked.approved
    requires Next(secret, q, asked) != Bad && Next(secret, Next(secret, q, asked), verified) != Bad
    ensures verified.Verified? && verified.id == asked.id && asked.signedAs == Some(verified.sent)
    ensures Next(secret, Next(secret, q, asked), verified).Holding?
    ensures Next(secret, Next(secret, q, asked), verified).id == asked.id
    ensures Next(secret, Next(secret, q, asked), verified).stage == if verified.valid then Cleared else Rejected
  {
  }

  lemma ClearedExecutes(secret: bool, q: Phase, e: Event)
    requires q.Holding? && (q.stage == Cleared || q.stage == Rejected) && Next(secret, q, e) != Bad
    ensures e.Executed? && e.call.id == q.id <==> q.stage == Cleared
  {
  }

  /** In every run, a signed call that the user approves is verified next, and executes next
      exactly when the two approval ids drawn for it get the same signature. */
  lemma SignedApprovalExecutesIffIdsCollide(opts: Options, env: Env, approvals: nat, p: nat)
    requires
      var trace := WholeRun(opts, env, approvals).m.trace;
      p < |trace| && trace[p].Asked? && trace[p].signedAs.Some? && trace[p].approved
    ensures
      var trace := WholeRun(opts, env, approvals).m.trace;
      && p + 1 < |trace| && trace[p + 1].Verified?
      && var v := trace[p + 1];
        && v.signed != v.sent && trace[p].signedAs == Some(v.sent)
        && SignaturesAgreeIff(opts, env, trace[p].id, v.signed, v.sent, ExecutesAt(trace, p + 2, trace[p].id))
  {
    hide WholeRun, Next, Drive, HasSecret, LawfulVerification, SignaturesAgreeIff;
    var secret, trace := HasSecret(opts), WholeRun(opts, env, approvals).m.trace;
    GoesOn(opts, env, approvals, p);
    var q := Drive(secret, Fresh, trace[..p]);
    var next := Next(secret, q, trace[p]);
    assert next.Holding? by { AskedHolds(secret, q, trace[p]); }
    var v := trace[p + 1];
    SignedApprovalGoesOn(secret, q, trace[p], v);
    GoesOn(opts, env, approvals, p + 1);
    assert trace[..p + 1] == trace[..p] + [trace[p]];
    DriveSnoc(secret, Fresh, trace[..p], trace[p]);
    ClearedExecutes(secret, Next(secret, next, v), trace[p + 2]);
    RunsOnlyUnderSettingsInEffect(opts, env, approvals);
    assert v in trace && Lawful(opts, env, v);
    TwoIdsDiffer(opts, env, v.id, v.signed, v.sent, v.valid);
  }

  lemma TwoIdsDiffer(opts: Options, env: Env, id: string, signed: ApprovalId, sent: ApprovalId, agree: bool)
    requires SignaturesAgreeIff(opts, env, id, signed, sent, agree)
    ensures signed != sent
  {
    hide Sign;
  }

  lemma AskedHolds(secret: bool, q: Phase, e: Event)
    requires e.Asked? && Next(secret, q, e) != Bad
    ensures Next(secret, q, e).Holding?
  {
  }

  /** The execution and the verification before it are of one call, and its two approval ids
      got the same signature. */
  ghost predicate CollidesFor(opts: Options, env: Env, k: nat, call: ToolCall, verified: Event, executed: Event)
    requires verified.Verified? && executed.Executed?
  {
    && LawfulVerification(opts, env, executed.step, k, call, executed.call.id, verified.signed, verified.sent, true)
    && LawfulExecution(opts, env, executed.step, k, executed.call, executed.runtime, executed.context)
  }

  ghost predicate Collides(opts: Options, env: Env, verified: Event, executed: Event)
    requires verified.Verified? && executed.Executed?
  {
    exists k, call :: CollidesFor(opts, env, k, call, verified, executed)
  }

  /** An execution on a user approval, when there is a secret, comes right after a
      verification that succeeded, of the same call, whose two different approval ids got
      the same signature. */
  lemma UserApprovalNeedsCollision(opts: Options, env: Env, approvals: nat, p: nat)
    requires
      var trace := WholeRun(opts, env, approvals).m.trace;
      p < |trace| && trace[p].Executed? && GrantedByUser(true, trace[..p], trace[p].call.id)
    ensures
      var trace := WholeRun(opts, env, approvals).m.trace;
      && p >= 1 && trace[p - 1].Verified? && trace[p - 1].signed != trace[p - 1].sent
      && Collides(opts, env, trace[p - 1], trace[p])
  {
    hide WholeRun, OpenedWith, SignaturesAgreeIff, LawfulVerification, LawfulExecution;
    RunsOnlyUnderSettingsInEffect(opts, env, approvals);
    var trace := WholeRun(opts, env, approvals).m.trace;
    assert trace[..p][p - 1] == trace[p - 1];
    var v, e := trace[p - 1], trace[p];
    assert v in trace && Lawful(opts, env, v);
    assert e in trace && Lawful(opts, env, e);
    TwoIdsDiffer(opts, env, v.id, v.signed, v.sent, v.valid);
    SameCall(opts, env, v, e);
  }

  lemma SameCall(opts: Options, env: Env, v: Event, e: Event)
    requires v.Verified? && v.valid && e.Executed? && e.call.id == v.id && Lawful(opts, env, v) && Lawful(opts, env, e)
    ensures Collides(opts, env, v, e)
  {
    hide Sign, FirstToAsk, Effective;
    var i: nat, k: nat, call :| LawfulVerification(opts, env, i, k, call, v.id, v.signed, v.sent, v.valid);
    var k': nat :| LawfulExecution(opts, env, e.step, k', e.call, e.runtime, e.context);
    FirstToAskIsUnique(env, i, k, e.step, k');
    assert CollidesFor(opts, env, k, call, v, e);
  }
}
