/** packages/agent/src/agent-loop.ts: what one run of `runAgentLoop` is, as a function of
    its options and of everything its callbacks answer.  The module `AgentLoop` holds the
    loop itself and proves that it computes this function. */
module AgentLoopModel {
  import opened Common
  import opened Usage

  /** A JavaScript value the loop passes along without looking at it. */
  type Value = string

  datatype FinishReason = Stop | Length | ContentFilter | ToolCalls | ErrorReason | Other | Unknown

  datatype ToolCall = ToolCall(id: string, name: string, input: Value)

  datatype StepResult = StepResult(
    text: string,
    toolCalls: seq<ToolCall>,
    usage: Option<AIUsage>,
    finishReason: Option<FinishReason>)

  datatype GenerationStep = GenerationStep(
    step: nat, text: string, usage: AIUsage, finishReason: FinishReason)

  datatype ToolError =
    | NotAllowed(name: string)
    | DeniedByRule(name: string, reason: Option<string>)
    | DeniedByUser(name: string)
    | ExecutionFailed(message: string)

  datatype Denial = Denial(reason: Option<string>)

  datatype ToolResult = ToolResult(
    id: string, name: string, output: Option<Value>, error: Option<ToolError>, approval: Option<Denial>)

  // ---- tool approval (packages/agent/src/tool-approval.ts) ----

  datatype Decision = NotApplicable | Approved | Denied(reason: Option<string>) | UserApproval

  datatype Rule = Fixed(decision: Decision) | Computed

  datatype ApprovalConfig = ByFunction | ByTool(rules: map<string, Rule>)

  /** `resolveToolApproval`; `computed` is what the rule's function returns, if it has one. */
  function ResolveToolApproval(
    config: Option<ApprovalConfig>, name: string, computed: Answer<Option<Decision>>): (r: Answer<Decision>)
  {
    match config
    case None => Answers(NotApplicable)
    case Some(ByFunction) => Normalized(computed)
    case Some(ByTool(rules)) =>
      if name !in rules then Answers(NotApplicable)
      else match rules[name]
        case Fixed(d) => Answers(d)
        case Computed => Normalized(computed)
  }

  function Normalized(status: Answer<Option<Decision>>): (r: Answer<Decision>) {
    match status
    case Throws(e) => Throws(e)
    case Answers(d) => Answers(d.GetOr(NotApplicable))
  }

  /** `createApprovalId`: the clock, a counter that never repeats, and a random part. */
  datatype ApprovalId = ApprovalId(now: int, counter: nat, random: string)

  datatype Payload = Payload(approvalId: ApprovalId, toolCallId: string, toolName: string, digest: string)

  // ---- options, settings and callbacks ----

  /** The settings `prepareStep` may replace; also the shape of what it returns. */
  datatype Settings = Settings(
    allowTools: Option<seq<string>>,
    runtime: Option<Value>,
    toolContexts: Option<map<string, Value>>,
    toolApproval: Option<ApprovalConfig>,
    providerOptions: Option<Value>)

  const NO_SETTINGS := Settings(None, None, None, None, None)

  datatype StopCondition =
    | AfterSteps(count: real)
    | OnFinishReason(reasons: seq<FinishReason>)
    | Custom

  datatype Secret = Text(text: string) | Bytes(bytes: seq<int>)

  datatype Options = Options(
    tools: set<string>,
    maxSteps: Option<real>,
    maxToolCalls: Option<real>,
    hasSignal: bool,
    toolTimeoutMs: Option<real>,
    initial: Settings,
    stopWhen: seq<StopCondition>,
    secret: Option<Secret>)

  function MaxSteps(opts: Options): (n: nat)
    ensures n >= 1
  {
    var n := opts.maxSteps.GetOr(10.0).Floor;
    if n < 1 then 1 else n
  }

  function MaxToolCalls(opts: Options): (n: nat) {
    var n := opts.maxToolCalls.GetOr(50.0).Floor;
    if n < 0 then 0 else n
  }

  /** A secret of bytes is one even when it is empty. */
  predicate HasSecret(opts: Options) {
    match opts.secret
    case None => false
    case Some(Text(s)) => s != ""
    case Some(Bytes(_)) => true
  }

  predicate HasTimer(opts: Options) {
    opts.toolTimeoutMs.GetOr(30000.0) > 0.0
  }

  /** Everything the outside world contributes to the handling of one tool call.  A
      callback that was not supplied is one that answers without effect: no approver and
      no `needsApproval` answer `false`, no `refineInput` answers the input unchanged. */
  datatype CallEnv = CallEnv(
    aborted: bool,
    refined: Answer<Value>,
    computedApproval: Answer<Option<Decision>>,
    onToolStart: Answer<()>,
    firstStamp: (int, string),
    secondStamp: (int, string),
    approver: Answer<bool>,
    needsApproval: Answer<bool>,
    execute: Answer<Value>,
    onToolEnd: Answer<()>)

  /** Everything the outside world contributes to a run, indexed by step and, inside a
      step, by position in its list of tool calls or stop conditions. */
  datatype Env = Env(
    onStart: Answer<()>,
    aborted: nat -> bool,
    onStepStart: nat -> Answer<()>,
    prepareStep: nat -> Answer<Option<Settings>>,
    runStep: nat -> Answer<StepResult>,
    call: (nat, nat) -> CallEnv,
    onStepEnd: nat -> Answer<()>,
    onStepFinish: nat -> Answer<()>,
    condition: (nat, nat) -> Answer<bool>,
    onEnd: Answer<()>,
    mac: (Secret, Payload) -> string,
    digest: Value -> string)

  // ---- what a run does ----

  /** The state passed to callbacks and returned. */
  datatype LoopState = LoopState(
    step: nat,
    steps: seq<GenerationStep>,
    toolResults: seq<ToolResult>,
    usage: AIUsage,
    runtime: Option<Value>,
    providerOptions: Option<Value>)

  /** What can be observed of a run, in order.  `Armed` and `Released` are the set-up and
      the `finally` of one tool call: its timer and its abort listener. */
  datatype Event =
    | Started(maxSteps: nat)
    | StepStarted(step: nat, before: LoopState)
    | Prepared(step: nat)
    | RanStep(step: nat, state: LoopState)
    | Armed(id: string, timer: bool, listener: bool)
    | Resolved(step: nat, id: string, decision: Decision)
    | ToolStarted(step: nat, id: string, input: Value)
    | Asked(id: string, signedAs: Option<ApprovalId>, approved: bool)
    | Verified(id: string, signed: ApprovalId, sent: ApprovalId, valid: bool)
    | LegacyChecked(id: string, needed: bool)
    | Executed(step: nat, call: ToolCall, runtime: Option<Value>, context: Option<Value>)
    | ToolEnded(step: nat, result: ToolResult)
    | Released(id: string, timer: bool, listener: bool)
    | StepEnded(step: nat, text: string, toolResults: seq<ToolResult>, finishReason: FinishReason, state: LoopState)
    | StepFinished(step: nat)
    | Ended(text: string, toolCalls: seq<ToolCall>, finishReason: FinishReason, state: LoopState)

  datatype Thrown =
    | AbortedBySignal
    | ByCallback(error: string)
    | BudgetExceeded
    | SignatureRejected(name: string)
    | ApprovalRefused(name: string)

  /** The local variables of the run. */
  datatype Machine = Machine(
    settings: Settings,
    steps: seq<GenerationStep>,
    toolResults: seq<ToolResult>,
    executed: set<string>,
    usage: AIUsage,
    text: string,
    toolCallCount: nat,
    allToolCalls: seq<ToolCall>,
    lastFinishReason: Option<FinishReason>,
    approvals: nat,
    trace: seq<Event>)

  function StateOf(m: Machine, step: nat): (s: LoopState) {
    LoopState(step, m.steps, m.toolResults, m.usage, m.settings.runtime, m.settings.providerOptions)
  }

  function Log(m: Machine, e: Event): (r: Machine) {
    m.(trace := m.trace + [e])
  }

  /** A piece of the run: the variables after it, and what it threw, if it did. */
  datatype Flow = Flow(m: Machine, thrown: Option<Thrown>)

  function Await(m: Machine, answer: Answer<()>): (f: Flow) {
    Flow(m, if answer.Throws? then Some(ByCallback(answer.error)) else None)
  }

  // ---- one tool call ----

  /** What handling one tool call does to the variables. */
  datatype CallReport = CallReport(
    events: seq<Event>, approvals: nat, results: seq<ToolResult>, thrown: Option<Thrown>)

  /** The outcome of the approval switch. */
  datatype Verdict = Run | Refuse(error: ToolError, denial: Denial) | Fail(thrown: Thrown)

  datatype Gate = Gate(events: seq<Event>, approvals: nat, verdict: Verdict)

  function Sign(opts: Options, env: Env, id: ApprovalId, call: ToolCall, input: Value): (signature: string) {
    env.mac(opts.secret.GetOr(Text("")), Payload(id, call.id, call.name, env.digest(input)))
  }

  function UserGate(opts: Options, env: Env, ce: CallEnv, call: ToolCall, input: Value, approvals: nat): (g: Gate) {
    var signing := HasSecret(opts);
    var signedId := ApprovalId(ce.firstStamp.0, approvals + 1, ce.firstStamp.1);
    var sentId := ApprovalId(ce.secondStamp.0, approvals + 2, ce.secondStamp.1);
    var approvals' := if signing then approvals + 2 else approvals;
    match ce.approver
    case Throws(e) => Gate([], approvals', Fail(ByCallback(e)))
    case Answers(approved) =>
      var asked := [Asked(call.id, if signing then Some(sentId) else None, approved)];
      if !approved then
        Gate(asked, approvals', Refuse(DeniedByUser(call.name), Denial(Some("Denied by user"))))
      else if !signing then Gate(asked, approvals', Run)
      else
        var valid := Sign(opts, env, signedId, call, input) == Sign(opts, env, sentId, call, input);
        Gate(asked + [Verified(call.id, signedId, sentId, valid)], approvals',
             if valid then Run else Fail(SignatureRejected(call.name)))
  }

  function LegacyGate(ce: CallEnv, call: ToolCall, approvals: nat): (g: Gate) {
    match ce.needsApproval
    case Throws(e) => Gate([], approvals, Fail(ByCallback(e)))
    case Answers(needed) =>
      var checked := [LegacyChecked(call.id, needed)];
      if !needed then Gate(checked, approvals, Run)
      else match ce.approver
        case Throws(e) => Gate(checked, approvals, Fail(ByCallback(e)))
        case Answers(approved) =>
          Gate(checked + [Asked(call.id, None, approved)], approvals,
               if approved then Run else Fail(ApprovalRefused(call.name)))
  }

  function ApprovalGate(
    opts: Options, env: Env, ce: CallEnv, call: ToolCall, input: Value, decision: Decision, approvals: nat): (g: Gate)
  {
    match decision
    case Denied(reason) => Gate([], approvals, Refuse(DeniedByRule(call.name, reason), Denial(reason)))
    case UserApproval => UserGate(opts, env, ce, call, input, approvals)
    case Approved => Gate([], approvals, Run)
    case NotApplicable => LegacyGate(ce, call, approvals)
  }

  function ToolContext(s: Settings, name: string): (c: Option<Value>) {
    if s.toolContexts.Some? && name in s.toolContexts.value then Some(s.toolContexts.value[name]) else None
  }

  function ResultOfExecution(call: ToolCall, answer: Answer<Value>): (r: ToolResult) {
    match answer
    case Answers(v) => ToolResult(call.id, call.name, Some(v), None, None)
    case Throws(e) => ToolResult(call.id, call.name, None, Some(ExecutionFailed(e)), None)
  }

  /** The end of the `try` block: the result is recorded, then announced. */
  function Conclude(step: nat, ce: CallEnv, events: seq<Event>, approvals: nat, result: ToolResult): (r: CallReport) {
    CallReport(events + [ToolEnded(step, result)], approvals, [result],
               if ce.onToolEnd.Throws? then Some(ByCallback(ce.onToolEnd.error)) else None)
  }

  function AfterGate(s: Settings, ce: CallEnv, step: nat, call: ToolCall, input: Value, before: seq<Event>, g: Gate): (r: CallReport) {
    var events := before + g.events;
    match g.verdict
    case Fail(t) => CallReport(events, g.approvals, [], Some(t))
    case Refuse(error, denial) =>
      Conclude(step, ce, events, g.approvals, ToolResult(call.id, call.name, None, Some(error), Some(denial)))
    case Run =>
      var executed := Executed(step, call.(input := input), s.runtime, ToolContext(s, call.name));
      Conclude(step, ce, events + [executed], g.approvals, ResultOfExecution(call, ce.execute))
  }

  /** The `try` block for one call. */
  function TryCall(opts: Options, env: Env, s: Settings, ce: CallEnv, step: nat, call: ToolCall, approvals: nat): (r: CallReport) {
    match ce.refined
    case Throws(e) => CallReport([], approvals, [], Some(ByCallback(e)))
    case Answers(input) =>
      match ResolveToolApproval(s.toolApproval, call.name, ce.computedApproval)
      case Throws(e) => CallReport([], approvals, [], Some(ByCallback(e)))
      case Answers(decision) =>
        var openings := [Resolved(step, call.id, decision), ToolStarted(step, call.id, input)];
        if ce.onToolStart.Throws? then CallReport(openings, approvals, [], Some(ByCallback(ce.onToolStart.error)))
        else AfterGate(s, ce, step, call, input, openings,
                       ApprovalGate(opts, env, ce, call, input, decision, approvals))
  }

  function HasListener(opts: Options, ce: CallEnv): (b: bool) {
    opts.hasSignal && !ce.aborted
  }

  /** One call of a registered and allowed tool: set-up, `try` block, `finally`. */
  function HandleCall(opts: Options, env: Env, s: Settings, ce: CallEnv, step: nat, call: ToolCall, approvals: nat): (r: CallReport) {
    var body := TryCall(opts, env, s, ce, step, call, approvals);
    body.(events :=
      [Armed(call.id, HasTimer(opts), HasListener(opts, ce))] + body.events
      + [Released(call.id, HasTimer(opts), opts.hasSignal)])
  }

  predicate ToolAllowed(opts: Options, s: Settings, name: string) {
    name in opts.tools && (s.allowTools.Some? ==> name in s.allowTools.value)
  }

  /** The body of the loop over `latest.toolCalls`. */
  function CallStep(opts: Options, env: Env, step: nat, k: nat, call: ToolCall, m: Machine): (f: Flow) {
    if call.id in m.executed then Flow(m, None)
    else
      var m := m.(executed := m.executed + {call.id}, toolCallCount := m.toolCallCount + 1);
      if m.toolCallCount > MaxToolCalls(opts) then Flow(m, Some(BudgetExceeded))
      else
        var m := m.(allToolCalls := m.allToolCalls + [call]);
        if !ToolAllowed(opts, m.settings, call.name) then
          Flow(m.(toolResults := m.toolResults
                  + [ToolResult(call.id, call.name, None, Some(NotAllowed(call.name)), None)]), None)
        else
          var r := HandleCall(opts, env, m.settings, env.call(step, k), step, call, m.approvals);
          Flow(m.(toolResults := m.toolResults + r.results, approvals := r.approvals, trace := m.trace + r.events),
               r.thrown)
  }

  /** The first `k` tool calls of a step, handled one after another. */
  function CallsUpTo(opts: Options, env: Env, step: nat, calls: seq<ToolCall>, k: nat, m: Machine): (f: Flow)
    requires k <= |calls|
  {
    if k == 0 then Flow(m, None)
    else
      var f := CallsUpTo(opts, env, step, calls, k - 1, m);
      if f.thrown.Some? then f else CallStep(opts, env, step, k - 1, calls[k - 1], f.m)
  }

  // ---- one step ----

  function Override(s: Settings, o: Option<Settings>): (r: Settings) {
    match o
    case None => s
    case Some(p) => Settings(
      if p.allowTools.Some? then p.allowTools else s.allowTools,
      if p.runtime.Some? then p.runtime else s.runtime,
      if p.toolContexts.Some? then p.toolContexts else s.toolContexts,
      if p.toolApproval.Some? then p.toolApproval else s.toolApproval,
      if p.providerOptions.Some? then p.providerOptions else s.providerOptions)
  }

  /** From the top of the loop body until `runStep` has been called. */
  function Prologue(opts: Options, env: Env, i: nat, m: Machine): (f: Flow) {
    if opts.hasSignal && env.aborted(i) then Flow(m, Some(AbortedBySignal))
    else
      var m := Log(m, StepStarted(i, StateOf(m, i)));
      if env.onStepStart(i).Throws? then Await(m, env.onStepStart(i))
      else
        var m := Log(m, Prepared(i));
        match env.prepareStep(i)
        case Throws(e) => Flow(m, Some(ByCallback(e)))
        case Answers(o) =>
          var m := m.(settings := Override(m.settings, o));
          var m := Log(m, RanStep(i, StateOf(m, i)));
          Flow(m, if env.runStep(i).Throws? then Some(ByCallback(env.runStep(i).error)) else None)
  }

  /** What the answer of `runStep` adds to the accumulators. */
  function Absorb(m: Machine, i: nat, latest: StepResult): (r: Machine) {
    var reason := latest.finishReason.GetOr(Unknown);
    m.(lastFinishReason := Some(reason),
       usage := AddUsage(m.usage, latest.usage),
       text := m.text + latest.text,
       steps := m.steps + [GenerationStep(i, latest.text, latest.usage.GetOr(EMPTY), reason)])
  }

  function FloorAtLeast1(count: real): (n: nat) {
    if count.Floor < 1 then 1 else count.Floor
  }

  function CheckCondition(c: StopCondition, steps: nat, latest: StepResult, custom: Answer<bool>): (r: Answer<bool>) {
    match c
    case AfterSteps(count) => Answers(steps >= FloorAtLeast1(count))
    case OnFinishReason(reasons) => Answers(latest.finishReason.Some? && latest.finishReason.value in reasons)
    case Custom => custom
  }

  /** `Promise.all` over the conditions, then `some(Boolean)`, for the first `k` of them. */
  function CheckConditions(opts: Options, env: Env, i: nat, latest: StepResult, k: nat): (r: Answer<bool>)
    requires k <= |opts.stopWhen|
  {
    if k == 0 then Answers(false)
    else
      var before := CheckConditions(opts, env, i, latest, k - 1);
      if before.Throws? then before
      else
        var c := CheckCondition(opts.stopWhen[k - 1], i + 1, latest, env.condition(i, k - 1));
        if c.Throws? then c else Answers(before.value || c.value)
  }

  predicate NothingPending(latest: StepResult) {
    latest.toolCalls == [] && latest.finishReason != Some(ToolCalls)
  }

  datatype Status =
    | Running(m: Machine)
    | Returned(m: Machine, state: LoopState)
    | Failed(m: Machine, thrown: Thrown)

  function Finish(env: Env, m: Machine, state: LoopState): (s: Status) {
    var m := Log(m, Ended(m.text, m.allToolCalls, m.lastFinishReason.GetOr(Unknown), state));
    if env.onEnd.Throws? then Failed(m, ByCallback(env.onEnd.error)) else Returned(m, state)
  }

  /** After the tool calls: the callbacks and the stop test. */
  function Epilogue(opts: Options, env: Env, i: nat, latest: StepResult, before: seq<ToolResult>, m: Machine): (s: Status) {
    var state := StateOf(m, i + 1);
    var m := Log(m, StepEnded(i, latest.text, before, m.lastFinishReason.GetOr(Unknown), state));
    if env.onStepEnd(i).Throws? then Failed(m, ByCallback(env.onStepEnd(i).error))
    else
      var m := Log(m, StepFinished(i));
      if env.onStepFinish(i).Throws? then Failed(m, ByCallback(env.onStepFinish(i).error))
      else match CheckConditions(opts, env, i, latest, |opts.stopWhen|)
        case Throws(e) => Failed(m, ByCallback(e))
        case Answers(stop) => if stop || NothingPending(latest) then Finish(env, m, state) else Running(m)
  }

  /** One iteration of the outer loop. */
  function StepBody(opts: Options, env: Env, i: nat, m: Machine): (s: Status) {
    var p := Prologue(opts, env, i, m);
    if p.thrown.Some? then Failed(p.m, p.thrown.value)
    else if env.runStep(i).Throws? then Failed(p.m, ByCallback(env.runStep(i).error))
    else
      var latest := env.runStep(i).value;
      var f := CallsUpTo(opts, env, i, latest.toolCalls, |latest.toolCalls|, Absorb(p.m, i, latest));
      if f.thrown.Some? then Failed(f.m, f.thrown.value)
      else Epilogue(opts, env, i, latest, m.toolResults, f.m)
  }

  function Initial(opts: Options, approvals: nat): (m: Machine) {
    Machine(opts.initial, [], [], {}, EMPTY, "", 0, [], None, approvals, [])
  }

  /** The run after `n` iterations of the outer loop, if it gets that far. */
  function After(opts: Options, env: Env, approvals: nat, n: nat): (s: Status) {
    if n == 0 then
      var m := Log(Initial(opts, approvals), Started(MaxSteps(opts)));
      if env.onStart.Throws? then Failed(m, ByCallback(env.onStart.error)) else Running(m)
    else
      var s := After(opts, env, approvals, n - 1);
      if s.Running? then StepBody(opts, env, n - 1, s.m) else s
  }

  /** A whole run of `runAgentLoop`; `approvals` is the approval-id counter it starts from. */
  function WholeRun(opts: Options, env: Env, approvals: nat): (s: Status) {
    var s := After(opts, env, approvals, MaxSteps(opts));
    if s.Running? then Finish(env, s.m, StateOf(s.m, MaxSteps(opts))) else s
  }
}
