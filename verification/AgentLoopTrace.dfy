/** The protocol a run of `runAgentLoop` keeps, as an automaton over its events that knows
    nothing of how the loop is written, and the proof that every run keeps it. */
module AgentLoopTrace {
  import opened Common
  import opened AgentLoopModel

  /** How far the handling of one tool call has got. */
  datatype Stage =
    | Acquired                  // timer and listener set up
    | Decided(decision: Decision)
    | Opened(decision: Decision)
    | LegacyAsking
    | Signing(sent: ApprovalId) // approved by the user, signature of what was sent still to be checked
    | Cleared                   // may execute
    | Refused                   // must not execute, but yields a result
    | Rejected                  // must not execute and the run must end
    | Ran
    | Settled

  datatype Phase =
    | Fresh
    | Between(next: nat)
    | StepOpen(step: nat)
    | StepPrepared(step: nat)
    | InStep(step: nat)
    | Holding(step: nat, id: string, timer: bool, listener: bool, stage: Stage)
    | StepClosing(step: nat)
    | Done
    | Unwound(step: nat, open: Option<string>)
    | Bad

  function NextStage(secret: bool, p: Phase, e: Event): (s: Option<Stage>)
    requires p.Holding?
  {
    match (p.stage, e)
    case (Acquired, Resolved(step, id, d)) => if step == p.step && id == p.id then Some(Decided(d)) else None
    case (Decided(d), ToolStarted(step, id, _)) => if step == p.step && id == p.id then Some(Opened(d)) else None
    case (Opened(UserApproval), Asked(id, signed, ok)) =>
      if id != p.id || signed.Some? != secret then None
      else if !ok then Some(Refused)
      else if secret then Some(Signing(signed.value))
      else Some(Cleared)
    case (Signing(sent), Verified(id, _, verified, valid)) =>
      if id != p.id || verified != sent then None else Some(if valid then Cleared else Rejected)
    case (Opened(NotApplicable), LegacyChecked(id, needed)) =>
      if id != p.id then None else Some(if needed then LegacyAsking else Cleared)
    case (LegacyAsking, Asked(id, signed, ok)) =>
      if id != p.id || signed.Some? then None else Some(if ok then Cleared else Rejected)
    case (Opened(Approved), Executed(step, call, _, _)) =>
      if step == p.step && call.id == p.id then Some(Ran) else None
    case (Cleared, Executed(step, call, _, _)) =>
      if step == p.step && call.id == p.id then Some(Ran) else None
    case (Opened(Denied(_)), ToolEnded(step, r)) => Refusal(p, step, r)
    case (Refused, ToolEnded(step, r)) => Refusal(p, step, r)
    case (Ran, ToolEnded(step, r)) =>
      if step == p.step && r.id == p.id && r.approval.None? && (r.output.Some? <==> r.error.None?)
      then Some(Settled) else None
    case _ => None
  }

  /** A refused call ends with an error, a denial record and no output. */
  function Refusal(p: Phase, step: nat, r: ToolResult): (s: Option<Stage>)
    requires p.Holding?
  {
    if step == p.step && r.id == p.id && r.output.None? && r.error.Some? && r.approval.Some?
    then Some(Settled) else None
  }

  /** Whether `onToolExecutionStart` has been announced without its end. */
  predicate IsOpen(s: Stage) {
    !s.Acquired? && !s.Decided? && !s.Settled?
  }

  /** A call that the user approved is verified if it was signed, one that may execute does,
      and an execution is recorded: nothing can throw in between. */
  predicate MustGoOn(s: Stage) {
    s.Signing? || s == Cleared || s == Ran
  }

  function Next(secret: bool, p: Phase, e: Event): (r: Phase) {
    match p
    case Fresh => if e.Started? then Between(0) else Bad
    case Between(n) =>
      if e.StepStarted? && e.step == n then StepOpen(n)
      else if e.Ended? && n >= 1 then Done
      else Bad
    case StepOpen(n) => if e.Prepared? && e.step == n then StepPrepared(n) else Bad
    case StepPrepared(n) => if e.RanStep? && e.step == n then InStep(n) else Bad
    case InStep(n) =>
      if e.Armed? then Holding(n, e.id, e.timer, e.listener, Acquired)
      else if e.StepEnded? && e.step == n then StepClosing(n)
      else Bad
    case Holding(n, id, timer, listener, stage) =>
      if e.Released? then
        if e.id != id || e.timer != timer || (listener && !e.listener) || MustGoOn(stage) then Bad
        else if stage == Settled then InStep(n)
        else Unwound(n, if IsOpen(stage) then Some(id) else None)
      else
        var s := NextStage(secret, p, e);
        if s.Some? then Holding(n, id, timer, listener, s.value) else Bad
    case StepClosing(n) => if e.StepFinished? && e.step == n then Between(n + 1) else Bad
    case _ => Bad
  }

  /** The phase reached from `p` along `trace`. */
  function Drive(secret: bool, p: Phase, trace: seq<Event>): (r: Phase) {
    if trace == [] then p
    else Next(secret, Drive(secret, p, trace[..|trace| - 1]), trace[|trace| - 1])
  }

  lemma {:induction false} DriveConcat(secret: bool, p: Phase, a: seq<Event>, b: seq<Event>)
    ensures Drive(secret, p, a + b) == Drive(secret, Drive(secret, p, a), b)
  {
    if b == [] {
      assert a + b == a;
    } else {
      assert (a + b)[..|a + b| - 1] == a + b[..|b| - 1];
      DriveConcat(secret, p, a, b[..|b| - 1]);
    }
  }

  lemma DriveSnoc(secret: bool, p: Phase, a: seq<Event>, e: Event)
    ensures Drive(secret, p, a + [e]) == Next(secret, Drive(secret, p, a), e)
  {
    assert (a + [e])[..|a|] == a;
  }

  /** Up to two events at once. */
  lemma DriveShort(secret: bool, p: Phase, a: seq<Event>, e: Event, f: Event)
    ensures Drive(secret, p, []) == p
    ensures Drive(secret, p, [e]) == Next(secret, p, e)
    ensures Drive(secret, p, [e, f]) == Next(secret, Next(secret, p, e), f)
    ensures Drive(secret, p, a + [e, f]) == Next(secret, Next(secret, Drive(secret, p, a), e), f)
  {
    assert Drive(secret, p, []) == p;
    hide Next, Drive;
    DriveSnoc(secret, p, [], e);
    DriveSnoc(secret, p, [e], f);
    DriveSnoc(secret, p, a, e);
    DriveSnoc(secret, p, a + [e], f);
    assert [] + [e] == [e] && [e] + [f] == [e, f] && a + [e] + [f] == a + [e, f];
  }

  // ---- one tool call ----

  /** The stages in which a gate with the given verdict may leave the automaton. */
  predicate StageFits(decision: Decision, v: Verdict, s: Stage) {
    match v
    case Run => s == Cleared || (decision.Approved? && s == Opened(decision))
    case Refuse(_, _) => s == Refused || (decision.Denied? && s == Opened(decision))
    case Fail(_) => IsOpen(s) && !MustGoOn(s)
  }

  ghost predicate GatePhase(p: Phase, d: Decision, v: Verdict, q: Phase) {
    p.Holding? && q.Holding? && q.(stage := p.stage) == p && StageFits(d, v, q.stage)
  }

  lemma UserGateDrives(opts: Options, env: Env, ce: CallEnv, call: ToolCall, input: Value, approvals: nat, p: Phase)
    requires p.Holding? && p.id == call.id && p.stage == Opened(UserApproval)
    ensures
      var g := UserGate(opts, env, ce, call, input, approvals);
      GatePhase(p, UserApproval, g.verdict, Drive(HasSecret(opts), p, g.events))
  {
    hide Drive, HasSecret, Sign;
    var g := UserGate(opts, env, ce, call, input, approvals);
    if g.events == [] {
      DriveShort(HasSecret(opts), p, [], StepFinished(0), StepFinished(0));
    } else {
      DriveShort(HasSecret(opts), p, [], g.events[0], g.events[|g.events| - 1]);
      assert g.events == [g.events[0]] || g.events == [g.events[0], g.events[1]];
    }
  }

  lemma LegacyGateDrives(secret: bool, ce: CallEnv, call: ToolCall, approvals: nat, p: Phase)
    requires p.Holding? && p.id == call.id && p.stage == Opened(NotApplicable)
    ensures
      var g := LegacyGate(ce, call, approvals);
      GatePhase(p, NotApplicable, g.verdict, Drive(secret, p, g.events))
  {
    hide Drive;
    var g := LegacyGate(ce, call, approvals);
    if g.events == [] {
      DriveShort(secret, p, [], StepFinished(0), StepFinished(0));
    } else {
      DriveShort(secret, p, [], g.events[0], g.events[|g.events| - 1]);
      assert g.events == [g.events[0]] || g.events == [g.events[0], g.events[1]];
    }
  }

  lemma GateDrives(opts: Options, env: Env, ce: CallEnv, call: ToolCall, input: Value, d: Decision, approvals: nat, p: Phase)
    requires p.Holding? && p.id == call.id && p.stage == Opened(d)
    ensures
      var g := ApprovalGate(opts, env, ce, call, input, d, approvals);
      GatePhase(p, d, g.verdict, Drive(HasSecret(opts), p, g.events))
  {
    hide HasSecret, UserGate, LegacyGate;
    match d {
      case UserApproval => UserGateDrives(opts, env, ce, call, input, approvals, p);
      case NotApplicable => LegacyGateDrives(HasSecret(opts), ce, call, approvals, p);
      case _ =>
    }
  }

  /** The phase a call leaves behind just before its `finally`. */
  ghost predicate CallPhase(p: Phase, q: Phase, r: CallReport) {
    && p.Holding? && q.Holding? && q.(stage := p.stage) == p
    && (r.thrown.None? ==> q.stage == Settled)
    && !MustGoOn(q.stage)
  }

  lemma ExecutionSettles(secret: bool, q: Phase, call: ToolCall, input: Value, runtime: Option<Value>,
                         context: Option<Value>, answer: Answer<Value>)
    requires q.Holding? && q.id == call.id
    requires q.stage == Cleared || q.stage == Opened(Approved)
    ensures
      Next(secret, Next(secret, q, Executed(q.step, call.(input := input), runtime, context)),
           ToolEnded(q.step, ResultOfExecution(call, answer)))
      == q.(stage := Settled)
  {
  }

  lemma RefusalSettles(secret: bool, q: Phase, call: ToolCall, error: ToolError, denial: Denial)
    requires q.Holding? && q.id == call.id
    requires q.stage == Refused || (q.stage.Opened? && q.stage.decision.Denied?)
    ensures
      Next(secret, q, ToolEnded(q.step, ToolResult(call.id, call.name, None, Some(error), Some(denial))))
      == q.(stage := Settled)
  {
  }

  lemma AfterGateDrives(secret: bool, s: Settings, ce: CallEnv, step: nat, call: ToolCall, input: Value,
                        before: seq<Event>, d: Decision, g: Gate, p: Phase)
    requires p.Holding? && p.step == step && p.id == call.id
    requires GatePhase(p, d, g.verdict, Drive(secret, p, before + g.events))
    ensures
      var r := AfterGate(s, ce, step, call, input, before, g);
      CallPhase(p, Drive(secret, p, r.events), r)
  {
    hide Drive, Next, ResultOfExecution;
    var sofar := before + g.events;
    var q := Drive(secret, p, sofar);
    var r := AfterGate(s, ce, step, call, input, before, g);
    match g.verdict {
      case Fail(_) =>
      case Refuse(error, denial) =>
        RefusalSettles(secret, q, call, error, denial);
        DriveSnoc(secret, p, sofar, ToolEnded(step, ToolResult(call.id, call.name, None, Some(error), Some(denial))));
      case Run =>
        var context := ToolContext(s, call.name);
        ExecutionSettles(secret, q, call, input, s.runtime, context, ce.execute);
        var executed := Executed(step, call.(input := input), s.runtime, context);
        var ended := ToolEnded(step, ResultOfExecution(call, ce.execute));
        DriveShort(secret, p, sofar, executed, ended);
        assert r.events == sofar + [executed, ended];
    }
  }

  lemma TryCallDrives(opts: Options, env: Env, s: Settings, ce: CallEnv, step: nat, call: ToolCall, approvals: nat, p: Phase)
    requires p.Holding? && p.step == step && p.id == call.id && p.stage == Acquired
    ensures
      var r := TryCall(opts, env, s, ce, step, call, approvals);
      CallPhase(p, Drive(HasSecret(opts), p, r.events), r)
  {
    hide ApprovalGate, AfterGate, Drive, HasSecret, ResolveToolApproval;
    var secret := HasSecret(opts);
    DriveShort(secret, p, [], StepFinished(0), StepFinished(0));
    if ce.refined.Answers? {
      var input := ce.refined.value;
      var resolved := ResolveToolApproval(s.toolApproval, call.name, ce.computedApproval);
      if resolved.Answers? {
        var d := resolved.value;
        var openings := [Resolved(step, call.id, d), ToolStarted(step, call.id, input)];
        DriveShort(secret, p, [], openings[0], openings[1]);
        var q := p.(stage := Opened(d));
        assert Drive(secret, p, openings) == q;
        var g := ApprovalGate(opts, env, ce, call, input, d, approvals);
        GateDrives(opts, env, ce, call, input, d, approvals, q);
        DriveConcat(secret, p, openings, g.events);
        AfterGateDrives(secret, s, ce, step, call, input, openings, d, g, p);
      }
    }
  }

  lemma HandleCallDrives(opts: Options, env: Env, s: Settings, ce: CallEnv, step: nat, call: ToolCall, approvals: nat)
    ensures
      var r := HandleCall(opts, env, s, ce, step, call, approvals);
      var q := Drive(HasSecret(opts), InStep(step), r.events);
      q == InStep(step) || (r.thrown.Some? && q.Unwound? && q.step == step)
  {
    hide TryCall, Drive, HasSecret, HasTimer;
    var secret := HasSecret(opts);
    var armed := Armed(call.id, HasTimer(opts), HasListener(opts, ce));
    var released := Released(call.id, HasTimer(opts), opts.hasSignal);
    var body := TryCall(opts, env, s, ce, step, call, approvals);
    var p := Holding(step, call.id, HasTimer(opts), HasListener(opts, ce), Acquired);
    DriveShort(secret, InStep(step), [], armed, armed);
    TryCallDrives(opts, env, s, ce, step, call, approvals, p);
    DriveConcat(secret, InStep(step), [armed], body.events);
    DriveSnoc(secret, InStep(step), [armed] + body.events, released);
  }

  // ---- whole runs ----

  /** The phase a run is in after the events it has logged. */
  function PhaseOf(opts: Options, m: Machine): (p: Phase) {
    Drive(HasSecret(opts), Fresh, m.trace)
  }

  lemma LogDrives(opts: Options, m: Machine, e: Event)
    ensures PhaseOf(opts, Log(m, e)) == Next(HasSecret(opts), PhaseOf(opts, m), e)
  {
    DriveSnoc(HasSecret(opts), Fresh, m.trace, e);
  }

  lemma CallStepDrives(opts: Options, env: Env, step: nat, k: nat, call: ToolCall, m: Machine)
    requires PhaseOf(opts, m) == InStep(step)
    ensures
      var f := CallStep(opts, env, step, k, call, m);
      var q := PhaseOf(opts, f.m);
      q == InStep(step) || (f.thrown.Some? && q.Unwound? && q.step == step)
  {
    hide HandleCall, Drive, HasSecret;
    var r := HandleCall(opts, env, m.settings, env.call(step, k), step, call, m.approvals);
    HandleCallDrives(opts, env, m.settings, env.call(step, k), step, call, m.approvals);
    DriveConcat(HasSecret(opts), Fresh, m.trace, r.events);
  }

  lemma {:induction false} CallsUpToDrives(opts: Options, env: Env, step: nat, calls: seq<ToolCall>, k: nat, m: Machine)
    requires k <= |calls|
    requires PhaseOf(opts, m) == InStep(step)
    ensures
      var f := CallsUpTo(opts, env, step, calls, k, m);
      var q := PhaseOf(opts, f.m);
      q == InStep(step) || (f.thrown.Some? && q.Unwound? && q.step == step)
  {
    hide CallStep, PhaseOf;
    if k > 0 {
      CallsUpToDrives(opts, env, step, calls, k - 1, m);
      var f := CallsUpTo(opts, env, step, calls, k - 1, m);
      if f.thrown.None? { CallStepDrives(opts, env, step, k - 1, calls[k - 1], f.m); }
    }
  }

  lemma PrologueDrives(opts: Options, env: Env, i: nat, m: Machine)
    requires PhaseOf(opts, m) == Between(i)
    ensures
      var f := Prologue(opts, env, i, m);
      var q := PhaseOf(opts, f.m);
      q == InStep(i) || (f.thrown.Some? && q in {Between(i), StepOpen(i), StepPrepared(i)})
  {
    hide PhaseOf, HasSecret;
    var m1 := Log(m, StepStarted(i, StateOf(m, i)));
    LogDrives(opts, m, StepStarted(i, StateOf(m, i)));
    var m2 := Log(m1, Prepared(i));
    LogDrives(opts, m1, Prepared(i));
    if env.prepareStep(i).Answers? {
      var m3 := m2.(settings := Override(m2.settings, env.prepareStep(i).value));
      SameTraceSamePhase(opts, m2, m3);
      LogDrives(opts, m3, RanStep(i, StateOf(m3, i)));
    }
  }

  lemma SameTraceSamePhase(opts: Options, m: Machine, m': Machine)
    requires m.trace == m'.trace
    ensures PhaseOf(opts, m) == PhaseOf(opts, m')
  {
  }

  /** The phase of a run that has been left in status `s` while in iteration `i`. */
  ghost predicate StatusPhase(opts: Options, env: Env, i: nat, s: Status) {
    match s
    case Running(m) => PhaseOf(opts, m) == Between(i)
    case Returned(m, _) => PhaseOf(opts, m) == Done && env.onEnd.Answers?
    case Failed(m, _) =>
      var q := PhaseOf(opts, m);
      && q != Bad && !q.Holding?
      && (q == Done ==> env.onEnd.Throws?)
  }

  lemma FinishDrives(opts: Options, env: Env, n: nat, m: Machine, state: LoopState)
    requires PhaseOf(opts, m) == Between(n) && n >= 1
    ensures StatusPhase(opts, env, n, Finish(env, m, state))
  {
    hide PhaseOf, HasSecret;
    LogDrives(opts, m, Ended(m.text, m.allToolCalls, m.lastFinishReason.GetOr(Unknown), state));
  }

  lemma EpilogueDrives(opts: Options, env: Env, i: nat, latest: StepResult, before: seq<ToolResult>, m: Machine)
    requires PhaseOf(opts, m) == InStep(i)
    ensures StatusPhase(opts, env, i + 1, Epilogue(opts, env, i, latest, before, m))
  {
    hide PhaseOf, HasSecret, CheckConditions;
    var e := StepEnded(i, latest.text, before, m.lastFinishReason.GetOr(Unknown), StateOf(m, i + 1));
    LogDrives(opts, m, e);
    var m1 := Log(m, e);
    LogDrives(opts, m1, StepFinished(i));
    FinishDrives(opts, env, i + 1, Log(m1, StepFinished(i)), StateOf(m, i + 1));
  }

  lemma StepBodyDrives(opts: Options, env: Env, i: nat, m: Machine)
    requires PhaseOf(opts, m) == Between(i)
    ensures StatusPhase(opts, env, i + 1, StepBody(opts, env, i, m))
  {
    hide PhaseOf, CallsUpTo, Prologue, Epilogue;
    PrologueDrives(opts, env, i, m);
    var p := Prologue(opts, env, i, m);
    if p.thrown.None? && env.runStep(i).Answers? {
      var latest := env.runStep(i).value;
      var m1 := Absorb(p.m, i, latest);
      SameTraceSamePhase(opts, p.m, m1);
      CallsUpToDrives(opts, env, i, latest.toolCalls, |latest.toolCalls|, m1);
      var f := CallsUpTo(opts, env, i, latest.toolCalls, |latest.toolCalls|, m1);
      if f.thrown.None? { EpilogueDrives(opts, env, i, latest, m.toolResults, f.m); }
    }
  }

  lemma StartDrives(opts: Options, approvals: nat)
    ensures PhaseOf(opts, Log(Initial(opts, approvals), Started(MaxSteps(opts)))) == Between(0)
  {
    hide HasSecret, MaxSteps;
    LogDrives(opts, Initial(opts, approvals), Started(MaxSteps(opts)));
  }

  lemma {:induction false} AfterDrives(opts: Options, env: Env, approvals: nat, n: nat)
    ensures StatusPhase(opts, env, n, After(opts, env, approvals, n))
  {
    hide StepBody, PhaseOf, MaxSteps;
    if n == 0 {
      StartDrives(opts, approvals);
    } else {
      AfterDrives(opts, env, approvals, n - 1);
      var s := After(opts, env, approvals, n - 1);
      if s.Running? { StepBodyDrives(opts, env, n - 1, s.m); }
    }
  }

  /** Every run keeps the protocol.  A run that returns has played it to the end; a run
      that throws stops in a legal phase, has announced `onEnd` only when `onEnd` itself
      threw, and in either case no timer and no abort listener is left behind. */
  lemma RunKeepsProtocol(opts: Options, env: Env, approvals: nat)
    ensures
      var s := WholeRun(opts, env, approvals);
      var q := PhaseOf(opts, s.m);
      && !s.Running?
      && q != Bad
      && !q.Holding?
      && (q == Done <==> s.Returned? || (exists e :: e in s.m.trace && e.Ended?))
      && (q == Done && s.Failed? ==> env.onEnd.Throws?)
  {
    hide After;
    AfterDrives(opts, env, approvals, MaxSteps(opts));
    var s := After(opts, env, approvals, MaxSteps(opts));
    if s.Running? {
      FinishDrives(opts, env, MaxSteps(opts), s.m, StateOf(s.m, MaxSteps(opts)));
    }
    EndedMeansDone(HasSecret(opts), WholeRun(opts, env, approvals).m.trace);
  }

  /** Along a legal trace `onEnd` comes once, and last. */
  lemma {:induction false} EndedMeansDone(secret: bool, trace: seq<Event>)
    requires Drive(secret, Fresh, trace) != Bad
    ensures Drive(secret, Fresh, trace) == Done <==> exists e :: e in trace && e.Ended?
    ensures forall i :: 0 <= i < |trace| && trace[i].Ended? ==> i == |trace| - 1
  {
    if trace != [] {
      var front, last := trace[..|trace| - 1], trace[|trace| - 1];
      EndedMeansDone(secret, front);
      OnlyEndedIsDone(secret, Drive(secret, Fresh, front), last);
      hide Next;
      assert trace == front + [last];
      assert last in trace;
    }
  }

  lemma OnlyEndedIsDone(secret: bool, p: Phase, e: Event)
    requires Next(secret, p, e) != Bad
    ensures p != Done && (Next(secret, p, e) == Done <==> e.Ended?)
  {
    hide Refusal, IsOpen;
  }

  // ---- the callbacks alone ----

  /** The lifecycle callbacks, without what happens inside a tool call. */
  datatype Callback =
    | OnStart
    | OnStepStart(step: nat)
    | RunStep(step: nat)
    | OnToolStart(step: nat, id: string)
    | OnToolEnd(step: nat, id: string)
    | OnStepEnd(step: nat)
    | OnStepFinish(step: nat)
    | OnEnd

  function CallbackOf(e: Event): (c: Option<Callback>) {
    match e
    case Started(_) => Some(OnStart)
    case StepStarted(i, _) => Some(OnStepStart(i))
    case RanStep(i, _) => Some(RunStep(i))
    case ToolStarted(i, id, _) => Some(OnToolStart(i, id))
    case ToolEnded(i, r) => Some(OnToolEnd(i, r.id))
    case StepEnded(i, _, _, _, _) => Some(OnStepEnd(i))
    case StepFinished(i) => Some(OnStepFinish(i))
    case Ended(_, _, _, _) => Some(OnEnd)
    case _ => None
  }

  function Lifecycle(trace: seq<Event>): (r: seq<Callback>) {
    if trace == [] then []
    else
      var front := Lifecycle(trace[..|trace| - 1]);
      var c := CallbackOf(trace[|trace| - 1]);
      if c.Some? then front + [c.value] else front
  }

  datatype Spot =
    | NotStarted
    | BetweenSteps(next: nat)
    | StepStart(step: nat)
    | Active(step: nat)
    | InTool(step: nat, id: string)
    | StepEnd(step: nat)
    | Over
    | Illegal

  /** The grammar of the callbacks: one `onStart`; per step, in order, `onStepStart`,
      `runStep`, matched tool start/end pairs with the same call id, `onStepEnd`,
      `onStepFinish`; after at least one step, `onEnd`. */
  function Move(s: Spot, c: Callback): (r: Spot) {
    match (s, c)
    case (NotStarted, OnStart) => BetweenSteps(0)
    case (BetweenSteps(n), OnStepStart(i)) => if i == n then StepStart(n) else Illegal
    case (BetweenSteps(n), OnEnd) => if n >= 1 then Over else Illegal
    case (StepStart(n), RunStep(i)) => if i == n then Active(n) else Illegal
    case (Active(n), OnToolStart(i, id)) => if i == n then InTool(n, id) else Illegal
    case (InTool(n, id), OnToolEnd(i, id')) => if i == n && id == id' then Active(n) else Illegal
    case (Active(n), OnStepEnd(i)) => if i == n then StepEnd(n) else Illegal
    case (StepEnd(n), OnStepFinish(i)) => if i == n then BetweenSteps(n + 1) else Illegal
    case _ => Illegal
  }

  function Play(s: Spot, cs: seq<Callback>): (r: Spot) {
    if cs == [] then s else Move(Play(s, cs[..|cs| - 1]), cs[|cs| - 1])
  }

  /** A complete sequence of callbacks. */
  predicate InGrammar(cs: seq<Callback>) {
    Play(NotStarted, cs) == Over
  }

  /** What the callbacks alone show of a phase. */
  function SpotOf(p: Phase): (s: Spot) {
    match p
    case Fresh => NotStarted
    case Between(n) => BetweenSteps(n)
    case StepOpen(n) => StepStart(n)
    case StepPrepared(n) => StepStart(n)
    case InStep(n) => Active(n)
    case Holding(n, id, _, _, stage) => if IsOpen(stage) then InTool(n, id) else Active(n)
    case StepClosing(n) => StepEnd(n)
    case Done => Over
    case Unwound(n, open) => if open.Some? then InTool(n, open.value) else Active(n)
    case Bad => Illegal
  }

  lemma NextShows(secret: bool, p: Phase, e: Event)
    requires Next(secret, p, e) != Bad
    ensures
      SpotOf(Next(secret, p, e)) ==
      match CallbackOf(e) case Some(c) => Move(SpotOf(p), c) case None => SpotOf(p)
  {
  }

  lemma {:induction false} LifecyclePlays(secret: bool, trace: seq<Event>)
    requires Drive(secret, Fresh, trace) != Bad
    ensures Play(NotStarted, Lifecycle(trace)) == SpotOf(Drive(secret, Fresh, trace))
  {
    if trace != [] {
      var front, e := trace[..|trace| - 1], trace[|trace| - 1];
      LifecyclePlays(secret, front);
      NextShows(secret, Drive(secret, Fresh, front), e);
      if CallbackOf(e).Some? {
        var c := CallbackOf(e).value;
        assert (Lifecycle(front) + [c])[..|Lifecycle(front)|] == Lifecycle(front);
      }
    }
  }

  lemma {:induction false} PlayConcat(s: Spot, a: seq<Callback>, b: seq<Callback>)
    ensures Play(s, a + b) == Play(Play(s, a), b)
  {
    if b == [] {
      assert a + b == a;
    } else {
      assert (a + b)[..|a + b| - 1] == a + b[..|b| - 1];
      PlayConcat(s, a, b[..|b| - 1]);
    }
  }

  lemma PlayOneMore(s: Spot, c: Callback, rest: seq<Callback>)
    ensures Play(s, [c] + rest) == Play(Move(s, c), rest)
  {
    PlayConcat(s, [c], rest);
    assert [c][..0] == [];
  }

  /** Every spot that is not illegal is on the way to a complete sequence. */
  lemma EverySpotCompletes(s: Spot) returns (rest: seq<Callback>)
    requires s != Illegal
    ensures Play(s, rest) == Over
    decreases match s
      case Over => 0
      case BetweenSteps(n) => if n >= 1 then 1 else 6
      case StepEnd(_) => 2
      case Active(_) => 3
      case InTool(_, _) => 4
      case StepStart(_) => 5
      case _ => 7
  {
    if s == Over { return []; }
    var c := match s
      case NotStarted => OnStart
      case BetweenSteps(n) => if n >= 1 then OnEnd else OnStepStart(n)
      case StepStart(n) => RunStep(n)
      case Active(n) => OnStepEnd(n)
      case InTool(n, id) => OnToolEnd(n, id)
      case StepEnd(n) => OnStepFinish(n)
      case Over => OnEnd;
    var more := EverySpotCompletes(Move(s, c));
    PlayOneMore(s, c, more);
    rest := [c] + more;
  }

  /** The callbacks of a run that returns are exactly a sentence of the grammar; those of
      a run that throws are a prefix of one, and a proper prefix unless `onEnd` threw. */
  lemma CallbacksFollowGrammar(opts: Options, env: Env, approvals: nat)
    ensures
      var s := WholeRun(opts, env, approvals);
      var cs := Lifecycle(s.m.trace);
      && (s.Returned? ==> InGrammar(cs))
      && (s.Failed? && env.onEnd.Answers? ==> !InGrammar(cs) && OnEnd !in cs)
      && (exists rest :: InGrammar(cs + rest))
  {
    hide WholeRun;
    var s := WholeRun(opts, env, approvals);
    RunKeepsProtocol(opts, env, approvals);
    var cs, q := Lifecycle(s.m.trace), PhaseOf(opts, s.m);
    LifecyclePlays(HasSecret(opts), s.m.trace);
    var rest := EverySpotCompletes(SpotOf(q));
    PlayConcat(NotStarted, cs, rest);
    assert InGrammar(cs + rest);
    LifecycleEnds(s.m.trace);
  }

  lemma {:induction false} LifecycleEnds(trace: seq<Event>)
    ensures OnEnd in Lifecycle(trace) <==> exists e :: e in trace && e.Ended?
  {
    if trace != [] {
      var front, last := trace[..|trace| - 1], trace[|trace| - 1];
      LifecycleEnds(front);
      assert trace == front + [last];
      if e :| e in trace && e.Ended? { assert e == last || e in front; }
      if OnEnd in Lifecycle(trace) {
        if OnEnd in Lifecycle(front) {
          var e :| e in front && e.Ended?;
          assert e in trace;
        } else {
          assert last in trace;
        }
      }
    }
  }
}
