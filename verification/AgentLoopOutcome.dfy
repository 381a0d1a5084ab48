/** Why a run ends as it does: what must not have thrown in a run that returns, and what threw
    in a run that does not (packages/agent/src/agent-loop.ts:104-303). */
module AgentLoopOutcome {
  import opened Common
  import opened AgentLoopModel
  import opened AgentLoopCounts
  import opened AgentLoopGates
  import opened AgentLoopFates
  import opened AgentLoopBudget

  /** Apart from its calls, nothing in step `i` throws: the signal has not been aborted, and no
      callback of the step and no condition throws. */
  ghost predicate StepGoesOn(opts: Options, env: Env, i: nat) {
    && !(opts.hasSignal && env.aborted(i))
    && env.onStepStart(i).Answers? && env.prepareStep(i).Answers? && env.runStep(i).Answers?
    && env.onStepEnd(i).Answers? && env.onStepFinish(i).Answers?
    && (forall c :: 0 <= c < |opts.stopWhen| && opts.stopWhen[c] == Custom ==> env.condition(i, c).Answers?)
  }

  /** Something in step `i` throws this. */
  ghost predicate StepThrows(opts: Options, env: Env, i: nat, t: Thrown) {
    || (t == AbortedBySignal && opts.hasSignal && env.aborted(i))
    || (t.ByCallback? && StepCallbackThrows(opts, env, i, t.error))
    || (t == BudgetExceeded && exists k: nat :: Exceeds(opts, env, i, k))
    || (exists k: nat :: EndsAt(opts, env, i, k, t))
  }

  predicate StepCallbackThrows(opts: Options, env: Env, i: nat, e: string) {
    || env.onStepStart(i) == Throws(e) || env.prepareStep(i) == Throws(e) || env.runStep(i) == Throws(e)
    || env.onStepEnd(i) == Throws(e) || env.onStepFinish(i) == Throws(e)
    || (exists c :: 0 <= c < |opts.stopWhen| && opts.stopWhen[c] == Custom && env.condition(i, c) == Throws(e))
  }

  lemma {:induction false} ConditionsThrow(opts: Options, env: Env, i: nat, latest: StepResult, k: nat)
    requires k <= |opts.stopWhen|
    ensures
      var r := CheckConditions(opts, env, i, latest, k);
      && (r.Answers? ==> forall c :: 0 <= c < k && opts.stopWhen[c] == Custom ==> env.condition(i, c).Answers?)
      && (r.Throws? ==> exists c :: 0 <= c < k && opts.stopWhen[c] == Custom && env.condition(i, c) == Throws(r.error))
  {
    if k > 0 { ConditionsThrow(opts, env, i, latest, k - 1); }
  }

  /** What a status after `n` steps says of its causes. */
  ghost predicate StatusExplained(opts: Options, env: Env, n: nat, s: Status) {
    match s
    case Running(_) => env.onStart.Answers? && forall i: nat :: i < n ==> StepGoesOn(opts, env, i)
    case Returned(_, state) =>
      env.onStart.Answers? && env.onEnd.Answers? && forall i: nat :: i < state.step ==> StepGoesOn(opts, env, i)
    case Failed(_, t) =>
      || (t.ByCallback? && (env.onStart == Throws(t.error) || env.onEnd == Throws(t.error)))
      || exists i: nat :: i < n && StepThrows(opts, env, i, t)
  }

  lemma EpilogueExplained(opts: Options, env: Env, i: nat, latest: StepResult, before: seq<ToolResult>, m: Machine)
    requires env.onStart.Answers? && forall j: nat :: j < i ==> StepGoesOn(opts, env, j)
    requires !(opts.hasSignal && env.aborted(i))
    requires env.onStepStart(i).Answers? && env.prepareStep(i).Answers? && env.runStep(i).Answers?
    ensures StatusExplained(opts, env, i + 1, Epilogue(opts, env, i, latest, before, m))
  {
    hide CheckConditions, EndsAt, Exceeds;
    ConditionsThrow(opts, env, i, latest, |opts.stopWhen|);
    var s := Epilogue(opts, env, i, latest, before, m);
    if s.Failed? {
      assert StepThrows(opts, env, i, s.thrown) || env.onEnd.Throws?;
    } else {
      assert StepGoesOn(opts, env, i);
    }
  }

  lemma PrologueExplained(opts: Options, env: Env, i: nat, m: Machine)
    ensures
      var f := Prologue(opts, env, i, m);
      && (f.thrown.None? ==>
            && !(opts.hasSignal && env.aborted(i))
            && env.onStepStart(i).Answers? && env.prepareStep(i).Answers? && env.runStep(i).Answers?)
      && (f.thrown.Some? ==> StepThrows(opts, env, i, f.thrown.value))
  {
    hide EndsAt, Exceeds;
  }

  lemma StepBodyExplained(opts: Options, env: Env, i: nat, m: Machine)
    requires env.onStart.Answers? && forall j: nat :: j < i ==> StepGoesOn(opts, env, j)
    requires m.settings == Effective(opts, env, i) && Fated(opts, env, m) && Tally(opts, m, RequestedIds(env, i))
    ensures StatusExplained(opts, env, i + 1, StepBody(opts, env, i, m))
  {
    hide Effective, Prologue, CallsUpTo, Epilogue, Fated, Tally, RequestedIds, EndsAt, Exceeds, StepGoesOn, ExecutedIds, LetsGoOnAt;
    PrologueExplained(opts, env, i, m);
    PrologueFate(opts, env, i, m);
    PrologueCounts(opts, env, i, m, RequestedIds(env, i));
    var p := Prologue(opts, env, i, m);
    if p.thrown.Some? {
      assert StepThrows(opts, env, i, p.thrown.value);
    } else {
      var latest := env.runStep(i).value;
      var m1 := Absorb(p.m, i, latest);
      AbsorbKeepsTally(opts, p.m, i, latest, RequestedIds(env, i));
      LoggingFated(opts, env, p.m, m1);
      CallsUpToFate(opts, env, i, |latest.toolCalls|, m1);
      CallsUpToBudget(opts, env, i, |latest.toolCalls|, m1);
      var f := CallsUpTo(opts, env, i, latest.toolCalls, |latest.toolCalls|, m1);
      if f.thrown.Some? {
        CallThrows(opts, env, i, |latest.toolCalls|, m1, f);
      } else {
        EpilogueExplained(opts, env, i, latest, m.toolResults, f.m);
      }
    }
  }

  lemma CallThrows(opts: Options, env: Env, i: nat, k: nat, m: Machine, f: Flow)
    requires FlowFated(opts, env, i, k, f) && f.thrown.Some? && env.runStep(i).Answers?
    requires f.thrown == Some(BudgetExceeded) ==> exists j: nat :: j < k && ExceedsAfter(opts, env, i, j, m)
    ensures StepThrows(opts, env, i, f.thrown.value)
  {
    hide EndsAt, Exceeds, Fated, CallsUpTo, Effective, LetsGoOnAt;
    if f.thrown == Some(BudgetExceeded) {
      var j: nat :| j < k && ExceedsAfter(opts, env, i, j, m);
      assert Exceeds(opts, env, i, j);
    }
  }

  lemma {:induction false} AfterExplained(opts: Options, env: Env, approvals: nat, n: nat)
    ensures StatusExplained(opts, env, n, After(opts, env, approvals, n))
  {
    hide StepBody, Fated, AllLetGoOn, Tally, RequestedIds, Effective, StepThrows, StepGoesOn;
    if n > 0 {
      AfterExplained(opts, env, approvals, n - 1);
      AfterFate(opts, env, approvals, n - 1);
      AfterCounts(opts, env, approvals, n - 1);
      var s := After(opts, env, approvals, n - 1);
      if s.Running? { StepBodyExplained(opts, env, n - 1, s.m); }
    }
  }

  /** A run that returns after `n` steps met nothing that throws on its way: neither `onStart`
      nor `onEnd`, nothing in its steps, and no call in them. */
  lemma ReturnsOnlyIfNothingThrows(opts: Options, env: Env, approvals: nat)
    ensures
      var s := WholeRun(opts, env, approvals);
      s.Returned? ==>
        && env.onStart.Answers? && env.onEnd.Answers?
        && (forall i: nat :: i < s.state.step ==> StepGoesOn(opts, env, i))
        && (forall i: nat, k: nat :: i < s.state.step ==> LetsGoOnAt(opts, env, i, k))
  {
    hide After, StepGoesOn, LetsGoOnAt, Fated, StepThrows;
    AfterExplained(opts, env, approvals, MaxSteps(opts));
    WholeRunFate(opts, env, approvals);
  }

  /** A run that does not return throws what something threw to it: `onStart`, `onEnd`, or
      something in one of its steps. */
  lemma ThrowsWhatSomethingThrew(opts: Options, env: Env, approvals: nat)
    ensures
      var s := WholeRun(opts, env, approvals);
      s.Failed? ==>
        || (s.thrown.ByCallback? && (env.onStart == Throws(s.thrown.error) || env.onEnd == Throws(s.thrown.error)))
        || exists i: nat :: i < MaxSteps(opts) && StepThrows(opts, env, i, s.thrown)
  {
    hide After, StepGoesOn, StepThrows;
    AfterExplained(opts, env, approvals, MaxSteps(opts));
  }
}
