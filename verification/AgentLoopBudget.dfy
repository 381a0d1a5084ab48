/** When a run throws because its tool-call budget is spent
    (packages/agent/src/agent-loop.ts:164-168). */
module AgentLoopBudget {
  import opened Common
  import opened AgentLoopModel
  import opened AgentLoopCounts
  import AgentLoop

  /** Call `k` of step `i` is the first to bring the distinct ids asked for above the budget. */
  ghost predicate Exceeds(opts: Options, env: Env, i: nat, k: nat) {
    && env.runStep(i).Answers? && k < |env.runStep(i).value.toolCalls|
    && var calls := env.runStep(i).value.toolCalls;
      var seen := RequestedIds(env, i) + CallIds(calls[..k]);
      |Distinct(seen)| == MaxToolCalls(opts) && calls[k].id !in seen
  }

  /** The run gets to call `k` of step `i`, or to the end of the step's calls: the steps before
      it, its callbacks and its earlier calls all let the run go on. */
  ghost predicate Reaches(opts: Options, env: Env, approvals: nat, i: nat, k: nat) {
    var s := After(opts, env, approvals, i);
    && s.Running? && ReachesCall(opts, env, i, s.m, k)
  }

  ghost predicate ReachesCall(opts: Options, env: Env, i: nat, m: Machine, k: nat) {
    var p := Prologue(opts, env, i, m);
    && p.thrown.None? && env.runStep(i).Answers? && k <= |env.runStep(i).value.toolCalls|
    && var latest := env.runStep(i).value;
      CallsUpTo(opts, env, i, latest.toolCalls, k, Absorb(p.m, i, latest)).thrown.None?
  }

  /** The budget error is thrown exactly when one call too many was counted. */
  ghost predicate CountFits(opts: Options, m: Machine, thrown: Option<Thrown>) {
    thrown == Some(BudgetExceeded) <==> m.toolCallCount > MaxToolCalls(opts)
  }

  lemma CallStepBudget(opts: Options, env: Env, step: nat, k: nat, call: ToolCall, m: Machine, seen: seq<string>)
    requires Tally(opts, m, seen)
    ensures
      var f := CallStep(opts, env, step, k, call, m);
      && CountFits(opts, f.m, f.thrown)
      && (f.thrown == Some(BudgetExceeded) <==> |Distinct(seen)| == MaxToolCalls(opts) && call.id !in seen)
  {
    hide HandleCall, ToolAllowed, MaxToolCalls, ExecutedIds, Distinct;
    if call.id !in m.executed && m.toolCallCount < MaxToolCalls(opts) {
      HandleCallThrows(opts, env, m.settings, env.call(step, k), step, call, m.approvals);
    }
  }

  /** Call `j` exceeds the budget, and the calls before it threw nothing. */
  ghost predicate ExceedsAfter(opts: Options, env: Env, i: nat, j: nat, m: Machine) {
    Exceeds(opts, env, i, j) && CallsUpTo(opts, env, i, env.runStep(i).value.toolCalls, j, m).thrown.None?
  }

  lemma {:induction false} CallsUpToBudget(opts: Options, env: Env, i: nat, k: nat, m: Machine)
    requires env.runStep(i).Answers? && k <= |env.runStep(i).value.toolCalls|
    requires Tally(opts, m, RequestedIds(env, i))
    ensures
      var f := CallsUpTo(opts, env, i, env.runStep(i).value.toolCalls, k, m);
      && CountFits(opts, f.m, f.thrown)
      && (f.thrown == Some(BudgetExceeded) ==> exists j: nat :: j < k && ExceedsAfter(opts, env, i, j, m))
  {
    hide CallStep, WithinBudget, MaxToolCalls, RequestedIds, Distinct;
    if k == 0 {
      assert WithinBudget(opts, m);
      TallyFits(opts, m, RequestedIds(env, i));
    } else {
      var calls := env.runStep(i).value.toolCalls;
      CallsUpToBudget(opts, env, i, k - 1, m);
      CallsUpToCounts(opts, env, i, calls, k - 1, m, RequestedIds(env, i));
      var f := CallsUpTo(opts, env, i, calls, k - 1, m);
      if f.thrown.None? {
        CallStepBudget(opts, env, i, k - 1, calls[k - 1], f.m, RequestedIds(env, i) + CallIds(calls[..k - 1]));
        if CallStep(opts, env, i, k - 1, calls[k - 1], f.m).thrown == Some(BudgetExceeded) {
          assert ExceedsAfter(opts, env, i, k - 1, m);
        }
      }
    }
  }

  lemma TallyFits(opts: Options, m: Machine, seen: seq<string>)
    requires Tally(opts, m, seen)
    ensures m.toolCallCount <= MaxToolCalls(opts)
  {
  }

  /** What a run in status `s` after `n` steps says about the budget. */
  ghost predicate StatusBudget(opts: Options, env: Env, approvals: nat, n: nat, s: Status) {
    match s
    case Running(m) => m.toolCallCount <= MaxToolCalls(opts)
    case Returned(m, _) => m.toolCallCount <= MaxToolCalls(opts)
    case Failed(m, thrown) =>
      && CountFits(opts, m, Some(thrown))
      && (thrown == BudgetExceeded ==> exists i: nat, k: nat :: i < n && RunsOut(opts, env, approvals, i, k))
  }

  /** The run gets to call `k` of step `i`, and that call exceeds the budget. */
  ghost predicate RunsOut(opts: Options, env: Env, approvals: nat, i: nat, k: nat) {
    Exceeds(opts, env, i, k) && Reaches(opts, env, approvals, i, k)
  }

  ghost predicate RunsOutIn(opts: Options, env: Env, i: nat, m: Machine, k: nat) {
    Exceeds(opts, env, i, k) && ReachesCall(opts, env, i, m, k)
  }

  lemma StepBodyBudget(opts: Options, env: Env, i: nat, m: Machine)
    requires Tally(opts, m, RequestedIds(env, i))
    ensures
      match StepBody(opts, env, i, m)
      case Running(m') => m'.toolCallCount <= MaxToolCalls(opts)
      case Returned(m', _) => m'.toolCallCount <= MaxToolCalls(opts)
      case Failed(m', thrown) =>
        && CountFits(opts, m', Some(thrown))
        && (thrown == BudgetExceeded ==> exists k: nat :: RunsOutIn(opts, env, i, m, k))
  {
    hide Tally, CallsUpTo, MaxToolCalls, Prologue, RequestedIds, Exceeds, CheckConditions;
    var seen := RequestedIds(env, i);
    TallyFits(opts, m, seen);
    PrologueCounts(opts, env, i, m, seen);
    PrologueBudget(opts, env, i, m);
    var p := Prologue(opts, env, i, m);
    if p.thrown.None? && env.runStep(i).Answers? {
      var latest := env.runStep(i).value;
      AbsorbKeepsTally(opts, p.m, i, latest, seen);
      var m1 := Absorb(p.m, i, latest);
      CallsUpToBudget(opts, env, i, |latest.toolCalls|, m1);
      if CallsUpTo(opts, env, i, latest.toolCalls, |latest.toolCalls|, m1).thrown == Some(BudgetExceeded) {
        var k: nat :| k < |latest.toolCalls| && ExceedsAfter(opts, env, i, k, m1);
        assert RunsOutIn(opts, env, i, m, k);
      }
    }
  }

  lemma PrologueBudget(opts: Options, env: Env, i: nat, m: Machine)
    ensures
      var f := Prologue(opts, env, i, m);
      f.m.toolCallCount == m.toolCallCount && f.thrown != Some(BudgetExceeded)
  {
  }

  lemma {:induction false} AfterBudget(opts: Options, env: Env, approvals: nat, n: nat)
    ensures StatusBudget(opts, env, approvals, n, After(opts, env, approvals, n))
  {
    hide StepBody, RequestedIds, Exceeds, Tally, ReachesCall;
    if n > 0 {
      AfterBudget(opts, env, approvals, n - 1);
      AfterCounts(opts, env, approvals, n - 1);
      var s := After(opts, env, approvals, n - 1);
      if s.Running? {
        StepBodyBudget(opts, env, n - 1, s.m);
        var i, m := n - 1, s.m;
        if k: nat :| RunsOutIn(opts, env, i, m, k) {
          assert RunsOut(opts, env, approvals, i, k);
        }
      }
    }
  }

  /** The call that exceeds the budget ends the step's calls with the budget error. */
  lemma ExcessThrows(opts: Options, env: Env, i: nat, k: nat, m: Machine)
    requires Exceeds(opts, env, i, k) && Tally(opts, m, RequestedIds(env, i))
    requires CallsUpTo(opts, env, i, env.runStep(i).value.toolCalls, k, m).thrown.None?
    ensures
      var calls := env.runStep(i).value.toolCalls;
      CallsUpTo(opts, env, i, calls, |calls|, m).thrown == Some(BudgetExceeded)
  {
    hide CallStep, Tally, RequestedIds, MaxToolCalls, Distinct;
    var calls := env.runStep(i).value.toolCalls;
    CallsUpToCounts(opts, env, i, calls, k, m, RequestedIds(env, i));
    var f := CallsUpTo(opts, env, i, calls, k, m);
    CallStepBudget(opts, env, i, k, calls[k], f.m, RequestedIds(env, i) + CallIds(calls[..k]));
    assert CallsUpTo(opts, env, i, calls, k + 1, m).thrown == Some(BudgetExceeded);
    AgentLoop.CallsUpToStaysThrown(opts, env, i, calls, k + 1, m);
  }

  lemma RunsOutEndsRun(opts: Options, env: Env, approvals: nat, i: nat, k: nat)
    requires RunsOut(opts, env, approvals, i, k)
    ensures
      var s := After(opts, env, approvals, i + 1);
      s.Failed? && s.thrown == BudgetExceeded
  {
    hide Tally, RequestedIds, Exceeds, CallsUpTo, Prologue, CheckConditions;
    AfterCounts(opts, env, approvals, i);
    var m := After(opts, env, approvals, i).m;
    PrologueCounts(opts, env, i, m, RequestedIds(env, i));
    var p := Prologue(opts, env, i, m);
    AbsorbKeepsTally(opts, p.m, i, env.runStep(i).value, RequestedIds(env, i));
    ExcessThrows(opts, env, i, k, Absorb(p.m, i, env.runStep(i).value));
  }

  /** A run throws the budget error exactly when it gets to a call that brings the distinct
      ids asked for above the budget; then, and only then, it has counted one call too many. */
  lemma BudgetErrorIff(opts: Options, env: Env, approvals: nat)
    ensures
      var s := WholeRun(opts, env, approvals);
      var throws := s.Failed? && s.thrown == BudgetExceeded;
      && (throws <==> exists i: nat, k: nat :: i < MaxSteps(opts) && RunsOut(opts, env, approvals, i, k))
      && (throws <==> s.m.toolCallCount > MaxToolCalls(opts))
  {
    hide After, MaxToolCalls, MaxSteps, RunsOut;
    AfterBudget(opts, env, approvals, MaxSteps(opts));
    if i: nat, k: nat :| i < MaxSteps(opts) && RunsOut(opts, env, approvals, i, k) {
      RunsOutEndsRun(opts, env, approvals, i, k);
      AgentLoop.AfterStaysDone(opts, env, approvals, i + 1, MaxSteps(opts));
    }
  }

  lemma {:induction false} DistinctGrows(a: seq<string>, b: seq<string>)
    ensures |Distinct(a)| <= |Distinct(a + b)|
  {
    if b == [] {
      assert a + b == a;
    } else {
      hide Distinct;
      var front, last := b[..|b| - 1], b[|b| - 1];
      DistinctGrows(a, front);
      assert a + b == (a + front) + [last];
      DistinctSnoc(a + front, last);
    }
  }

  /** And a run never returns past a step that asks for too much. */
  lemma NoReturnPastExcess(opts: Options, env: Env, approvals: nat, i: nat, k: nat)
    requires Exceeds(opts, env, i, k)
    ensures
      var s := WholeRun(opts, env, approvals);
      s.Returned? ==> s.state.step <= i
  {
    hide WholeRun, Distinct, MaxToolCalls;
    ResultsMatchCalls(opts, env, approvals);
    var s := WholeRun(opts, env, approvals);
    if s.Returned? && s.state.step > i {
      var calls := env.runStep(i).value.toolCalls;
      var seen := RequestedIds(env, i) + CallIds(calls[..k]);
      RequestedGrows(env, i + 1, s.state.step);
      var all := RequestedIds(env, s.state.step);
      var longer := seen + [calls[k].id];
      assert longer <= RequestedIds(env, i + 1) by {
        assert CallIds(calls[..k]) + [calls[k].id] <= CallIds(calls);
      }
      assert all == longer + all[|longer|..];
      DistinctSnoc(seen, calls[k].id);
      DistinctGrows(longer, all[|longer|..]);
    }
  }
}
