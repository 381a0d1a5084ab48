/** When a run stops, and what it has accumulated by then. */
module AgentLoopStop {
  import opened Common
  import opened Usage
  import opened AgentLoopModel
  import opened AgentLoopCounts

  function LatestAt(env: Env, j: nat): (r: StepResult) {
    match env.runStep(j)
    case Answers(r) => r
    case Throws(_) => StepResult("", [], None, None)
  }

  /** Condition number `c` holds of the state after step `j`. */
  predicate Holds(opts: Options, env: Env, j: nat, c: nat)
    requires c < |opts.stopWhen|
  {
    match opts.stopWhen[c]
    case AfterSteps(count) => j + 1 >= count.Floor
    case OnFinishReason(reasons) => exists i :: 0 <= i < |reasons| && LatestAt(env, j).finishReason == Some(reasons[i])
    case Custom => env.condition(j, c) == Answers(true)
  }

  /** The stop test after step `j`: some condition holds, or the model asked for no tool and
      did not finish with `tool-calls`. */
  ghost predicate StopsAt(opts: Options, env: Env, j: nat) {
    || (exists c :: 0 <= c < |opts.stopWhen| && Holds(opts, env, j, c))
    || (|LatestAt(env, j).toolCalls| == 0 && LatestAt(env, j).finishReason != Some(ToolCalls))
  }

  lemma {:induction false} CheckConditionsMeans(opts: Options, env: Env, i: nat, k: nat)
    requires k <= |opts.stopWhen|
    ensures
      var r := CheckConditions(opts, env, i, LatestAt(env, i), k);
      r.Answers? ==> (r.value <==> exists c :: 0 <= c < k && Holds(opts, env, i, c))
  {
    if k > 0 {
      CheckConditionsMeans(opts, env, i, k - 1);
      var latest := LatestAt(env, i);
      var before := CheckConditions(opts, env, i, latest, k - 1);
      var c := CheckCondition(opts.stopWhen[k - 1], i + 1, latest, env.condition(i, k - 1));
      if before.Answers? && c.Answers? {
        assert c.value <==> Holds(opts, env, i, k - 1) by {
          if opts.stopWhen[k - 1].OnFinishReason? {
            var reasons := opts.stopWhen[k - 1].reasons;
            if c.value {
              var j :| 0 <= j < |reasons| && reasons[j] == latest.finishReason.value;
              assert latest.finishReason == Some(reasons[j]);
            }
          }
        }
      }
    }
  }

  // ---- what has been accumulated ----

  function StepRecord(env: Env, j: nat): (s: GenerationStep) {
    var latest := LatestAt(env, j);
    GenerationStep(j, latest.text, latest.usage.GetOr(EMPTY), latest.finishReason.GetOr(Unknown))
  }

  /** After `n` answered steps: numbered records, the concatenated text, the usage added up. */
  ghost predicate Accumulated(env: Env, m: Machine, n: nat) {
    && (forall j :: 0 <= j < n ==> env.runStep(j).Answers?)
    && m.steps == seq(n, j requires j >= 0 => StepRecord(env, j))
    && m.text == Concat(seq(n, j requires j >= 0 => LatestAt(env, j).text))
    && m.usage == FoldUsage(seq(n, j requires j >= 0 => LatestAt(env, j).usage))
  }

  lemma AbsorbAccumulates(env: Env, m: Machine, i: nat)
    requires Accumulated(env, m, i) && env.runStep(i).Answers?
    ensures Accumulated(env, Absorb(m, i, LatestAt(env, i)), i + 1)
  {
    hide AddUsage;
    var texts := seq(i + 1, j requires j >= 0 => LatestAt(env, j).text);
    assert texts[..i] == seq(i, j requires j >= 0 => LatestAt(env, j).text);
    var usages := seq(i + 1, j requires j >= 0 => LatestAt(env, j).usage);
    assert usages[..i] == seq(i, j requires j >= 0 => LatestAt(env, j).usage);
    assert Absorb(m, i, LatestAt(env, i)).steps == seq(i + 1, j requires j >= 0 => StepRecord(env, j));
  }

  /** Handling tool calls touches none of the accumulators. */
  lemma {:induction false} CallsUpToKeepsAccumulators(opts: Options, env: Env, step: nat, calls: seq<ToolCall>, k: nat, m: Machine)
    requires k <= |calls|
    ensures
      var m' := CallsUpTo(opts, env, step, calls, k, m).m;
      m'.steps == m.steps && m'.text == m.text && m'.usage == m.usage && m'.lastFinishReason == m.lastFinishReason
  {
    hide HandleCall;
    if k > 0 { CallsUpToKeepsAccumulators(opts, env, step, calls, k - 1, m); }
  }

  /** A run left in status `s` after iteration `n - 1`. */
  ghost predicate StatusStops(opts: Options, env: Env, n: nat, s: Status) {
    match s
    case Running(m) => Accumulated(env, m, n) && forall j :: 0 <= j < n ==> !StopsAt(opts, env, j)
    case Returned(m, state) =>
      && 1 <= state.step <= n
      && Accumulated(env, m, state.step)
      && state.steps == m.steps && state.usage == m.usage
      && (forall j :: 0 <= j < state.step - 1 ==> !StopsAt(opts, env, j))
      && StopsAt(opts, env, state.step - 1)
    case Failed(_, _) => true
  }

  lemma SameAccumulated(env: Env, m: Machine, m': Machine, n: nat)
    requires Accumulated(env, m, n) && m'.steps == m.steps && m'.text == m.text && m'.usage == m.usage
    ensures Accumulated(env, m', n)
  {
  }

  lemma EpilogueStops(opts: Options, env: Env, i: nat, before: seq<ToolResult>, m: Machine)
    requires Accumulated(env, m, i + 1) && forall j :: 0 <= j < i ==> !StopsAt(opts, env, j)
    ensures StatusStops(opts, env, i + 1, Epilogue(opts, env, i, LatestAt(env, i), before, m))
  {
    hide Accumulated, CheckConditions, Holds;
    var s := Epilogue(opts, env, i, LatestAt(env, i), before, m);
    CheckConditionsMeans(opts, env, i, |opts.stopWhen|);
    SameAccumulated(env, m, s.m, i + 1);
  }

  lemma PrologueKeepsAccumulators(opts: Options, env: Env, i: nat, m: Machine)
    ensures
      var m' := Prologue(opts, env, i, m).m;
      m'.steps == m.steps && m'.text == m.text && m'.usage == m.usage && m'.toolResults == m.toolResults
  {
  }

  lemma StepBodyStops(opts: Options, env: Env, i: nat, m: Machine)
    requires Accumulated(env, m, i) && forall j :: 0 <= j < i ==> !StopsAt(opts, env, j)
    ensures StatusStops(opts, env, i + 1, StepBody(opts, env, i, m))
  {
    hide Accumulated, StopsAt, Prologue, CallsUpTo, Epilogue, Absorb;
    var p := Prologue(opts, env, i, m);
    PrologueKeepsAccumulators(opts, env, i, m);
    SameAccumulated(env, m, p.m, i);
    if p.thrown.None? && env.runStep(i).Answers? {
      var latest := LatestAt(env, i);
      AbsorbAccumulates(env, p.m, i);
      var m1 := Absorb(p.m, i, latest);
      var f := CallsUpTo(opts, env, i, latest.toolCalls, |latest.toolCalls|, m1);
      CallsUpToKeepsAccumulators(opts, env, i, latest.toolCalls, |latest.toolCalls|, m1);
      SameAccumulated(env, m1, f.m, i + 1);
      if f.thrown.None? { EpilogueStops(opts, env, i, m.toolResults, f.m); }
    }
  }

  lemma {:induction false} AfterStops(opts: Options, env: Env, approvals: nat, n: nat)
    ensures StatusStops(opts, env, n, After(opts, env, approvals, n))
  {
    hide StepBody, StopsAt;
    if n > 0 {
      AfterStops(opts, env, approvals, n - 1);
      var s := After(opts, env, approvals, n - 1);
      if s.Running? { StepBodyStops(opts, env, n - 1, s.m); }
    } else {
      assert Accumulated(env, Log(Initial(opts, approvals), Started(MaxSteps(opts))), 0);
    }
  }

  /** A run that returns after `n` steps stopped at exactly the first step whose stop test
      holds, or at `maxSteps` if none does before; it numbers its steps 0 to n - 1, returns
      their texts joined and their usages added up from the left. */
  lemma StopsAtFirstStoppingStep(opts: Options, env: Env, approvals: nat)
    ensures
      var s := WholeRun(opts, env, approvals);
      s.Returned? ==>
        var n := s.state.step;
        && 1 <= n <= MaxSteps(opts)
        && (forall j :: 0 <= j < n - 1 ==> !StopsAt(opts, env, j))
        && (StopsAt(opts, env, n - 1) || n == MaxSteps(opts))
        && Accumulated(env, s.m, n)
        && s.state.steps == s.m.steps && |s.m.steps| == n && s.state.usage == s.m.usage
  {
    hide After, StopsAt;
    AfterStops(opts, env, approvals, MaxSteps(opts));
    var s := After(opts, env, approvals, MaxSteps(opts));
    if s.Running? {
      SameAccumulated(env, s.m, WholeRun(opts, env, approvals).m, MaxSteps(opts));
    }
  }

  lemma StopsOnceCountIsReached(opts: Options, env: Env, j: nat, c: nat, count: real)
    requires c < |opts.stopWhen| && opts.stopWhen[c] == AfterSteps(count)
    requires j + 1 >= FloorAtLeast1(count)
    ensures StopsAt(opts, env, j)
  {
    assert Holds(opts, env, j, c);
  }

  /** With `stopAfterSteps(count)` among the conditions no run returns later than the
      smaller of `maxSteps` and max(1, floor(count)). */
  lemma StopAfterStepsBounds(opts: Options, env: Env, approvals: nat, c: nat, count: real)
    requires c < |opts.stopWhen| && opts.stopWhen[c] == AfterSteps(count)
    ensures
      var s := WholeRun(opts, env, approvals);
      s.Returned? ==> s.state.step <= MaxSteps(opts) && (s.state.step <= 1 || s.state.step as real <= count)
  {
    hide WholeRun, Accumulated, StopsAt;
    StopsAtFirstStoppingStep(opts, env, approvals);
    var s := WholeRun(opts, env, approvals);
    if s.Returned? && s.state.step > FloorAtLeast1(count) {
      StopsOnceCountIsReached(opts, env, FloorAtLeast1(count) - 1, c, count);
    }
  }

  // ---- what `onStepEnd` is told ----

  /** `onStepEnd` of step `i` is given the results recorded first: those of the calls requested
      before step `i`. */
  ghost predicate StepEndsWell(env: Env, m: Machine) {
    forall e :: e in m.trace && e.StepEnded? ==>
      ResultIds(e.toolResults) == Distinct(RequestedIds(env, e.step)) && e.toolResults <= m.toolResults
  }

  ghost predicate NoStepEnds(trace: seq<Event>) {
    forall e :: e in trace ==> !e.StepEnded?
  }

  lemma HandleCallEndsNoStep(opts: Options, env: Env, s: Settings, ce: CallEnv, step: nat, call: ToolCall, approvals: nat)
    ensures NoStepEnds(HandleCall(opts, env, s, ce, step, call, approvals).events)
  {
    hide HasSecret, Sign, ResolveToolApproval, HasTimer, HasListener, ToolContext, ResultOfExecution, ApprovalGate, AfterGate;
    forall d, input ensures NoStepEnds(ApprovalGate(opts, env, ce, call, input, d, approvals).events) {
      GateEndsNoStep(opts, env, ce, call, input, d, approvals);
    }
    forall input, before, g: Gate | NoStepEnds(before + g.events)
      ensures NoStepEnds(AfterGate(s, ce, step, call, input, before, g).events)
    {
      AfterGateEndsNoStep(s, ce, step, call, input, before, g);
    }
  }

  lemma GateEndsNoStep(opts: Options, env: Env, ce: CallEnv, call: ToolCall, input: Value, d: Decision, approvals: nat)
    ensures NoStepEnds(ApprovalGate(opts, env, ce, call, input, d, approvals).events)
  {
    hide HasSecret, Sign;
  }

  lemma AfterGateEndsNoStep(s: Settings, ce: CallEnv, step: nat, call: ToolCall, input: Value, before: seq<Event>, g: Gate)
    requires NoStepEnds(before + g.events)
    ensures NoStepEnds(AfterGate(s, ce, step, call, input, before, g).events)
  {
    hide ToolContext, ResultOfExecution;
  }

  lemma {:induction false} CallsUpToEndsNoStep(opts: Options, env: Env, step: nat, calls: seq<ToolCall>, k: nat, m: Machine)
    requires k <= |calls| && StepEndsWell(env, m)
    ensures
      var m' := CallsUpTo(opts, env, step, calls, k, m).m;
      StepEndsWell(env, m') && m.toolResults <= m'.toolResults
  {
    hide HandleCall, RequestedIds;
    if k > 0 {
      CallsUpToEndsNoStep(opts, env, step, calls, k - 1, m);
      var f := CallsUpTo(opts, env, step, calls, k - 1, m);
      HandleCallEndsNoStep(opts, env, f.m.settings, env.call(step, k - 1), step, calls[k - 1], f.m.approvals);
    }
  }

  lemma StepBodyEndsWell(opts: Options, env: Env, i: nat, m: Machine)
    requires StepEndsWell(env, m) && ResultIds(m.toolResults) == Distinct(RequestedIds(env, i))
    ensures StepEndsWell(env, StepBody(opts, env, i, m).m)
  {
    hide CallsUpTo, CheckConditions, RequestedIds, Distinct, Absorb, Epilogue;
    var p := Prologue(opts, env, i, m);
    assert StepEndsWell(env, p.m) && p.m.toolResults == m.toolResults;
    if p.thrown.None? && env.runStep(i).Answers? {
      var latest := env.runStep(i).value;
      var m1 := Absorb(p.m, i, latest);
      AbsorbKeepsTrace(p.m, i, latest);
      CallsUpToEndsNoStep(opts, env, i, latest.toolCalls, |latest.toolCalls|, m1);
      EpilogueEndsWell(opts, env, i, latest, m.toolResults, CallsUpTo(opts, env, i, latest.toolCalls, |latest.toolCalls|, m1).m);
    }
  }

  lemma AbsorbKeepsTrace(m: Machine, i: nat, latest: StepResult)
    ensures Absorb(m, i, latest).trace == m.trace && Absorb(m, i, latest).toolResults == m.toolResults
  {
  }

  lemma EpilogueEndsWell(opts: Options, env: Env, i: nat, latest: StepResult, before: seq<ToolResult>, m: Machine)
    requires StepEndsWell(env, m) && ResultIds(before) == Distinct(RequestedIds(env, i)) && before <= m.toolResults
    ensures StepEndsWell(env, Epilogue(opts, env, i, latest, before, m).m)
  {
    hide CheckConditions, RequestedIds, Distinct, ResultIds;
  }

  lemma {:induction false} AfterEndsWell(opts: Options, env: Env, approvals: nat, n: nat)
    ensures StepEndsWell(env, After(opts, env, approvals, n).m)
  {
    hide StepBody, RequestedIds, WithinBudget;
    if n > 0 {
      AfterEndsWell(opts, env, approvals, n - 1);
      AfterCounts(opts, env, approvals, n - 1);
      var s := After(opts, env, approvals, n - 1);
      if s.Running? { StepBodyEndsWell(opts, env, n - 1, s.m); }
    }
  }

  /** In every run, `onStepEnd` of a step is told the results of the earlier steps only:
      the first results of the run, one for each distinct id requested before it. */
  lemma StepEndReportsEarlierResults(opts: Options, env: Env, approvals: nat)
    ensures StepEndsWell(env, WholeRun(opts, env, approvals).m)
  {
    hide After;
    AfterEndsWell(opts, env, approvals, MaxSteps(opts));
  }
}
