/**
 What a finished run says about itself: the keys it holds outputs under, the text a step was handed, and for every
 status and error text the reason, read off the steps, the attempts and the logged calls.
 */
module Reasons {
  import opened Collections
  import opened TopologicalSort
  import opened PipelineEngine
  import opened RunInvariants
  import opened Provenance
  import Template

  // ---- Output keys ---------------------------------------------------------------------------

  /** The step writes to `key`: its output key, or its id if it has none. */
  predicate WritesTo(s: Step, key: string) {
    if s.outputKey != "" then s.outputKey == key else s.id == key
  }

  lemma StepsAreMapped(steps: seq<Step>, order: seq<string>, s: Step)
    requires IsTopologicalOrder(steps, order)
    ensures s in steps <==> s.id in StepMap(steps) && StepMap(steps)[s.id] == s
  {
    SameMultisetDistinct(order, Ids(steps));
    if s in steps {
      var i :| 0 <= i < |steps| && steps[i] == s;
      OneStepPerName(steps, i);
    }
  }

  lemma KeyIsWritten(steps: seq<Step>, input: map<string, string>, w: World, order: seq<string>, key: string)
    requires ValidWorld(w, input) && IsTopologicalOrder(steps, order)
    ensures var final := RunAll(steps, input, w, order);
            key in final.outputs <==> exists s :: s in steps && IsCompleted(final.stepStatus, s.id) && WritesTo(s, key)
  {
    var c, final := Context(StepMap(steps), input, w), RunAll(steps, input, w, order);
    FinishedOutputsTraced(steps, input, w, order);
    if key in final.outputs {
      assert Owned(c, final, key);
      var id :| id in c.steps && IsCompleted(final.stepStatus, id) && OutputKey(c.steps[id]) == key;
      assert c.steps[id] in steps && c.steps[id].id == id;
    }
    forall s | s in steps && IsCompleted(final.stepStatus, s.id) && WritesTo(s, key) ensures key in final.outputs {
      StepsAreMapped(steps, order, s);
    }
  }

  /** The finished run holds outputs under the keys of its completed steps, under the id where a step has no key. */
  lemma FinishedOutputKeys(steps: seq<Step>, input: map<string, string>, w: World, order: seq<string>)
    requires ValidWorld(w, input) && IsTopologicalOrder(steps, order)
    ensures var final := RunAll(steps, input, w, order);
            final.outputs.Keys
              == (set s | s in steps && IsCompleted(final.stepStatus, s.id) && s.outputKey != "" :: s.outputKey)
               + (set s | s in steps && IsCompleted(final.stepStatus, s.id) && s.outputKey == "" :: s.id)
  {
    var final := RunAll(steps, input, w, order);
    forall key
      ensures key in final.outputs <==>
        exists s :: s in steps && IsCompleted(final.stepStatus, s.id) && WritesTo(s, key)
    {
      KeyIsWritten(steps, input, w, order, key);
    }
  }

  // ---- The text a step is handed -------------------------------------------------------------

  /** No other step writes to the key of `dep`. */
  ghost predicate OnlyWriter(steps: map<string, Step>, dep: string, key: string) {
    forall id :: id in steps ==> (WritesTo(steps[id], key) <==> id == dep)
  }

  lemma OnlyWriterWrites(c: Context, st: RunState, dep: string, key: string)
    requires dep in c.steps && OnlyWriter(c.steps, dep, key) && OutputsSound(c, st) && IsCompleted(st.stepStatus, dep)
    ensures key in st.outputs
  {
    assert WritesTo(c.steps[dep], key);
  }

  lemma TracedToOnlyWriter(c: Context, order: seq<string>, k: nat, st: RunState, now: RunState, key: string, i: nat)
    requires Runnable(c, order) && Distinct(order) && i < k <= |order| && OnlyWriter(c.steps, order[i], key)
    requires HasWriter(c, order, k, st, now, key)
    ensures key in now.outputs && Wrote(c, order, i, st, now, now.outputs[key])
  {
    var j :| 0 <= j < k && LastWriter(c, order, j, k, st, now, key);
    assert WritesTo(c.steps[order[j]], key);
  }

  lemma OutputOfOnlyWriter(c: Context, order: seq<string>, k: nat, st: RunState, key: string, i: nat)
    requires Runnable(c, order) && Distinct(order) && i < k <= |order| && OnlyWriter(c.steps, order[i], key)
    requires Sound(c, [], st) && st.status == RunRunning && st.outputs == map[] && OutputsSound(c, st)
    requires IsCompleted(StateAfter(c, order, k, st).stepStatus, order[i])
    ensures var outputs := StateAfter(c, order, k, st).outputs;
            key in outputs && Wrote(c, order, i, st, StateAfter(c, order, k, st), outputs[key])
  {
    var now := StateAfter(c, order, k, st);
    EveryStateOutputs(c, order, k, st);
    assert order[i] in order;
    OnlyWriterWrites(c, now, order[i], key);
    EveryOutputTraced(c, order, k, st);
    TracedToOnlyWriter(c, order, k, st, now, key, i);
  }

  /** The text that the executor is handed for a template that is the placeholder of one output. */
  lemma PlaceholderText(c: Context, order: seq<string>, k: nat, st: RunState, key: string)
    requires Runnable(c, order) && k < |order| && '{' !in key && '}' !in key
    requires order[k] in c.steps && c.steps[order[k]].inputTemplate == "{{steps." + key + "}}"
    requires Template.Tame(c.input, StateAfter(c, order, k, st).outputs)
    requires key in StateAfter(c, order, k, st).outputs
    ensures TaskAt(c, order, k, st) == StateAfter(c, order, k, st).outputs[key]
  {
    var outputs, id := StateAfter(c, order, k, st).outputs, order[k];
    assert Template.Enumerates(c.world.inputOrder(id), c.input.Keys);
    assert Template.Enumerates(c.world.outputOrder(id, outputs.Keys), outputs.Keys);
    Template.PlaceholderAlone(key, c.input, outputs, c.world.inputOrder(id), c.world.outputOrder(id, outputs.Keys));
  }

  /** Likewise for the placeholder of an input. */
  lemma InputIsHandedOver(c: Context, order: seq<string>, k: nat, st: RunState, key: string)
    requires Runnable(c, order) && k < |order| && '{' !in key && '}' !in key && key in c.input
    requires order[k] in c.steps && c.steps[order[k]].inputTemplate == "{{input." + key + "}}"
    requires Template.Tame(c.input, StateAfter(c, order, k, st).outputs)
    ensures TaskAt(c, order, k, st) == c.input[key]
  {
    var outputs, id := StateAfter(c, order, k, st).outputs, order[k];
    assert Template.Enumerates(c.world.inputOrder(id), c.input.Keys);
    assert Template.Enumerates(c.world.outputOrder(id, outputs.Keys), outputs.Keys);
    Template.PlaceholderAlone(key, c.input, outputs, c.world.inputOrder(id), c.world.outputOrder(id, outputs.Keys));
  }

  // ---- What later turns leave alone ----------------------------------------------------------

  /** Status, error and logged attempts of the step are the same in both states. */
  ghost predicate SameFor(id: string, a: RunState, b: RunState) {
    && id in a.stepStatus && id in b.stepStatus && a.stepStatus[id] == b.stepStatus[id]
    && (id in a.stepErrors <==> id in b.stepErrors)
    && ErrorText(a.stepErrors, id) == ErrorText(b.stepErrors, id)
    && AttemptsOf(a.calls, id) == AttemptsOf(b.calls, id)
  }

  lemma SameForNext(c: Context, order: seq<string>, i: nat, k: nat, st: RunState)
    requires Runnable(c, order) && Distinct(order) && i < |order| && k < |order| && i != k
    requires order[i] in StateAfter(c, order, k, st).stepStatus
    ensures SameFor(order[i], StateAfter(c, order, k, st), StateAfter(c, order, k + 1, st))
  {
    var now := StateAfter(c, order, k, st);
    OneIteration(c, order, k, st);
    if now.status == RunRunning {
      assert order[k] in [order[k]];
      RunStepFrame(c, order[k], now);
      OthersCallsKept(c, order[k], now, order[i]);
    }
  }

  /** Once its turn is over, nothing of a step changes any more. */
  lemma {:induction false} SameForGood(c: Context, order: seq<string>, i: nat, k: nat, m: nat, st: RunState)
    requires Runnable(c, order) && Distinct(order) && i < k <= m <= |order|
    requires order[i] in StateAfter(c, order, k, st).stepStatus
    ensures SameFor(order[i], StateAfter(c, order, k, st), StateAfter(c, order, m, st))
    decreases m
  {
    if k == m {
    } else {
      SameForGood(c, order, i, k, m - 1, st);
      SameForNext(c, order, i, m - 1, st);
    }
  }

  /**
   A step whose template is the placeholder of a completed dependency's key is handed what the dependency's last
   logged call returned: its one output key, or its id, that no other step writes to.
   */
  lemma DependencyIsHandedOn(steps: seq<Step>, input: map<string, string>, w: World, order: seq<string>, i: nat,
                             k: nat, key: string)
    requires ValidWorld(w, input) && IsTopologicalOrder(steps, order) && i < k < |order|
    requires Runnable(Context(StepMap(steps), input, w), order)
    requires '{' !in key && '}' !in key && OnlyWriter(StepMap(steps), order[i], key)
    requires order[k] in StepMap(steps) && StepMap(steps)[order[k]].inputTemplate == "{{steps." + key + "}}"
    requires Template.Tame(input, StateAfter(Context(StepMap(steps), input, w), order, k, Fresh(steps)).outputs)
    requires IsCompleted(RunAll(steps, input, w, order).stepStatus, order[i])
    ensures var c := Context(StepMap(steps), input, w);
            && order[i] in c.steps
            && Returned(w, c.steps[order[i]], TaskAt(c, order, i, Fresh(steps)),
                        AttemptsOf(RunAll(steps, input, w, order).calls, order[i]),
                        TaskAt(c, order, k, Fresh(steps)))
  {
    var c, st := Context(StepMap(steps), input, w), Fresh(steps);
    FreshIsSound(steps, input, w);
    EveryStateSound(c, order, k, st);
    RunIsLastState(c, order, st);
    assert order[i] in order && order[i] in c.steps;
    SameForGood(c, order, i, k, |order|, st);
    OutputOfOnlyWriter(c, order, k, st, key, i);
    PlaceholderText(c, order, k, st, key);
  }

  // ---- Why a step ended as it did ------------------------------------------------------------

  /** `n` attempts failed, the last with `error` and for good, or before another the agent was not registered. */
  ghost predicate FailedAfter(w: World, step: Step, task: string, n: nat, error: string) {
    && AllFailed(w, step, task, n)
    && (|| (n > 0 && w.attempt(step.id, n - 1, task) == Failed(error)
            && (step.errorStrategy == "retry" ==> n == step.maxRetries + 1))
        || (n <= step.maxRetries && w.attempt(step.id, n, task) == Unregistered
            && error == "agent \"" + step.agentID + "\" not registered"))
  }

  ghost predicate AllFailed(w: World, step: Step, task: string, n: nat) {
    && (forall j :: 0 <= j < n ==> w.attempt(step.id, j, task).Failed?)
    && (n > 1 ==> step.errorStrategy == "retry")
  }

  ghost predicate InterruptedAfter(w: World, step: Step, task: string, n: nat) {
    n <= step.maxRetries && AllFailed(w, step, task, n) && w.attempt(step.id, n, task) == Interrupted
  }

  /** The `j`-th dependency is the first that is not completed. */
  ghost predicate Blocks(deps: seq<string>, stepStatus: map<string, StepStatus>, j: nat) {
    j < |deps| && !IsCompleted(stepStatus, deps[j]) && forall m :: 0 <= m < j ==> IsCompleted(stepStatus, deps[m])
  }

  /** The step has a dependency to blame, and says which and with what error. */
  ghost predicate Blamed(step: Step, st: RunState, j: nat) {
    && Blocks(step.dependsOn, st.stepStatus, j)
    && step.errorStrategy == "stop" && HasError(st, step.dependsOn[j])
    && step.id in st.stepErrors
    && st.stepErrors[step.id] == "dependency " + step.dependsOn[j] + " failed: " + st.stepErrors[step.dependsOn[j]]
  }

  ghost predicate HasError(st: RunState, id: string) {
    id in st.stepErrors && st.stepErrors[id] != ""
  }

  /** The step waits for a dependency for good, and says nothing. */
  ghost predicate LeftWaiting(step: Step, st: RunState, j: nat) {
    && Blocks(step.dependsOn, st.stepStatus, j)
    && (step.errorStrategy != "stop" || !HasError(st, step.dependsOn[j]))
    && step.id !in st.stepErrors
  }

  /** What the status of a step says about its attempts on `task`, and what its error text is. */
  ghost predicate Explained(w: World, step: Step, task: string, st: RunState) {
    step.id in st.stepStatus &&
    var attempts := AttemptsOf(st.calls, step.id);
    match st.stepStatus[step.id]
    case Completed => step.id !in st.stepErrors && exists value :: Returned(w, step, task, attempts, value)
    case Errored =>
      step.id in st.stepErrors && FailedAfter(w, step, task, |attempts|, st.stepErrors[step.id])
      && (step.errorStrategy == "stop" ==> st.status == RunError)
    case Cancelled =>
      step.id !in st.stepErrors && InterruptedAfter(w, step, task, |attempts|) && st.status == RunCancelled
    case Skipped => attempts == [] && exists j :: Blamed(step, st, j)
    case Running => attempts == [] && exists j :: LeftWaiting(step, st, j)
    case Pending =>
      attempts == [] && step.id !in st.stepErrors && (st.status == RunError || st.status == RunCancelled)
  }

  lemma {:induction false} TriesExplained(w: World, step: Step, task: string, k: nat, err: Option<string>)
    requires k == 0 || k <= step.maxRetries + 1
    requires AllFailed(w, step, task, k) && (k > 0 ==> step.errorStrategy == RETRY)
    requires if k == 0 then err.None? else err == Some(w.attempt(step.id, k - 1, task).error)
    ensures var tried := TryFrom(w, step, task, k, err);
            match tried.outcome
            case Failure(e) => FailedAfter(w, step, task, tried.calls, e)
            case Stopped => InterruptedAfter(w, step, task, tried.calls)
            case Success(_) => true
    decreases step.maxRetries + 1 - k
  {
    if k > step.maxRetries {
    } else if w.attempt(step.id, k, task).Failed? && step.errorStrategy == RETRY {
      TriesExplained(w, step, task, k + 1, Some(w.attempt(step.id, k, task).error));
    }
  }

  lemma {:induction false} FirstUnmetBlocks(deps: seq<string>, stepStatus: map<string, StepStatus>) returns (j: nat)
    requires FirstUnmet(deps, stepStatus).Some?
    ensures Blocks(deps, stepStatus, j) && FirstUnmet(deps, stepStatus).value == deps[j]
  {
    if !IsCompleted(stepStatus, deps[0]) {
      j := 0;
    } else {
      var k := FirstUnmetBlocks(deps[1..], stepStatus);
      j := k + 1;
      forall m | 0 <= m < j ensures IsCompleted(stepStatus, deps[m]) {
        assert m > 0 ==> deps[m] == deps[1..][m - 1];
      }
    }
  }

  lemma ConcludedExplained(w: World, step: Step, task: string, st: RunState)
    requires AttemptsOf(st.calls, step.id) == UpTo(TryFrom(w, step, task, 0, None).calls)
    requires step.id !in st.stepErrors && st.status == RunRunning
    ensures Explained(w, step, task, Conclude(step, TryFrom(w, step, task, 0, None).outcome, st))
  {
    TriesExplained(w, step, task, 0, None);
    SuccessReturned(w, step, task);
  }

  lemma ReadyExplained(c: Context, id: string, st: RunState)
    requires Runnable(c, [id]) && id in c.steps && c.steps[id].id == id
    requires FirstUnmet(c.steps[id].dependsOn, st.stepStatus[id := Running]).None?
    requires AttemptsOf(st.calls, id) == [] && id !in st.stepErrors && st.status == RunRunning
    ensures Explained(c.world, c.steps[id], TaskInput(c, id, st.outputs), RunStep(c, id, st))
  {
    var task := TaskInput(c, id, st.outputs);
    var n := TryFrom(c.world, c.steps[id], task, 0, None).calls;
    ReadyStep(c, id, st);
    FirstCalls(st.calls, id, n);
    ConcludedExplained(c.world, c.steps[id], task,
      st.(stepStatus := st.stepStatus[id := Running], calls := st.calls + CallLog(id, n)));
  }

  lemma BlockedExplained(c: Context, id: string, st: RunState)
    requires Runnable(c, [id]) && id in c.steps && c.steps[id].id == id && id !in c.steps[id].dependsOn
    requires FirstUnmet(c.steps[id].dependsOn, st.stepStatus[id := Running]).Some?
    requires AttemptsOf(st.calls, id) == [] && id !in st.stepErrors && st.status == RunRunning
    ensures Explained(c.world, c.steps[id], TaskInput(c, id, st.outputs), RunStep(c, id, st))
  {
    var step, after := c.steps[id], RunStep(c, id, st);
    var j := FirstUnmetBlocks(step.dependsOn, st.stepStatus[id := Running]);
    assert Blocks(step.dependsOn, after.stepStatus, j);
    assert after.calls == st.calls;
    if after.stepStatus[id] == Skipped {
      assert Blamed(step, after, j);
    } else {
      assert LeftWaiting(step, after, j);
    }
  }

  lemma SameBlocks(deps: seq<string>, a: RunState, b: RunState, j: nat)
    requires Blocks(deps, a.stepStatus, j) && forall d :: d in deps ==> SameFor(d, a, b)
    ensures Blocks(deps, b.stepStatus, j)
    ensures HasError(a, deps[j]) == HasError(b, deps[j])
    ensures HasError(a, deps[j]) ==> a.stepErrors[deps[j]] == b.stepErrors[deps[j]]
  {
    assert forall m :: 0 <= m < |deps| ==> deps[m] in deps;
    assert SameFor(deps[j], a, b);
  }

  /** The explanation speaks of the step and its dependencies only. */
  lemma ExplanationStays(w: World, step: Step, task: string, a: RunState, b: RunState)
    requires Explained(w, step, task, a) && SameFor(step.id, a, b)
    requires forall d :: d in step.dependsOn ==> SameFor(d, a, b)
    requires a.status != RunRunning ==> b.status == a.status
    ensures Explained(w, step, task, b)
  {
    if a.stepStatus[step.id] == Skipped {
      var j :| Blamed(step, a, j);
      SameBlocks(step.dependsOn, a, b, j);
      assert Blamed(step, b, j);
    } else if a.stepStatus[step.id] == Running {
      var j :| LeftWaiting(step, a, j);
      SameBlocks(step.dependsOn, a, b, j);
      assert LeftWaiting(step, b, j);
    }
  }

  lemma TurnExplained(c: Context, id: string, st: RunState)
    requires Runnable(c, [id]) && id in c.steps && c.steps[id].id == id && id !in c.steps[id].dependsOn
    requires AttemptsOf(st.calls, id) == [] && id !in st.stepErrors && st.status == RunRunning
    ensures Explained(c.world, c.steps[id], TaskInput(c, id, st.outputs), RunStep(c, id, st))
  {
    if FirstUnmet(c.steps[id].dependsOn, st.stepStatus[id := Running]).None? {
      ReadyExplained(c, id, st);
    } else {
      BlockedExplained(c, id, st);
    }
  }

  lemma {:induction false} EndedStaysEnded(c: Context, order: seq<string>, k: nat, m: nat, st: RunState)
    requires Runnable(c, order) && k <= m <= |order| && StateAfter(c, order, k, st).status != RunRunning
    ensures StateAfter(c, order, m, st) == StateAfter(c, order, k, st)
    decreases m
  {
    if k == m {
    } else {
      EndedStaysEnded(c, order, k, m - 1, st);
    }
  }

  /** Every dependency comes before the step that lists it. */
  ghost predicate DependenciesBefore(c: Context, order: seq<string>)
    requires Runnable(c, order)
  {
    forall i, d :: 0 <= i < |order| && order[i] in c.steps && d in c.steps[order[i]].dependsOn ==> d in order[..i]
  }

  /** The state after a step's own turn explains it, whether the run got there or ended before. */
  lemma ExplainedInTurn(c: Context, order: seq<string>, i: nat, st: RunState)
    requires Runnable(c, order) && Distinct(order) && i < |order| && Sound(c, [], st) && st.status == RunRunning
    requires order[i] in c.steps && DependenciesBefore(c, order)
    requires StateAfter(c, order, i, st).status != RunCompleted
    ensures Explained(c.world, c.steps[order[i]], TaskAt(c, order, i, st), StateAfter(c, order, i + 1, st))
  {
    var now := StateAfter(c, order, i, st);
    EveryStateSound(c, order, i, st);
    OneIteration(c, order, i, st);
    NoCallsYet(c, order[..i], now, order[i]);
    assert order[i] !in order[..i];
    if now.status == RunRunning {
      TurnExplained(c, order[i], now);
    }
  }

  lemma {:induction false} NeverCompletedInside(c: Context, order: seq<string>, k: nat, st: RunState)
    requires Runnable(c, order) && k <= |order| && st.status == RunRunning
    ensures StateAfter(c, order, k, st).status != RunCompleted
  {
    if k == 0 {
    } else {
      NeverCompletedInside(c, order, k - 1, st);
      OneIteration(c, order, k - 1, st);
      if StateAfter(c, order, k - 1, st).status == RunRunning {
        StepEnds(c, order[k - 1], StateAfter(c, order, k - 1, st));
      }
    }
  }

  lemma SameFromThen(c: Context, order: seq<string>, i: nat, k: nat, d: string, st: RunState)
    requires Runnable(c, order) && Distinct(order) && i <= k <= |order| && d in order[..i]
    requires Sound(c, [], st) && st.status == RunRunning
    ensures SameFor(d, StateAfter(c, order, k, st), StateAfter(c, order, |order|, st))
  {
    var m :| 0 <= m < i && order[m] == d;
    EveryStateSound(c, order, k, st);
    assert order[m] in order && order[m] in c.steps;
    SameForGood(c, order, m, k, |order|, st);
  }

  /** What holds after the step's own turn still holds in the last state. */
  lemma ExplainedInLastState(c: Context, order: seq<string>, i: nat, st: RunState)
    requires Runnable(c, order) && Distinct(order) && DependenciesBefore(c, order) && i < |order|
    requires Sound(c, [], st) && st.status == RunRunning && order[i] in c.steps && c.steps[order[i]].id == order[i]
    ensures Explained(c.world, c.steps[order[i]], TaskAt(c, order, i, st), StateAfter(c, order, |order|, st))
  {
    var after, last := StateAfter(c, order, i + 1, st), StateAfter(c, order, |order|, st);
    NeverCompletedInside(c, order, i, st);
    ExplainedInTurn(c, order, i, st);
    forall d | d in c.steps[order[i]].dependsOn ensures SameFor(d, after, last) {
      SameFromThen(c, order, i, i + 1, d, st);
    }
    SameFromThen(c, order, i + 1, i + 1, order[i], st);
    if after.status != RunRunning {
      EndedStaysEnded(c, order, i + 1, |order|, st);
    }
    ExplanationStays(c.world, c.steps[order[i]], TaskAt(c, order, i, st), after, last);
  }

  lemma OrderPutsDependenciesBefore(steps: seq<Step>, input: map<string, string>, w: World, order: seq<string>)
    requires ValidWorld(w, input) && IsTopologicalOrder(steps, order)
    ensures Runnable(Context(StepMap(steps), input, w), order)
    ensures DependenciesBefore(Context(StepMap(steps), input, w), order)
  {
    OrderCoversSteps(steps, order);
    forall i, d | 0 <= i < |order| && order[i] in StepMap(steps) && d in StepMap(steps)[order[i]].dependsOn
      ensures d in order[..i]
    {
      MapHoldsSteps(steps, order[i], d);
    }
  }

  lemma ExplainedAtEnd(w: World, step: Step, task: string, last: RunState, final: RunState)
    requires Explained(w, step, task, last)
    requires final == if last.status == RunRunning then last.(status := RunCompleted) else last
    ensures Explained(w, step, task, final)
  {
    if last.stepStatus[step.id] == Skipped {
      var j :| Blamed(step, last, j);
      assert Blamed(step, final, j);
    } else if last.stepStatus[step.id] == Running {
      var j :| LeftWaiting(step, last, j);
      assert LeftWaiting(step, final, j);
    }
  }

  /**
   Every status and every error text in a finished run has its reason: what the logged attempts came to, which
   dependency is to blame, or that the run had ended.
   */
  lemma EveryStepExplained(steps: seq<Step>, input: map<string, string>, w: World, order: seq<string>, i: nat)
    requires ValidWorld(w, input) && IsTopologicalOrder(steps, order) && i < |order|
    ensures var c := Context(StepMap(steps), input, w);
            && Runnable(c, order) && order[i] in c.steps
            && Explained(w, c.steps[order[i]], TaskAt(c, order, i, Fresh(steps)), RunAll(steps, input, w, order))
  {
    var c, st := Context(StepMap(steps), input, w), Fresh(steps);
    OrderPutsDependenciesBefore(steps, input, w, order);
    FreshIsSound(steps, input, w);
    assert order[i] in order;
    ExplainedInLastState(c, order, i, st);
    RunIsLastState(c, order, st);
    ExplainedAtEnd(w, c.steps[order[i]], TaskAt(c, order, i, st), StateAfter(c, order, |order|, st),
                   RunAll(steps, input, w, order));
  }
}
