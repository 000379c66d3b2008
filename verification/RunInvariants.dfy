/** What every state of a pipeline run keeps, and what an early end leaves behind. */
module RunInvariants {
  import opened Collections
  import opened TopologicalSort
  import opened PipelineEngine

  // ---- The states a run goes through ---------------------------------------------------------

  ghost predicate Runnable(c: Context, order: seq<string>) {
    && ValidWorld(c.world, c.input)
    && (forall id :: id in order ==> id in c.steps && c.steps[id].id == id)
  }

  /** The state after `k` iterations; a run that has ended stays where it is. */
  ghost function StateAfter(c: Context, order: seq<string>, k: nat, st: RunState): RunState
    requires Runnable(c, order) && k <= |order|
  {
    if k == 0 then st
    else
      var before := StateAfter(c, order, k - 1, st);
      if before.status != RunRunning then before else RunStep(c, order[k - 1], before)
  }

  lemma OneIteration(c: Context, order: seq<string>, k: nat, st: RunState)
    requires Runnable(c, order) && k < |order|
    ensures order[k] in order
    ensures var before := StateAfter(c, order, k, st);
            StateAfter(c, order, k + 1, st) == if before.status != RunRunning then before
              else RunStep(c, order[k], before)
  {
  }

  lemma {:induction false} StateAfterShift(c: Context, order: seq<string>, k: nat, st: RunState)
    requires Runnable(c, order) && 1 <= k <= |order| && st.status == RunRunning
    ensures Runnable(c, order[1..])
    ensures var st' := RunStep(c, order[0], st);
            StateAfter(c, order, k, st) == if st'.status == RunRunning then StateAfter(c, order[1..], k - 1, st')
              else st'
  {
    assert forall id :: id in order[1..] ==> id in order;
    if k == 1 {
    } else {
      StateAfterShift(c, order, k - 1, st);
    }
  }

  /** The last of those states is the final one, up to marking a run that got through as completed. */
  lemma {:induction false} RunIsLastState(c: Context, order: seq<string>, st: RunState)
    requires Runnable(c, order) && st.status == RunRunning
    ensures var last := StateAfter(c, order, |order|, st);
            Run(c, order, st) == if last.status == RunRunning then last.(status := RunCompleted) else last
    decreases |order|
  {
    if order == [] {
    } else {
      StateAfterShift(c, order, |order|, st);
      var st' := RunStep(c, order[0], st);
      if st'.status == RunRunning {
        RunIsLastState(c, order[1..], st');
      }
    }
  }

  // ---- The invariant -------------------------------------------------------------------------

  ghost predicate DependenciesCompleted(c: Context, id: string, st: RunState)
    requires id in c.steps
  {
    forall d :: d in c.steps[id].dependsOn ==> IsCompleted(st.stepStatus, d)
  }

  /** The attempts logged for one step, in order. */
  function AttemptsOf(calls: seq<Call>, id: string): seq<nat> {
    if calls == [] then []
    else
      var last := calls[|calls| - 1];
      AttemptsOf(calls[..|calls| - 1], id) + if last.stepID == id then [last.attempt] else []
  }

  function UpTo(n: nat): (s: seq<nat>)
    ensures |s| == n && forall i :: 0 <= i < n ==> s[i] == i
  {
    seq(n, i => i)
  }

  /** How often the executor may be called for a step. */
  function Budget(step: Step): nat {
    if step.maxRetries < 0 then 0 else if step.errorStrategy == RETRY then step.maxRetries + 1 else 1
  }

  ghost predicate Sound(c: Context, done: seq<string>, st: RunState) {
    && (forall id :: id in c.steps ==> id in st.stepStatus)
    && Untouched(done, st)
    && ClosedUnderDependencies(c, st)
    && CallsJustified(c, done, st)
    && CallsBounded(c, st)
  }

  ghost predicate Untouched(done: seq<string>, st: RunState) {
    forall id :: id in st.stepStatus && id !in done ==> st.stepStatus[id] == Pending && id !in st.stepErrors
  }

  ghost predicate ClosedUnderDependencies(c: Context, st: RunState) {
    forall id :: id in c.steps && IsCompleted(st.stepStatus, id) ==> DependenciesCompleted(c, id, st)
  }

  ghost predicate CallsJustified(c: Context, done: seq<string>, st: RunState) {
    forall i :: 0 <= i < |st.calls| ==>
      st.calls[i].stepID in done && st.calls[i].stepID in c.steps && DependenciesCompleted(c, st.calls[i].stepID, st)
  }

  /** The executor is called for attempts 0, 1, 2, ... of a step, and no more often than its budget. */
  ghost predicate CallsBounded(c: Context, st: RunState) {
    forall id :: id in c.steps ==> WithinBudget(c.steps[id], AttemptsOf(st.calls, id))
  }

  ghost predicate WithinBudget(step: Step, attempts: seq<nat>) {
    |attempts| <= Budget(step) && attempts == UpTo(|attempts|)
  }

  // ---- Calls made by one step ----------------------------------------------------------------

  lemma {:induction false} TriesWithinBudget(w: World, step: Step, task: string, k: nat, err: Option<string>)
    requires k == 0 || step.errorStrategy == RETRY
    requires k == 0 || k <= step.maxRetries + 1
    ensures TryFrom(w, step, task, k, err).calls <= Budget(step)
    decreases step.maxRetries + 1 - k
  {
    if k > step.maxRetries {
    } else if w.attempt(step.id, k, task).Failed? && step.errorStrategy == RETRY {
      TriesWithinBudget(w, step, task, k + 1, Some(w.attempt(step.id, k, task).error));
    }
  }

  lemma {:induction false} AttemptsAppend(calls: seq<Call>, id: string, other: string, n: nat)
    ensures AttemptsOf(calls + CallLog(id, n), other)
         == AttemptsOf(calls, other) + if other == id then UpTo(n) else []
  {
    if n == 0 {
      assert calls + CallLog(id, 0) == calls;
      assert AttemptsOf(calls, other) + UpTo(0) == AttemptsOf(calls, other);
    } else {
      AttemptsAppend(calls, id, other, n - 1);
      LogGrows(calls, id, n);
      AttemptsSnoc(calls + CallLog(id, n - 1), Call(id, n - 1), other);
    }
  }

  lemma LogGrows(calls: seq<Call>, id: string, n: nat)
    requires n > 0
    ensures calls + CallLog(id, n) == calls + CallLog(id, n - 1) + [Call(id, n - 1)]
    ensures forall s: seq<nat> :: s + UpTo(n) == s + UpTo(n - 1) + [n - 1]
  {
  }

  lemma AttemptsSnoc(calls: seq<Call>, last: Call, id: string)
    ensures AttemptsOf(calls + [last], id) == AttemptsOf(calls, id) + if last.stepID == id then [last.attempt] else []
  {
  }

  lemma {:induction false} NoCallsNoAttempts(calls: seq<Call>, id: string)
    requires forall i :: 0 <= i < |calls| ==> calls[i].stepID != id
    ensures AttemptsOf(calls, id) == []
  {
    if calls == [] {
    } else {
      NoCallsNoAttempts(calls[..|calls| - 1], id);
    }
  }

  // ---- One step keeps the invariant ----------------------------------------------------------

  lemma StatusesStayClosed(c: Context, done: seq<string>, id: string, st: RunState)
    requires Runnable(c, [id]) && Sound(c, done, st) && id !in done
    ensures id in c.steps && c.steps[id].id == id
    ensures Untouched(done + [id], RunStep(c, id, st))
    ensures ClosedUnderDependencies(c, RunStep(c, id, st))
    ensures forall d :: IsCompleted(st.stepStatus, d) ==> IsCompleted(RunStep(c, id, st).stepStatus, d)
  {
    assert id in [id];
    RunStepFrame(c, id, st);
    assert !IsCompleted(st.stepStatus, id);
    var st' := RunStep(c, id, st);
    forall x | x in c.steps && IsCompleted(st'.stepStatus, x)
      ensures DependenciesCompleted(c, x, st')
    {
      if x != id {
        assert DependenciesCompleted(c, x, st);
      }
    }
  }

  /** A step is called some number of times within its budget, and only with its dependencies met. */
  lemma StepCalls(c: Context, id: string, st: RunState) returns (n: nat)
    requires Runnable(c, [id])
    ensures id in c.steps && c.steps[id].id == id
    ensures RunStep(c, id, st).calls == st.calls + CallLog(id, n)
    ensures n <= Budget(c.steps[id])
    ensures n > 0 ==> forall d :: d in c.steps[id].dependsOn ==> IsCompleted(st.stepStatus[id := Running], d)
  {
    assert id in [id];
    var step := c.steps[id];
    if FirstUnmet(step.dependsOn, st.stepStatus[id := Running]).None? {
      var task := TaskInput(c, id, st.outputs);
      n := TryFrom(c.world, step, task, 0, None).calls;
      TriesWithinBudget(c.world, step, task, 0, None);
    } else {
      n := 0;
      assert st.calls + CallLog(id, 0) == st.calls;
    }
  }

  lemma CallsStayJustified(c: Context, done: seq<string>, id: string, st: RunState)
    requires Runnable(c, [id]) && Sound(c, done, st) && id !in done
    ensures CallsJustified(c, done + [id], RunStep(c, id, st))
  {
    StatusesStayClosed(c, done, id, st);
    var st' := RunStep(c, id, st);
    var n := StepCalls(c, id, st);
    forall i | 0 <= i < |st'.calls|
      ensures st'.calls[i].stepID in done + [id] && st'.calls[i].stepID in c.steps
      ensures DependenciesCompleted(c, st'.calls[i].stepID, st')
    {
      if i < |st.calls| {
        assert st'.calls[i] == st.calls[i];
        assert DependenciesCompleted(c, st.calls[i].stepID, st);
      } else {
        assert st'.calls[i] == CallLog(id, n)[i - |st.calls|];
        assert forall d :: IsCompleted(st.stepStatus[id := Running], d) ==> IsCompleted(st.stepStatus, d);
      }
    }
  }

  lemma CallsStayBounded(c: Context, done: seq<string>, id: string, st: RunState)
    requires Runnable(c, [id]) && CallsBounded(c, st) && CallsJustified(c, done, st) && id !in done
    ensures CallsBounded(c, RunStep(c, id, st))
  {
    var n := StepCalls(c, id, st);
    NoCallsNoAttempts(st.calls, id);
    forall x | x in c.steps
      ensures WithinBudget(c.steps[x], AttemptsOf(RunStep(c, id, st).calls, x))
    {
      AttemptsAppend(st.calls, id, x, n);
      assert WithinBudget(c.steps[x], AttemptsOf(st.calls, x));
    }
  }

  lemma StepKeepsSound(c: Context, done: seq<string>, id: string, st: RunState)
    requires Runnable(c, [id]) && Sound(c, done, st) && id !in done
    ensures Sound(c, done + [id], RunStep(c, id, st))
  {
    StatusesStayClosed(c, done, id, st);
    CallsStayJustified(c, done, id, st);
    CallsStayBounded(c, done, id, st);
    RunStepFrame(c, id, st);
  }

  ghost predicate SoundAt(c: Context, order: seq<string>, k: nat, st: RunState)
    requires Runnable(c, order) && k <= |order|
  {
    Sound(c, order[..k], StateAfter(c, order, k, st))
  }

  lemma SoundAtStart(c: Context, order: seq<string>, st: RunState)
    requires Runnable(c, order) && Sound(c, [], st)
    ensures SoundAt(c, order, 0, st)
  {
  }

  /** Every state of a run along a repetition-free order is sound. */
  lemma {:induction false} EveryStateSound(c: Context, order: seq<string>, k: nat, st: RunState)
    requires Runnable(c, order) && Distinct(order) && k <= |order|
    requires Sound(c, [], st) && st.status == RunRunning
    ensures SoundAt(c, order, k, st)
  {
    if k == 0 {
      SoundAtStart(c, order, st);
    } else {
      EveryStateSound(c, order, k - 1, st);
      NextStateSound(c, order, k - 1, st);
    }
  }

  lemma NextStateSound(c: Context, order: seq<string>, k: nat, st: RunState)
    requires Runnable(c, order) && Distinct(order) && k < |order|
    requires SoundAt(c, order, k, st)
    ensures SoundAt(c, order, k + 1, st)
  {
    OneIteration(c, order, k, st);
    PrefixStep([], order, k);
    var before := StateAfter(c, order, k, st);
    if before.status == RunRunning {
      StepKeepsSound(c, order[..k], order[k], before);
    } else {
      SoundOfMore(c, order[..k], order[k], before);
    }
  }

  lemma SoundOfMore(c: Context, done: seq<string>, id: string, st: RunState)
    requires Sound(c, done, st)
    ensures Sound(c, done + [id], st)
  {
  }

  lemma FreshIsSound(steps: seq<Step>, input: map<string, string>, w: World)
    ensures Sound(Context(StepMap(steps), input, w), [], Fresh(steps))
  {
  }

  /** The claims above, for the finished run of any accepted pipeline along any order the sort may return. */
  lemma FinishedRunIsSound(steps: seq<Step>, input: map<string, string>, w: World, order: seq<string>)
    requires ValidWorld(w, input) && IsTopologicalOrder(steps, order)
    ensures Sound(Context(StepMap(steps), input, w), order, RunAll(steps, input, w, order))
  {
    var c := Context(StepMap(steps), input, w);
    OrderCoversSteps(steps, order);
    FreshIsSound(steps, input, w);
    EveryStateSound(c, order, |order|, Fresh(steps));
    RunIsLastState(c, order, Fresh(steps));
    assert order[..|order|] == order;
  }

  // ---- Runs that end early -------------------------------------------------------------------

  /** `h` is the place in the order at which Execute returned from inside the loop. */
  ghost predicate EndsAt(c: Context, order: seq<string>, final: RunState, h: nat)
    requires Runnable(c, order)
  {
    && h < |order| && order[h] in final.stepStatus
    && (final.status == RunError ==>
          final.stepStatus[order[h]] == Errored && c.steps[order[h]].errorStrategy == STOP)
    && (final.status == RunCancelled ==> final.stepStatus[order[h]] == Cancelled)
    && (forall j :: h < j < |order| ==> order[j] in final.stepStatus && final.stepStatus[order[j]] == Pending)
  }

  ghost predicate EndedSince(c: Context, order: seq<string>, h: nat, k: nat, st: RunState)
    requires Runnable(c, order) && h < k <= |order|
  {
    && StateAfter(c, order, h, st).status == RunRunning
    && StateAfter(c, order, k, st) == StateAfter(c, order, h + 1, st)
  }

  lemma EndedSinceStays(c: Context, order: seq<string>, h: nat, k: nat, st: RunState)
    requires Runnable(c, order) && h < k - 1 && k <= |order| && EndedSince(c, order, h, k - 1, st)
    requires StateAfter(c, order, k - 1, st).status != RunRunning
    ensures EndedSince(c, order, h, k, st)
  {
  }

  lemma RunningAtStart(c: Context, order: seq<string>, k: nat, st: RunState)
    requires Runnable(c, order) && k <= |order| && st.status == RunRunning && StateAfter(c, order, k, st).status
      != RunRunning
    ensures 0 < k
  {
  }

  /** The iteration in which a run ended. */
  lemma {:induction false} LastIteration(c: Context, order: seq<string>, k: nat, st: RunState) returns (h: nat)
    requires Runnable(c, order) && k <= |order| && st.status == RunRunning
    requires StateAfter(c, order, k, st).status != RunRunning
    ensures h < k && EndedSince(c, order, h, k, st)
  {
    RunningAtStart(c, order, k, st);
    if StateAfter(c, order, k - 1, st).status == RunRunning {
      h := k - 1;
    } else {
      h := LastIteration(c, order, k - 1, st);
      EndedSinceStays(c, order, h, k, st);
    }
  }

  lemma EndedRunHasPlace(c: Context, order: seq<string>, k: nat, st: RunState) returns (h: nat)
    requires Runnable(c, order) && k <= |order| && st.status == RunRunning
    requires StateAfter(c, order, k, st).status != RunRunning
    ensures h < k && StateAfter(c, order, h, st).status == RunRunning
    ensures StateAfter(c, order, k, st) == StateAfter(c, order, h + 1, st)
      == RunStep(c, order[h], StateAfter(c, order, h, st))
  {
    h := LastIteration(c, order, k, st);
    OneIteration(c, order, h, st);
  }

  lemma StepEnds(c: Context, id: string, st: RunState)
    requires Runnable(c, [id]) && st.status == RunRunning
    ensures var st' := RunStep(c, id, st);
            && id in c.steps && id in st'.stepStatus && st'.status != RunCompleted
            && (st'.status == RunError ==> st'.stepStatus[id] == Errored && c.steps[id].errorStrategy == STOP)
            && (st'.status == RunCancelled ==> st'.stepStatus[id] == Cancelled)
  {
    assert id in [id];
  }

  lemma LaterPending(c: Context, order: seq<string>, h: nat, st: RunState)
    requires Runnable(c, order) && Distinct(order) && h < |order| && (forall id :: id in order ==> id in c.steps)
    requires Sound(c, order[..h + 1], st)
    ensures forall j :: h < j < |order| ==> order[j] in st.stepStatus && st.stepStatus[order[j]] == Pending
  {
  }

  lemma EndsHere(c: Context, order: seq<string>, h: nat, before: RunState, after: RunState)
    requires h < |order| && Runnable(c, order) && Runnable(c, [order[h]]) && Distinct(order)
    requires before.status == RunRunning && after == RunStep(c, order[h], before)
    requires Sound(c, order[..h + 1], after)
    ensures EndsAt(c, order, after, h)
  {
    StepEnds(c, order[h], before);
    LaterPending(c, order, h, after);
  }

  /** A run that has ended: where, and in which state it was before. */
  lemma EndsSomewhere(c: Context, order: seq<string>, st: RunState) returns (h: nat)
    requires Runnable(c, order) && Distinct(order) && Sound(c, [], st) && st.status == RunRunning
    requires StateAfter(c, order, |order|, st).status != RunRunning
    ensures EndsAt(c, order, StateAfter(c, order, |order|, st), h)
  {
    h := EndedRunHasPlace(c, order, |order|, st);
    EndsAtPlace(c, order, h, st);
  }

  lemma EndsAtPlace(c: Context, order: seq<string>, h: nat, st: RunState)
    requires Runnable(c, order) && Distinct(order) && h < |order| && Sound(c, [], st) && st.status == RunRunning
    requires StateAfter(c, order, h, st).status == RunRunning
    ensures EndsAt(c, order, StateAfter(c, order, h + 1, st), h)
  {
    EveryStateSound(c, order, h + 1, st);
    OneIteration(c, order, h, st);
    EndsHere(c, order, h, StateAfter(c, order, h, st), StateAfter(c, order, h + 1, st));
  }

  /** A "stop" failure (or a cancellation) leaves every later step of the order "pending". */
  lemma EarlyEndLeavesRestPending(steps: seq<Step>, input: map<string, string>, w: World, order: seq<string>)
    requires ValidWorld(w, input) && IsTopologicalOrder(steps, order)
    requires RunAll(steps, input, w, order).status != RunCompleted
    ensures Runnable(Context(StepMap(steps), input, w), order)
    ensures exists h :: EndsAt(Context(StepMap(steps), input, w), order, RunAll(steps, input, w, order), h)
  {
    var c, st := Context(StepMap(steps), input, w), Fresh(steps);
    OrderCoversSteps(steps, order);
    FreshIsSound(steps, input, w);
    RunIsLastState(c, order, st);
    var h := EndsSomewhere(c, order, st);
  }

  // ---- What the retry loop decides -----------------------------------------------------------

  /** The attempt was made, failed, and may be repeated. */
  predicate Repeats(w: World, step: Step, task: string, k: nat) {
    w.attempt(step.id, k, task).Failed? && step.errorStrategy == RETRY
  }

  function ErrorOf(a: Attempt): string {
    if a.Failed? then a.error else ""
  }

  /**
   How a step's attempts end, read off the attempts themselves: `k` is the first one that is not a failure
   to be repeated, unless the retries run out before.
   */
  ghost predicate Decided(w: World, step: Step, task: string, k: nat, tried: Tried) {
    if k > step.maxRetries then
      && tried.calls == k
      && tried.outcome == if k == 0 then Success("") else Failure(ErrorOf(w.attempt(step.id, k - 1, task)))
    else match w.attempt(step.id, k, task)
      case Interrupted => tried == Tried(Stopped, k)
      case Unregistered => tried == Tried(Failure(NotRegistered(step.agentID)), k)
      case Succeeded(r) => tried == Tried(Success(r), k + 1)
      case Failed(e) => tried == Tried(Failure(e), k + 1)
  }

  /** `k` attempts are repeated; no attempt after the `k`-th is made. */
  lemma RetryLoopDecides(w: World, step: Step, task: string, k: nat)
    requires forall j :: 0 <= j < k ==> Repeats(w, step, task, j)
    requires k == 0 || k <= step.maxRetries + 1
    requires k <= step.maxRetries ==> !Repeats(w, step, task, k)
    ensures Decided(w, step, task, k, TryFrom(w, step, task, 0, None))
  {
    SkipRepeats(w, step, task, 0, k, None);
  }

  lemma {:induction false} SkipRepeats(w: World, step: Step, task: string, i: nat, k: nat, err: Option<string>)
    requires i <= k && forall j :: i <= j < k ==> Repeats(w, step, task, j)
    requires k == 0 || k <= step.maxRetries + 1
    ensures TryFrom(w, step, task, i, err) ==
      TryFrom(w, step, task, k, if i == k then err else Some(ErrorOf(w.attempt(step.id, k - 1, task))))
    decreases k - i
  {
    if i == k {
    } else {
      assert Repeats(w, step, task, i);
      SkipRepeats(w, step, task, i + 1, k, Some(w.attempt(step.id, i, task).error));
    }
  }

  // ---- Outputs -------------------------------------------------------------------------------

  /** Outputs hold one entry for every key of a completed step, and nothing else. */
  ghost predicate OutputsSound(c: Context, st: RunState) {
    && (forall id :: id in c.steps && IsCompleted(st.stepStatus, id) ==> OutputKey(c.steps[id]) in st.outputs)
    && (forall key :: key in st.outputs ==> Owned(c, st, key))
  }

  ghost predicate Owned(c: Context, st: RunState, key: string) {
    exists id :: id in c.steps && IsCompleted(st.stepStatus, id) && OutputKey(c.steps[id]) == key
  }

  lemma StepKeepsOutputs(c: Context, done: seq<string>, id: string, st: RunState)
    requires Runnable(c, [id]) && Sound(c, done, st) && id !in done && OutputsSound(c, st)
    ensures OutputsSound(c, RunStep(c, id, st))
  {
    assert id in [id];
    var st' := RunStep(c, id, st);
    StatusesStayClosed(c, done, id, st);
    RunStepFrame(c, id, st);
    StepOutput(c, id, st);
    forall key | key in st'.outputs
      ensures Owned(c, st', key)
    {
      if !(IsCompleted(st'.stepStatus, id) && key == OutputKey(c.steps[id])) {
        assert Owned(c, st, key);
      }
    }
  }

  /** A step writes its own key, and only if it completes. */
  lemma StepOutput(c: Context, id: string, st: RunState)
    requires Runnable(c, [id]) && !IsCompleted(st.stepStatus, id)
    ensures id in c.steps
    ensures var st' := RunStep(c, id, st);
            if IsCompleted(st'.stepStatus, id) then
              && (exists task, value :: TryFrom(c.world, c.steps[id], task, 0, None).outcome == Success(value)
                    && st'.outputs == st.outputs[OutputKey(c.steps[id]) := value])
            else st'.outputs == st.outputs
  {
    assert id in [id];
    var step := c.steps[id];
    if FirstUnmet(step.dependsOn, st.stepStatus[id := Running]).None? {
      var task := TaskInput(c, id, st.outputs);
      var tried := TryFrom(c.world, step, task, 0, None);
      if tried.outcome.Success? {
        assert RunStep(c, id, st).outputs == st.outputs[OutputKey(step) := tried.outcome.result];
      }
    }
  }

  ghost predicate OutputsAt(c: Context, order: seq<string>, k: nat, st: RunState)
    requires Runnable(c, order) && k <= |order|
  {
    OutputsSound(c, StateAfter(c, order, k, st))
  }

  lemma EveryStateOutputs(c: Context, order: seq<string>, k: nat, st: RunState)
    requires Runnable(c, order) && Distinct(order) && k <= |order|
    requires Sound(c, [], st) && st.status == RunRunning && OutputsSound(c, st)
    ensures OutputsSound(c, StateAfter(c, order, k, st))
  {
    forall j: nat | j < k && OutputsAt(c, order, j, st) ensures OutputsAt(c, order, j + 1, st) {
      NextStateOutputs(c, order, j, st);
    }
    AfterSteps((j: nat) => j <= |order| && OutputsAt(c, order, j, st), k);
  }

  lemma NextStateOutputs(c: Context, order: seq<string>, k: nat, st: RunState)
    requires Runnable(c, order) && Distinct(order) && k < |order|
    requires Sound(c, [], st) && st.status == RunRunning && OutputsSound(c, StateAfter(c, order, k, st))
    ensures OutputsSound(c, StateAfter(c, order, k + 1, st))
  {
    OneIteration(c, order, k, st);
    if StateAfter(c, order, k, st).status == RunRunning {
      EveryStateSound(c, order, k, st);
      StepKeepsOutputs(c, order[..k], order[k], StateAfter(c, order, k, st));
    }
  }

  lemma RunOutputs(c: Context, order: seq<string>, st: RunState)
    requires Runnable(c, order) && Distinct(order)
    requires Sound(c, [], st) && st.status == RunRunning && OutputsSound(c, st)
    ensures OutputsSound(c, Run(c, order, st))
  {
    EveryStateOutputs(c, order, |order|, st);
    RunIsLastState(c, order, st);
    SameOutputs(c, StateAfter(c, order, |order|, st), Run(c, order, st));
  }

  lemma SameOutputs(c: Context, a: RunState, b: RunState)
    requires OutputsSound(c, a) && a.outputs == b.outputs && a.stepStatus == b.stepStatus
    ensures OutputsSound(c, b)
  {
  }
}
