/** Where the outputs of a pipeline run come from: the logged call that returned each of them. */
module Provenance {
  import opened Collections
  import opened TopologicalSort
  import opened PipelineEngine
  import opened RunInvariants

  /**
   `value` is what the last of the logged attempts returned. With a negative MaxRetries no attempt is ever
   made, and the value is the empty text.
   */
  ghost predicate Returned(w: World, step: Step, task: string, attempts: seq<nat>, value: string) {
    if step.maxRetries < 0 then attempts == [] && value == ""
    else attempts != [] && w.attempt(step.id, attempts[|attempts| - 1], task) == Succeeded(value)
  }

  /** The text handed to the executor in the step's own turn. */
  ghost function TaskAt(c: Context, order: seq<string>, i: nat, st: RunState): string
    requires Runnable(c, order) && i < |order|
  {
    assert order[i] in order;
    TaskInput(c, order[i], StateAfter(c, order, i, st).outputs)
  }

  /** The step at place `i` has completed, and its last call returned `value`. */
  ghost predicate Wrote(c: Context, order: seq<string>, i: nat, st: RunState, now: RunState, value: string)
    requires Runnable(c, order) && i < |order|
  {
    && order[i] in c.steps && IsCompleted(now.stepStatus, order[i])
    && Returned(c.world, c.steps[order[i]], TaskAt(c, order, i, st), AttemptsOf(now.calls, order[i]), value)
  }

  /** The step at place `i` has completed and writes to `key`. */
  ghost predicate Writer(c: Context, order: seq<string>, i: nat, now: RunState, key: string)
    requires Runnable(c, order) && i < |order|
  {
    order[i] in c.steps && IsCompleted(now.stepStatus, order[i]) && OutputKey(c.steps[order[i]]) == key
  }

  /** Place `i` is the last one before `k` that wrote to `key`, and the entry is what its last call returned. */
  ghost predicate LastWriter(c: Context, order: seq<string>, i: nat, k: nat, st: RunState, now: RunState, key: string)
    requires Runnable(c, order) && i < k <= |order|
  {
    && key in now.outputs && Writer(c, order, i, now, key) && Wrote(c, order, i, st, now, now.outputs[key])
    && forall j :: i < j < k ==> !Writer(c, order, j, now, key)
  }

  /** Every completed step has a last call that succeeded, and every entry is the result of its last writer's. */
  ghost predicate Traced(c: Context, order: seq<string>, k: nat, st: RunState, now: RunState)
    requires Runnable(c, order) && k <= |order|
  {
    && (forall i :: 0 <= i < k && IsCompleted(now.stepStatus, order[i]) ==>
       exists value :: Wrote(c, order, i, st, now, value))
    && (forall key :: key in now.outputs ==> HasWriter(c, order, k, st, now, key))
  }

  ghost predicate HasWriter(c: Context, order: seq<string>, k: nat, st: RunState, now: RunState, key: string)
    requires Runnable(c, order) && k <= |order|
  {
    exists i :: 0 <= i < k && LastWriter(c, order, i, k, st, now, key)
  }

  // ---- One step ------------------------------------------------------------------------------

  /** A retry loop that succeeds was called, and succeeded in its last call. */
  lemma {:induction false} SuccessIsLastCall(w: World, step: Step, task: string, k: nat, err: Option<string>)
    requires k <= step.maxRetries || err.Some?
    ensures var tried := TryFrom(w, step, task, k, err);
            tried.outcome.Success? ==>
              tried.calls > 0 && w.attempt(step.id, tried.calls - 1, task) == Succeeded(tried.outcome.result)
    decreases step.maxRetries + 1 - k
  {
    if k > step.maxRetries {
    } else if w.attempt(step.id, k, task).Failed? && step.errorStrategy == RETRY {
      SuccessIsLastCall(w, step, task, k + 1, Some(w.attempt(step.id, k, task).error));
    }
  }

  lemma SuccessReturned(w: World, step: Step, task: string)
    ensures var tried := TryFrom(w, step, task, 0, None);
            tried.outcome.Success? ==> Returned(w, step, task, UpTo(tried.calls), tried.outcome.result)
  {
    if step.maxRetries >= 0 {
      SuccessIsLastCall(w, step, task, 0, None);
    }
  }

  /** The turn of a step whose dependencies are met. */
  lemma ReadyTurn(c: Context, id: string, st: RunState)
    requires Runnable(c, [id]) && id in c.steps && c.steps[id].id == id
    requires FirstUnmet(c.steps[id].dependsOn, st.stepStatus[id := Running]).None?
    ensures var tried := TryFrom(c.world, c.steps[id], TaskInput(c, id, st.outputs), 0, None);
            var st' := RunStep(c, id, st);
            && st'.calls == st.calls + CallLog(id, tried.calls)
            && (IsCompleted(st'.stepStatus, id) <==> tried.outcome.Success?)
            && st'.outputs ==
                 if tried.outcome.Success? then st.outputs[OutputKey(c.steps[id]) := tried.outcome.result]
                   else st.outputs
  {
  }

  lemma BlockedTurn(c: Context, id: string, st: RunState)
    requires Runnable(c, [id]) && id in c.steps && c.steps[id].id == id
    requires FirstUnmet(c.steps[id].dependsOn, st.stepStatus[id := Running]).Some?
    ensures !IsCompleted(RunStep(c, id, st).stepStatus, id) && RunStep(c, id, st).outputs == st.outputs
  {
  }

  lemma FirstCalls(calls: seq<Call>, id: string, n: nat)
    requires AttemptsOf(calls, id) == []
    ensures AttemptsOf(calls + CallLog(id, n), id) == UpTo(n)
  {
    AttemptsAppend(calls, id, id, n);
    assert [] + UpTo(n) == UpTo(n);
  }

  /** A step that completes in its turn writes what its last call returned, and writes nothing otherwise. */
  lemma StepReturned(c: Context, id: string, st: RunState) returns (value: string)
    requires Runnable(c, [id]) && AttemptsOf(st.calls, id) == []
    ensures id in c.steps
    ensures var st' := RunStep(c, id, st);
            if IsCompleted(st'.stepStatus, id) then
              && Returned(c.world, c.steps[id], TaskInput(c, id, st.outputs), AttemptsOf(st'.calls, id), value)
              && st'.outputs == st.outputs[OutputKey(c.steps[id]) := value]
            else st'.outputs == st.outputs
  {
    assert id in [id];
    var step := c.steps[id];
    value := "";
    if FirstUnmet(step.dependsOn, st.stepStatus[id := Running]).None? {
      var task := TaskInput(c, id, st.outputs);
      var tried := TryFrom(c.world, step, task, 0, None);
      ReadyTurn(c, id, st);
      SuccessReturned(c.world, step, task);
      FirstCalls(st.calls, id, tried.calls);
      if tried.outcome.Success? {
        value := tried.outcome.result;
      }
    } else {
      BlockedTurn(c, id, st);
    }
  }

  lemma OthersCallsKept(c: Context, id: string, st: RunState, other: string)
    requires Runnable(c, [id]) && other != id
    ensures AttemptsOf(RunStep(c, id, st).calls, other) == AttemptsOf(st.calls, other)
  {
    var n := StepCalls(c, id, st);
    AttemptsAppend(st.calls, id, other, n);
    assert AttemptsOf(st.calls, other) + [] == AttemptsOf(st.calls, other);
  }

  // ---- Along a run ---------------------------------------------------------------------------

  lemma WroteStays(c: Context, order: seq<string>, i: nat, k: nat, st: RunState, now: RunState, value: string)
    requires Runnable(c, order) && Distinct(order) && i < k < |order| && Runnable(c, [order[k]])
    requires Wrote(c, order, i, st, now, value)
    ensures Wrote(c, order, i, st, RunStep(c, order[k], now), value)
  {
    assert order[k] in [order[k]] && order[i] != order[k];
    RunStepFrame(c, order[k], now);
    OthersCallsKept(c, order[k], now, order[i]);
  }

  lemma WritersKept(c: Context, order: seq<string>, i: nat, k: nat, now: RunState, key: string)
    requires Runnable(c, order) && Distinct(order) && i < |order| && k < |order| && i != k && Runnable(c, [order[k]])
    requires order[i] in now.stepStatus
    ensures Writer(c, order, i, RunStep(c, order[k], now), key) <==> Writer(c, order, i, now, key)
  {
    assert order[k] in [order[k]];
    RunStepFrame(c, order[k], now);
  }

  /** The turn at place `k`, seen from an entry that it leaves alone. */
  lemma WriterStays(c: Context, order: seq<string>, k: nat, st: RunState, now: RunState, key: string)
    requires Runnable(c, order) && Distinct(order) && k < |order| && Runnable(c, [order[k]])
    requires forall id :: id in order ==> id in now.stepStatus
    requires HasWriter(c, order, k, st, now, key)
    requires var after := RunStep(c, order[k], now);
             !Writer(c, order, k, after, key) && key in after.outputs && after.outputs[key] == now.outputs[key]
    ensures HasWriter(c, order, k + 1, st, RunStep(c, order[k], now), key)
  {
    var after := RunStep(c, order[k], now);
    var i :| 0 <= i < k && LastWriter(c, order, i, k, st, now, key);
    WroteStays(c, order, i, k, st, now, now.outputs[key]);
    WritersKept(c, order, i, k, now, key);
    forall j | i < j < k + 1 ensures !Writer(c, order, j, after, key) {
      if j < k {
        WritersKept(c, order, j, k, now, key);
      }
    }
    assert LastWriter(c, order, i, k + 1, st, after, key);
  }

  lemma TurnKeepsTraced(c: Context, order: seq<string>, k: nat, st: RunState)
    requires Runnable(c, order) && Distinct(order) && k < |order| && Runnable(c, [order[k]])
    requires Sound(c, order[..k], StateAfter(c, order, k, st))
    requires Traced(c, order, k, st, StateAfter(c, order, k, st))
    ensures Traced(c, order, k + 1, st, RunStep(c, order[k], StateAfter(c, order, k, st)))
  {
    var now, id := StateAfter(c, order, k, st), order[k];
    var after := RunStep(c, id, now);
    assert id in order && id !in order[..k];
    NoCallsYet(c, order[..k], now, id);
    var value := StepReturned(c, id, now);
    RunStepFrame(c, id, now);
    forall i | 0 <= i < k + 1 && IsCompleted(after.stepStatus, order[i])
      ensures exists v :: Wrote(c, order, i, st, after, v)
    {
      if i < k {
        assert order[i] != id && order[i] in order;
        var v :| Wrote(c, order, i, st, now, v);
        WroteStays(c, order, i, k, st, now, v);
      } else {
        assert Wrote(c, order, k, st, after, value);
      }
    }
    forall key | key in after.outputs ensures HasWriter(c, order, k + 1, st, after, key) {
      if Writer(c, order, k, after, key) {
        assert LastWriter(c, order, k, k + 1, st, after, key);
      } else {
        WriterStays(c, order, k, st, now, key);
      }
    }
  }

  lemma NoCallsYet(c: Context, done: seq<string>, st: RunState, id: string)
    requires Sound(c, done, st) && id !in done
    ensures AttemptsOf(st.calls, id) == []
    ensures id in st.stepStatus ==> st.stepStatus[id] == Pending
  {
    NoCallsNoAttempts(st.calls, id);
  }

  lemma WriterStaysAtEnd(c: Context, order: seq<string>, k: nat, st: RunState, now: RunState, key: string)
    requires Runnable(c, order) && k < |order| && !IsCompleted(now.stepStatus, order[k])
    requires HasWriter(c, order, k, st, now, key)
    ensures HasWriter(c, order, k + 1, st, now, key)
  {
    var i :| 0 <= i < k && LastWriter(c, order, i, k, st, now, key);
    assert !Writer(c, order, k, now, key);
    assert LastWriter(c, order, i, k + 1, st, now, key);
  }

  lemma EndKeepsTraced(c: Context, order: seq<string>, k: nat, st: RunState, now: RunState)
    requires Runnable(c, order) && Distinct(order) && k < |order|
    requires Sound(c, order[..k], now) && Traced(c, order, k, st, now)
    ensures Traced(c, order, k + 1, st, now)
  {
    assert order[k] in order && order[k] !in order[..k];
    NoCallsYet(c, order[..k], now, order[k]);
    forall key | key in now.outputs ensures HasWriter(c, order, k + 1, st, now, key) {
      WriterStaysAtEnd(c, order, k, st, now, key);
    }
  }

  ghost predicate TracedAt(c: Context, order: seq<string>, k: nat, st: RunState)
    requires Runnable(c, order) && k <= |order|
  {
    Traced(c, order, k, st, StateAfter(c, order, k, st))
  }

  lemma NextTraced(c: Context, order: seq<string>, k: nat, st: RunState)
    requires Runnable(c, order) && Distinct(order) && k < |order| && Sound(c, [], st) && st.status == RunRunning
    requires TracedAt(c, order, k, st)
    ensures TracedAt(c, order, k + 1, st)
  {
    EveryStateSound(c, order, k, st);
    OneIteration(c, order, k, st);
    if StateAfter(c, order, k, st).status == RunRunning {
      TurnKeepsTraced(c, order, k, st);
    } else {
      EndKeepsTraced(c, order, k, st, StateAfter(c, order, k, st));
    }
  }

  lemma NothingToTrace(c: Context, order: seq<string>, st: RunState)
    requires Runnable(c, order) && st.outputs == map[]
    ensures TracedAt(c, order, 0, st)
  {
  }

  /** In every state of a run, every output comes from the logged call that returned it. */
  lemma EveryOutputTraced(c: Context, order: seq<string>, k: nat, st: RunState)
    requires Runnable(c, order) && Distinct(order) && k <= |order|
    requires Sound(c, [], st) && st.status == RunRunning && st.outputs == map[]
    ensures TracedAt(c, order, k, st)
  {
    NothingToTrace(c, order, st);
    forall j: nat | j < k && TracedAt(c, order, j, st) ensures TracedAt(c, order, j + 1, st) {
      NextTraced(c, order, j, st);
    }
    AfterSteps((j: nat) => j <= |order| && TracedAt(c, order, j, st), k);
  }

  // ---- Finished runs -------------------------------------------------------------------------

  /** The same for the finished run of any accepted pipeline, along any order. */
  lemma FinishedOutputsTraced(steps: seq<Step>, input: map<string, string>, w: World, order: seq<string>)
    requires ValidWorld(w, input) && IsTopologicalOrder(steps, order)
    ensures var c, final := Context(StepMap(steps), input, w), RunAll(steps, input, w, order);
            && Runnable(c, order) && OutputsSound(c, final)
            && Traced(c, order, |order|, Fresh(steps), final)
  {
    var c, st := Context(StepMap(steps), input, w), Fresh(steps);
    OrderCoversSteps(steps, order);
    FreshIsSound(steps, input, w);
    RunOutputs(c, order, st);
    EveryOutputTraced(c, order, |order|, st);
    RunIsLastState(c, order, st);
    SameTrace(c, order, |order|, st, StateAfter(c, order, |order|, st), Run(c, order, st));
  }

  lemma SameTrace(c: Context, order: seq<string>, k: nat, st: RunState, a: RunState, b: RunState)
    requires Runnable(c, order) && k <= |order| && Traced(c, order, k, st, a)
    requires b == a.(status := b.status)
    ensures Traced(c, order, k, st, b)
  {
    forall i | 0 <= i < k && IsCompleted(b.stepStatus, order[i]) ensures exists v :: Wrote(c, order, i, st, b, v) {
      var v :| Wrote(c, order, i, st, a, v);
      assert Wrote(c, order, i, st, b, v);
    }
    forall key | key in b.outputs ensures HasWriter(c, order, k, st, b, key) {
      assert HasWriter(c, order, k, st, a, key);
      var i :| 0 <= i < k && LastWriter(c, order, i, k, st, a, key);
      assert forall j :: i < j < k ==> Writer(c, order, j, b, key) == Writer(c, order, j, a, key);
      assert LastWriter(c, order, i, k, st, b, key);
    }
  }

  /** A completed step was executed if and only if its MaxRetries is not negative. */
  lemma CompletedIsExecutedIff(steps: seq<Step>, input: map<string, string>, w: World, order: seq<string>, id: string)
    requires ValidWorld(w, input) && IsTopologicalOrder(steps, order)
    requires IsCompleted(RunAll(steps, input, w, order).stepStatus, id) && id in StepMap(steps)
    ensures AttemptsOf(RunAll(steps, input, w, order).calls, id) != [] <==> StepMap(steps)[id].maxRetries >= 0
  {
    FinishedOutputsTraced(steps, input, w, order);
    OrderCoversSteps(steps, order);
    var c, final := Context(StepMap(steps), input, w), RunAll(steps, input, w, order);
    var i :| 0 <= i < |order| && order[i] == id;
    var v :| Wrote(c, order, i, Fresh(steps), final, v);
  }
}
