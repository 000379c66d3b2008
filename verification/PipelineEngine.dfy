/**
 The DAG runner: one pass over a topological order, updating step statuses, errors and outputs.
 Everything the run cannot decide for itself (what an executor returns, whether the context is
 cancelled or the agent registered at a given attempt, in which order maps are iterated) is read
 from a World, so every statement below is about all of those behaviours at once.
 */
module PipelineEngine {
  import opened Collections
  import opened TopologicalSort
  import Template

  datatype StepStatus = Pending | Running | Completed | Errored | Skipped | Cancelled

  datatype RunStatus = RunRunning | RunCompleted | RunError | RunCancelled

  /** What one pass through the retry loop meets. */
  datatype Attempt = Interrupted | Unregistered | Succeeded(result: string) | Failed(error: string)

  datatype World = World(
    attempt: (string, nat, string) -> Attempt,            // step, attempt number, resolved input
    inputOrder: string -> seq<string>,                    // iteration of the input map, per step
    outputOrder: (string, set<string>) -> seq<string>)    // iteration of the outputs map, per step

  datatype Call = Call(stepID: string, attempt: nat)

  datatype Context = Context(steps: map<string, Step>, input: map<string, string>, world: World)

  datatype RunState = RunState(
    status: RunStatus,
    outputs: map<string, string>,
    stepStatus: map<string, StepStatus>,
    stepErrors: map<string, string>,
    calls: seq<Call>)

  const STOP: string := "stop"
  const RETRY: string := "retry"

  ghost predicate ValidWorld(w: World, input: map<string, string>) {
    && (forall id :: Template.Enumerates(w.inputOrder(id), input.Keys))
    && (forall id, keys :: Template.Enumerates(w.outputOrder(id, keys), keys))
  }

  // ---- One step, as a function on values -----------------------------------------------------

  /** The dependency at which the waiting loop gives up. */
  function FirstUnmet(deps: seq<string>, stepStatus: map<string, StepStatus>): (r: Option<string>)
    ensures r.Some? ==> r.value in deps && !IsCompleted(stepStatus, r.value)
    ensures r.None? <==> forall d :: d in deps ==> IsCompleted(stepStatus, d)
  {
    if deps == [] then None
    else if !IsCompleted(stepStatus, deps[0]) then Some(deps[0])
    else FirstUnmet(deps[1..], stepStatus)
  }

  predicate IsCompleted(stepStatus: map<string, StepStatus>, id: string) {
    id in stepStatus && stepStatus[id] == Completed
  }

  /** A read of StepErrors: absent entries are the empty text. */
  function ErrorText(errors: map<string, string>, id: string): string {
    if id in errors then errors[id] else ""
  }

  function NotRegistered(agentID: string): string {
    "agent \"" + agentID + "\" not registered"
  }

  function DependencyFailed(dep: string, error: string): string {
    "dependency " + dep + " failed: " + error
  }

  datatype Outcome = Stopped | Failure(error: string) | Success(result: string)

  /** The outcome of the retry loop and how many times it called the executor. */
  datatype Tried = Tried(outcome: Outcome, calls: nat)

  /** The retry loop from attempt `k` on, `err` being the error of the attempt before. */
  function TryFrom(w: World, step: Step, task: string, k: nat, err: Option<string>): Tried
    decreases step.maxRetries + 1 - k
  {
    if k > step.maxRetries then Tried(if err.None? then Success("") else Failure(err.value), k)
    else match w.attempt(step.id, k, task)
      case Interrupted => Tried(Stopped, k)
      case Unregistered => Tried(Failure(NotRegistered(step.agentID)), k)
      case Succeeded(r) => Tried(Success(r), k + 1)
      case Failed(e) =>
        if step.errorStrategy != RETRY then Tried(Failure(e), k + 1)
        else TryFrom(w, step, task, k + 1, Some(e))
  }

  function CallLog(id: string, n: nat): (log: seq<Call>)
    ensures |log| == n
    ensures forall i :: 0 <= i < n ==> log[i] == Call(id, i)
  {
    seq(n, i requires 0 <= i < n => Call(id, i))
  }

  function OutputKey(step: Step): string {
    if step.outputKey != "" then step.outputKey else step.id
  }

  /** What the end of the retry loop writes into the run. */
  function Conclude(step: Step, outcome: Outcome, st: RunState): RunState {
    match outcome
    case Stopped =>
      st.(status := RunCancelled, stepStatus := st.stepStatus[step.id := Cancelled])
    case Failure(e) =>
      st.(status := if step.errorStrategy == STOP then RunError else st.status,
          stepStatus := st.stepStatus[step.id := Errored],
          stepErrors := st.stepErrors[step.id := e])
    case Success(r) =>
      st.(stepStatus := st.stepStatus[step.id := Completed],
          outputs := st.outputs[OutputKey(step) := r])
  }

  /** One iteration of the loop over the topological order. */
  ghost function RunStep(c: Context, id: string, st: RunState): RunState
    requires ValidWorld(c.world, c.input) && id in c.steps && c.steps[id].id == id
  {
    var step := c.steps[id];
    var running := st.(stepStatus := st.stepStatus[id := Running]);
    match FirstUnmet(step.dependsOn, running.stepStatus)
    case Some(d) =>
      var text := ErrorText(st.stepErrors, d);
      if text != "" && step.errorStrategy == STOP then
        running.(stepStatus := running.stepStatus[id := Skipped],
                 stepErrors := st.stepErrors[id := DependencyFailed(d, text)])
      else running
    case None =>
      var task := TaskInput(c, id, st.outputs);
      var tried := TryFrom(c.world, step, task, 0, None);
      Conclude(step, tried.outcome, running.(calls := st.calls + CallLog(step.id, tried.calls)))
  }

  /** Of the per-step maps, `b` differs from `a` at `id` at most. */
  ghost predicate OnlyTouches(id: string, a: RunState, b: RunState) {
    && b.stepStatus.Keys == a.stepStatus.Keys + {id}
    && (forall other :: other in a.stepStatus && other != id ==> b.stepStatus[other] == a.stepStatus[other])
    && (forall other :: other != id ==> (other in b.stepErrors <==> other in a.stepErrors))
    && (forall other :: other != id ==> ErrorText(b.stepErrors, other) == ErrorText(a.stepErrors, other))
  }

  lemma ConcludeFrame(step: Step, outcome: Outcome, st: RunState)
    ensures OnlyTouches(step.id, st, Conclude(step, outcome, st))
  {
  }

  lemma ReadyStep(c: Context, id: string, st: RunState)
    requires ValidWorld(c.world, c.input) && id in c.steps && c.steps[id].id == id
    requires FirstUnmet(c.steps[id].dependsOn, st.stepStatus[id := Running]).None?
    ensures var tried := TryFrom(c.world, c.steps[id], TaskInput(c, id, st.outputs), 0, None);
            RunStep(c, id, st) == Conclude(c.steps[id], tried.outcome,
              st.(stepStatus := st.stepStatus[id := Running], calls := st.calls + CallLog(id, tried.calls)))
  {
  }

  lemma RunningFrame(id: string, a: RunState, b: RunState)
    requires OnlyTouches(id, a.(stepStatus := a.stepStatus[id := Running]), b)
    ensures OnlyTouches(id, a, b)
  {
  }

  lemma WaitingFrame(c: Context, id: string, st: RunState)
    requires ValidWorld(c.world, c.input) && id in c.steps && c.steps[id].id == id
    requires FirstUnmet(c.steps[id].dependsOn, st.stepStatus[id := Running]).Some?
    ensures OnlyTouches(id, st, RunStep(c, id, st))
  {
  }

  /** Processing a step touches no status and no error but its own. */
  lemma RunStepFrame(c: Context, id: string, st: RunState)
    requires ValidWorld(c.world, c.input) && id in c.steps && c.steps[id].id == id
    ensures OnlyTouches(id, st, RunStep(c, id, st))
  {
    if FirstUnmet(c.steps[id].dependsOn, st.stepStatus[id := Running]).None? {
      var tried := TryFrom(c.world, c.steps[id], TaskInput(c, id, st.outputs), 0, None);
      var called := st.(stepStatus := st.stepStatus[id := Running], calls := st.calls + CallLog(id, tried.calls));
      ReadyStep(c, id, st);
      ConcludeFrame(c.steps[id], tried.outcome, called);
      RunningFrame(id, st, RunStep(c, id, st));
    } else {
      WaitingFrame(c, id, st);
    }
  }

  ghost function TaskInput(c: Context, id: string, outputs: map<string, string>): string
    requires ValidWorld(c.world, c.input) && id in c.steps
  {
    assert Template.Enumerates(c.world.inputOrder(id), c.input.Keys);
    assert Template.Enumerates(c.world.outputOrder(id, outputs.Keys), outputs.Keys);
    Template.Resolved(c.steps[id].inputTemplate, c.input, outputs,
                      c.world.inputOrder(id), c.world.outputOrder(id, outputs.Keys))
  }

  /** The whole loop: it goes on while the run is still "running". */
  ghost function Run(c: Context, order: seq<string>, st: RunState): RunState
    requires ValidWorld(c.world, c.input) && forall id :: id in order ==> id in c.steps && c.steps[id].id == id
    decreases |order|
  {
    if order == [] then st.(status := RunCompleted)
    else
      var st' := RunStep(c, order[0], st);
      if st'.status != RunRunning then st' else Run(c, order[1..], st')
  }

  function StepMap(steps: seq<Step>): (m: map<string, Step>)
    ensures forall id :: id in m <==> id in Ids(steps)
    ensures forall id :: id in m ==> m[id] in steps && m[id].id == id
  {
    if steps == [] then map[]
    else
      var last := steps[|steps| - 1];
      assert Ids(steps) == Ids(steps[..|steps| - 1]) + [last.id];
      StepMap(steps[..|steps| - 1])[last.id := last]
  }

  /** Under distinct ids the map holds the one step of each name. */
  lemma {:induction false} OneStepPerName(steps: seq<Step>, i: nat)
    requires Distinct(Ids(steps)) && i < |steps|
    ensures steps[i].id in StepMap(steps) && StepMap(steps)[steps[i].id] == steps[i]
  {
    var n := |steps| - 1;
    if i == n {
    } else {
      assert Ids(steps[..n]) == Ids(steps)[..n];
      assert Ids(steps)[i] != Ids(steps)[n];
      OneStepPerName(steps[..n], i);
    }
  }

  lemma MapHoldsSteps(steps: seq<Step>, x: string, d: string)
    requires x in StepMap(steps) && d in StepMap(steps)[x].dependsOn
    ensures DependsOn(steps, x, d)
  {
    var k :| 0 <= k < |steps| && steps[k] == StepMap(steps)[x];
  }

  function AllPending(steps: seq<Step>): map<string, StepStatus> {
    map id | id in Ids(steps) :: Pending
  }

  function Fresh(steps: seq<Step>): RunState {
    RunState(RunRunning, map[], AllPending(steps), map[], [])
  }

  /** The run of a pipeline along a given order. */
  ghost function RunAll(steps: seq<Step>, input: map<string, string>, w: World, order: seq<string>): RunState
    requires ValidWorld(w, input) && IsTopologicalOrder(steps, order)
  {
    OrderCoversSteps(steps, order);
    Run(Context(StepMap(steps), input, w), order, Fresh(steps))
  }

  lemma OrderCoversSteps(steps: seq<Step>, order: seq<string>)
    requires IsTopologicalOrder(steps, order)
    ensures forall id :: id in order <==> id in Ids(steps)
  {
    forall id ensures id in order <==> id in Ids(steps) {
      assert id in order <==> id in multiset(order);
      assert id in Ids(steps) <==> id in multiset(Ids(steps));
    }
  }

  // ---- Statuses over time --------------------------------------------------------------------

  predicate Terminal(s: StepStatus) {
    s != Pending && s != Running
  }

  predicate LegalMove(a: StepStatus, b: StepStatus) {
    a == b || (a == Pending && b == Running) || (a == Running && Terminal(b))
  }

  ghost predicate LegalChange(a: map<string, StepStatus>, b: map<string, StepStatus>) {
    a.Keys == b.Keys && forall id :: id in a ==> LegalMove(a[id], b[id])
  }

  /** Every two consecutive values the StepStatus map took are one legal change apart. */
  ghost predicate LegalHistory(h: seq<map<string, StepStatus>>) {
    h != [] && forall i :: 0 <= i < |h| - 1 ==> LegalChange(h[i], h[i + 1])
  }

  /** A terminal status is never left, and a step that has started never returns to "pending". */
  lemma {:induction false} TerminalForever(h: seq<map<string, StepStatus>>, i: nat, j: nat, id: string)
    requires LegalHistory(h) && i <= j < |h| && id in h[i]
    ensures id in h[j]
    ensures Terminal(h[i][id]) ==> h[j][id] == h[i][id]
    ensures h[i][id] != Pending ==> h[j][id] != Pending
    decreases j - i
  {
    if i == j {
    } else {
      assert LegalChange(h[i], h[i + 1]);
      TerminalForever(h, i + 1, j, id);
    }
  }

  // ---- The run object and the engine ---------------------------------------------------------

  class PipelineRun {
    var Status: RunStatus
    var Outputs: map<string, string>
    var StepStatus: map<string, StepStatus>
    var StepErrors: map<string, string>
    ghost var calls: seq<Call>
    ghost var history: seq<map<string, StepStatus>>

    constructor (steps: seq<Step>)
      ensures View() == Fresh(steps) && history == [AllPending(steps)]
    {
      Status, Outputs, StepErrors := RunRunning, map[], map[];
      StepStatus := AllPending(steps);
      calls, history := [], [AllPending(steps)];
    }

    ghost function View(): RunState
      reads this
    {
      RunState(Status, Outputs, StepStatus, StepErrors, calls)
    }

    ghost predicate Recorded()
      reads this
    {
      LegalHistory(history) && history[|history| - 1] == StepStatus
    }

    method SetStatus(id: string, s: StepStatus)
      requires Recorded() && id in StepStatus && LegalMove(StepStatus[id], s)
      modifies this`StepStatus, this`history
      ensures Recorded() && old(history) <= history
      ensures StepStatus == old(StepStatus)[id := s]
    {
      StepStatus := StepStatus[id := s];
      history := history + [StepStatus];
    }
  }

  /** The loop that waits for dependencies, with the one way in which it marks the step itself. */
  method WaitForDependencies(step: Step, run: PipelineRun) returns (allDepsMet: bool)
    requires run.Recorded() && step.id in run.StepStatus && run.StepStatus[step.id] == Running
    modifies run`StepStatus, run`StepErrors, run`history
    ensures run.Recorded() && old(run.history) <= run.history
    ensures allDepsMet == FirstUnmet(step.dependsOn, old(run.StepStatus)).None?
    ensures var unmet := FirstUnmet(step.dependsOn, old(run.StepStatus));
            if unmet.Some? && unmet.value in old(run.StepErrors) && old(run.StepErrors)[unmet.value] != ""
               && step.errorStrategy == "stop" then
              && run.StepStatus == old(run.StepStatus)[step.id := Skipped]
              && run.StepErrors == old(run.StepErrors)[step.id :=
                   "dependency " + unmet.value + " failed: " + old(run.StepErrors)[unmet.value]]
            else run.StepStatus == old(run.StepStatus) && run.StepErrors == old(run.StepErrors)
  {
    allDepsMet := true;
    for j := 0 to |step.dependsOn|
      invariant allDepsMet && unchanged(run)
      invariant FirstUnmet(step.dependsOn, run.StepStatus) == FirstUnmet(step.dependsOn[j..], run.StepStatus)
    {
      var depID := step.dependsOn[j];
      assert step.dependsOn[j..][1..] == step.dependsOn[j + 1..];
      var depErr := ErrorText(run.StepErrors, depID);
      if !IsCompleted(run.StepStatus, depID) {
        if depErr != "" && step.errorStrategy == STOP {
          allDepsMet := false;
          run.SetStatus(step.id, Skipped);
          run.StepErrors := run.StepErrors[step.id := DependencyFailed(depID, depErr)];
          break;
        }
        allDepsMet := false;
        break;
      }
    }
  }

  /** The retry loop. */
  method TryStep(w: World, step: Step, task: string) returns (outcome: Outcome, ghost calls: nat)
    ensures outcome == TryFrom(w, step, task, 0, None).outcome
    ensures calls == TryFrom(w, step, task, 0, None).calls
  {
    var result, execErr: Option<string> := "", None;
    calls := 0;
    var attempt := 0;
    while attempt <= step.maxRetries
      invariant 0 <= attempt == calls
      invariant execErr.None? ==> result == ""
      invariant TryFrom(w, step, task, 0, None) == TryFrom(w, step, task, attempt, execErr)
      decreases step.maxRetries + 1 - attempt
    {
      match w.attempt(step.id, attempt, task) {
        case Interrupted =>
          return Stopped, calls;
        case Unregistered =>
          execErr := Some(NotRegistered(step.agentID));
          break;
        case Succeeded(r) =>
          calls := calls + 1;
          result, execErr := r, None;
          break;
        case Failed(e) =>
          calls := calls + 1;
          execErr := Some(e);
          if step.errorStrategy != RETRY {
            break;
          }
      }
      attempt := attempt + 1;
    }
    outcome := if execErr.Some? then Failure(execErr.value) else Success(result);
  }

  /** The end of the retry loop; `go` is false when Execute returns at once. */
  method ConcludeStep(step: Step, outcome: Outcome, run: PipelineRun) returns (go: bool, err: Option<string>)
    requires run.Recorded() && run.Status == RunRunning
    requires step.id in run.StepStatus && run.StepStatus[step.id] == Running
    modifies run
    ensures run.Recorded() && old(run.history) <= run.history
    ensures run.View() == Conclude(step, outcome, old(run.View()))
    ensures match outcome
            case Stopped =>
              && run.Status == RunCancelled && run.StepStatus == old(run.StepStatus)[step.id := Cancelled]
              && run.StepErrors == old(run.StepErrors) && run.Outputs == old(run.Outputs)
            case Failure(e) =>
              && run.Status == (if step.errorStrategy == "stop" then RunError else RunRunning)
              && run.StepStatus == old(run.StepStatus)[step.id := Errored]
              && run.StepErrors == old(run.StepErrors)[step.id := e] && run.Outputs == old(run.Outputs)
              && (step.errorStrategy == "stop" ==> err == Some(e))
            case Success(r) =>
              && run.Status == RunRunning && run.StepStatus == old(run.StepStatus)[step.id := Completed]
              && run.StepErrors == old(run.StepErrors)
              && (step.outputKey != "" ==> run.Outputs == old(run.Outputs)[step.outputKey := r])
              && (step.outputKey == "" ==> run.Outputs == old(run.Outputs)[step.id := r])
    ensures go <==> run.Status == RunRunning
    ensures err.Some? <==> run.Status == RunError
  {
    match outcome {
      case Stopped =>
        run.Status := RunCancelled;
        run.SetStatus(step.id, Cancelled);
        return false, None;
      case Failure(e) =>
        run.SetStatus(step.id, Errored);
        run.StepErrors := run.StepErrors[step.id := e];
        if step.errorStrategy == STOP {
          run.Status := RunError;
          return false, Some(e);
        }
      case Success(r) =>
        run.SetStatus(step.id, Completed);
        if step.outputKey != "" {
          run.Outputs := run.Outputs[step.outputKey := r];
        }
        if step.outputKey == "" {
          run.Outputs := run.Outputs[step.id := r];
        }
    }
    return true, None;
  }

  predicate FailsWith(st: RunState, id: string, error: string) {
    id in st.stepStatus && st.stepStatus[id] == Errored && id in st.stepErrors && st.stepErrors[id] == error
  }

  /** The body of the loop over the topological order; `go` is false when Execute returns from it. */
  method ProcessStep(c: Context, id: string, run: PipelineRun) returns (go: bool, err: Option<string>)
    requires ValidWorld(c.world, c.input) && id in c.steps && c.steps[id].id == id
    requires run.Recorded() && run.Status == RunRunning
    requires id in run.StepStatus && run.StepStatus[id] == Pending
    modifies run
    ensures run.Recorded() && old(run.history) <= run.history
    ensures run.View() == RunStep(c, id, old(run.View()))
    ensures go <==> run.Status == RunRunning
    ensures err.Some? <==> run.Status == RunError
    ensures err.Some? ==> FailsWith(run.View(), id, err.value)
  {
    var step := c.steps[id];
    err := None;
    run.SetStatus(id, Running);
    ghost var running := run.StepStatus;
    var allDepsMet := WaitForDependencies(step, run);
    if !allDepsMet {
      return true, None;
    }
    assert Template.Enumerates(c.world.inputOrder(id), c.input.Keys);
    assert Template.Enumerates(c.world.outputOrder(id, run.Outputs.Keys), run.Outputs.Keys);
    var task := Template.ResolveTemplate(step.inputTemplate, c.input, run.Outputs,
                                         c.world.inputOrder(id), c.world.outputOrder(id, run.Outputs.Keys));
    var outcome, calls := TryStep(c.world, step, task);
    run.calls := run.calls + CallLog(step.id, calls);
    go, err := ConcludeStep(step, outcome, run);
  }

  /** The loop over the topological order, up to the end of Execute. */
  method RunOrder(c: Context, order: seq<string>, run: PipelineRun) returns (err: Option<string>)
    requires ValidWorld(c.world, c.input) && Distinct(order)
    requires forall id :: id in order ==> id in c.steps && c.steps[id].id == id
    requires run.Recorded() && run.Status == RunRunning
    requires forall id :: id in order ==> id in run.StepStatus && run.StepStatus[id] == Pending
    modifies run
    ensures run.Recorded() && old(run.history) <= run.history
    ensures run.View() == Run(c, order, old(run.View()))
    ensures err.Some? <==> run.Status == RunError
    ensures err.Some? ==> exists id :: id in order && FailsWith(run.View(), id, err.value)
  {
    ghost var start := run.View();
    assert order[0..] == order;
    for i := 0 to |order|
      invariant run.Recorded() && old(run.history) <= run.history
      invariant run.Status == RunRunning
      invariant forall j :: i <= j < |order| ==> order[j] in run.StepStatus && run.StepStatus[order[j]] == Pending
      invariant Run(c, order, start) == Run(c, order[i..], run.View())
    {
      var id := order[i];
      assert order[i..][0] == id && order[i..][1..] == order[i + 1..];
      assert forall j :: i < j < |order| ==> order[j] != id;
      RunStepFrame(c, id, run.View());
      var go: bool;
      go, err := ProcessStep(c, id, run);
      if !go {
        return err;
      }
    }
    run.Status := RunCompleted;
    return None;
  }

  /** `run` ended as the run along some topological order does, whatever order the sort came up with. */
  ghost predicate FollowsSomeOrder(steps: seq<Step>, input: map<string, string>, w: World, final: RunState)
    requires ValidWorld(w, input)
  {
    exists order :: IsTopologicalOrder(steps, order) && final == RunAll(steps, input, w, order)
  }

  /** The same for the orders the sort can come up with: one for each way of coming across the first steps. */
  ghost predicate FollowsSomeSeeding(steps: seq<Step>, input: map<string, string>, w: World, final: RunState)
    requires ValidWorld(w, input)
  {
    exists seeds :: FollowsSeeding(steps, input, w, seeds, final)
  }

  ghost predicate FollowsSeeding(steps: seq<Step>, input: map<string, string>, w: World, seeds: seq<string>,
                                 final: RunState)
    requires ValidWorld(w, input)
  {
    && IsSeeding(steps, seeds) && IsTopologicalOrder(steps, KahnOrder(steps, seeds))
    && final == RunAll(steps, input, w, KahnOrder(steps, seeds))
  }

  method Execute(steps: seq<Step>, input: map<string, string>, w: World) returns (run: PipelineRun, err: Option<string>)
    requires ValidWorld(w, input)
    ensures fresh(run)
    ensures run.Recorded() && run.history[0] == AllPending(steps)
    ensures err.Some? <==> run.Status == RunError
    ensures !WellFormed(steps) ==> run.View() == Fresh(steps).(status := RunError)
    ensures WellFormed(steps) && err.Some? ==> exists id :: id in Ids(steps) && FailsWith(run.View(), id, err.value)
    ensures WellFormed(steps) ==> FollowsSomeOrder(steps, input, w, run.View())
    ensures WellFormed(steps) ==> FollowsSomeSeeding(steps, input, w, run.View())
  {
    run := new PipelineRun(steps);
    var sorted := TopologicalSort.TopologicalSort(steps);
    if sorted.None? {
      run.Status := RunError;
      return run, Some("circular dependency detected in pipeline");
    }
    OrderCoversSteps(steps, sorted.value);
    err := RunOrder(Context(StepMap(steps), input, w), sorted.value, run);
    assert run.View() == RunAll(steps, input, w, sorted.value);
    ghost var seeds :| SortsFrom(steps, seeds, sorted);
    assert FollowsSeeding(steps, input, w, seeds, run.View());
  }
}
