/**
 Confluence with data flowing through the templates: executors may react to the text they are handed.
 If every step's template only refers to the outputs of steps it depends on, directly or through others,
 the whole result of a run (statuses, errors and outputs) is the same for every order of the sort and of the maps.
 */
module DataConfluence {
  import opened Collections
  import opened TopologicalSort
  import opened PipelineEngine
  import opened RunInvariants
  import opened Confluence
  import Template

  // ---- What is asked of a pipeline and its executors -----------------------------------------

  ghost predicate DistinctKeys(steps: map<string, Step>) {
    forall a, b :: a in steps && b in steps && OutputKey(steps[a]) == OutputKey(steps[b]) ==> a == b
  }

  /** The two outputs hold the same under the keys of the step's transitive dependencies. */
  ghost predicate SameBelow(steps: map<string, Step>, id: string, o1: map<string, string>, o2: map<string, string>)
    requires id in steps
  {
    forall d :: Needs(steps, id, d) && d in steps ==> SameAt(OutputKey(steps[d]), o1, o2)
  }

  ghost predicate SameAt(key: string, o1: map<string, string>, o2: map<string, string>) {
    (key in o1 <==> key in o2) && (key in o1 ==> o1[key] == o2[key])
  }

  /** The text a step is handed is a function of the outputs of its dependencies, the same one in both contexts. */
  ghost predicate Local(c1: Context, c2: Context)
    requires ValidWorld(c1.world, c1.input) && ValidWorld(c2.world, c2.input) && c1.steps == c2.steps
  {
    forall id, o1, o2 ::
      id in c1.steps && Template.Plain(o1) && Template.Plain(o2) && SameBelow(c1.steps, id, o1, o2)
      ==> TaskInput(c1, id, o1) == TaskInput(c2, id, o2)
  }

  /** Results bring no placeholder into later templates, and keys no closing brace. */
  ghost predicate PlainData(c: Context) {
    && (forall id :: id in c.steps ==> '}' !in OutputKey(c.steps[id]))
    && (forall id, k, x :: c.world.attempt(id, k, x).Succeeded? ==>
       Template.NoOpening(c.world.attempt(id, k, x).result))
  }

  ghost predicate Disciplined(c: Context) {
    && ValidWorld(c.world, c.input)
    && (forall id :: id in c.steps ==> c.steps[id].id == id)
    && NeverCancelled(c.world) && DistinctKeys(c.steps) && PlainData(c) && Local(c, c)
  }

  // ---- Templates that refer to dependencies only ---------------------------------------------

  /** The step's template, and that its placeholders name inputs or outputs of dependencies. */
  ghost predicate RefersBelow(steps: map<string, Step>, id: string, segs: seq<Template.Segment>)
    requires id in steps
  {
    && steps[id].inputTemplate == Template.Render(segs)
    && Template.WellFormed(segs)
    && forall i :: 0 <= i < |segs| && segs[i].Hole? && Template.STEPS <= segs[i].name ==>
         exists d :: Needs(steps, id, d) && d in steps && segs[i].name == Template.STEPS + OutputKey(steps[d])
  }

  /** Such templates make the task text local, whatever the two worlds' iteration orders. */
  lemma TemplatesAreLocal(c1: Context, c2: Context, templates: map<string, seq<Template.Segment>>)
    requires ValidWorld(c1.world, c1.input) && ValidWorld(c2.world, c2.input)
    requires c1.steps == c2.steps && c1.input == c2.input && Template.Plain(c1.input)
    requires forall id :: id in c1.steps ==> id in templates && RefersBelow(c1.steps, id, templates[id])
    ensures Local(c1, c2)
  {
    forall id, o1, o2 |
      id in c1.steps && Template.Plain(o1) && Template.Plain(o2) && SameBelow(c1.steps, id, o1, o2)
      ensures TaskInput(c1, id, o1) == TaskInput(c2, id, o2)
    {
      var segs := templates[id];
      TaskIsSubstitution(c1, id, o1, segs);
      TaskIsSubstitution(c2, id, o2, segs);
      forall i | 0 <= i < |segs|
        ensures Template.Fill(segs[i], Template.Environment(c1.input, o1))
          == Template.Fill(segs[i], Template.Environment(c1.input, o2))
      {
        HoleIsLocal(c1.steps, id, segs, i, c1.input, o1, o2);
      }
      assert Template.Substitute(segs, Template.Environment(c1.input, o1))
        == Template.Substitute(segs, Template.Environment(c1.input, o2));
    }
  }

  lemma TaskIsSubstitution(c: Context, id: string, outputs: map<string, string>, segs: seq<Template.Segment>)
    requires ValidWorld(c.world, c.input) && id in c.steps
    requires Template.Plain(c.input) && Template.Plain(outputs)
    requires c.steps[id].inputTemplate == Template.Render(segs) && Template.WellFormed(segs)
    ensures TaskInput(c, id, outputs)
      == Template.Render(Template.Substitute(segs, Template.Environment(c.input, outputs)))
  {
    assert Template.Enumerates(c.world.inputOrder(id), c.input.Keys);
    assert Template.Enumerates(c.world.outputOrder(id, outputs.Keys), outputs.Keys);
    Template.PlainIsTame(c.input, outputs);
    Template.ResolveIsSimultaneous(segs, c.input, outputs, c.world.inputOrder(id),
      c.world.outputOrder(id, outputs.Keys));
  }

  lemma HoleIsLocal(steps: map<string, Step>, id: string, segs: seq<Template.Segment>, i: nat,
                    input: map<string, string>, o1: map<string, string>, o2: map<string, string>)
    requires id in steps && RefersBelow(steps, id, segs) && i < |segs| && SameBelow(steps, id, o1, o2)
    ensures Template.Fill(segs[i], Template.Environment(input, o1))
      == Template.Fill(segs[i], Template.Environment(input, o2))
  {
    if segs[i].Hole? {
      var n := segs[i].name;
      EnvironmentAt(input, o1, n);
      EnvironmentAt(input, o2, n);
      if Template.STEPS <= n {
        var d :| Needs(steps, id, d) && d in steps && n == Template.STEPS + OutputKey(steps[d]);
        assert n[|Template.STEPS|..] == OutputKey(steps[d]);
        assert SameAt(OutputKey(steps[d]), o1, o2);
      }
    }
  }

  /** What a name stands for: a step output if it says so, else an input. */
  lemma EnvironmentAt(input: map<string, string>, outputs: map<string, string>, n: string)
    ensures var env := Template.Environment(input, outputs);
            if Template.STEPS <= n then
              var k := n[|Template.STEPS|..];
              (n in env <==> k in outputs) && (n in env ==> env[n] == outputs[k])
            else
              && (n in env <==> Template.INPUT <= n && n[|Template.INPUT|..] in input)
              && (n in env ==> env[n] == input[n[|Template.INPUT|..]])
  {
    Template.QualifiedNames(Template.INPUT, input.Keys, input);
    Template.QualifiedNames(Template.STEPS, outputs.Keys, outputs);
    assert Template.STEPS[0] != Template.INPUT[0];
    assert Template.STEPS <= n ==> n[0] == Template.STEPS[0];
  }

  // ---- Outputs stay plain --------------------------------------------------------------------

  lemma {:induction false} SuccessIsPlain(c: Context, id: string, task: string, k: nat, err: Option<string>)
    requires PlainData(c) && id in c.steps
    ensures var o := TryFrom(c.world, c.steps[id], task, k, err).outcome; o.Success? ==> Template.NoOpening(o.result)
    decreases c.steps[id].maxRetries + 1 - k
  {
    var step := c.steps[id];
    if k > step.maxRetries {
    } else if c.world.attempt(step.id, k, task).Failed? && step.errorStrategy == RETRY {
      SuccessIsPlain(c, id, task, k + 1, Some(c.world.attempt(step.id, k, task).error));
    }
  }

  lemma StepKeepsPlain(c: Context, id: string, st: RunState)
    requires Runnable(c, [id]) && PlainData(c) && !IsCompleted(st.stepStatus, id) && Template.Plain(st.outputs)
    ensures Template.Plain(RunStep(c, id, st).outputs)
  {
    StepOutput(c, id, st);
    if IsCompleted(RunStep(c, id, st).stepStatus, id) {
      var task, value :| TryFrom(c.world, c.steps[id], task, 0, None).outcome == Success(value)
        && RunStep(c, id, st).outputs == st.outputs[OutputKey(c.steps[id]) := value];
      SuccessIsPlain(c, id, task, 0, None);
    }
  }

  // ---- Equations between a step and its dependencies -----------------------------------------

  ghost predicate Accounted(c: Context, id: string, st: RunState)
    requires ValidWorld(c.world, c.input) && id in c.steps
  {
    var step, ss, errs := c.steps[id], st.stepStatus, st.stepErrors;
    id in ss &&
    match FirstUnmet(step.dependsOn, ss)
    case Some(d) =>
      if ErrorText(errs, d) != "" && step.errorStrategy == STOP then
        ss[id] == Skipped && id in errs && errs[id] == DependencyFailed(d, ErrorText(errs, d))
      else ss[id] == Running && id !in errs
    case None =>
      match TryFrom(c.world, step, TaskInput(c, id, st.outputs), 0, None).outcome
      case Success(r) =>
        ss[id] == Completed && id !in errs && OutputKey(step) in st.outputs && st.outputs[OutputKey(step)] == r
      case Failure(e) =>
        ss[id] == Errored && id in errs && errs[id] == e && step.errorStrategy != STOP
      case Stopped => false
  }

  /** The step is ready and its attempts end in a failure under "stop". */
  ghost predicate Halts(c: Context, id: string, st: RunState)
    requires ValidWorld(c.world, c.input) && id in c.steps
  {
    && FirstUnmet(c.steps[id].dependsOn, st.stepStatus).None?
    && TryFrom(c.world, c.steps[id], TaskInput(c, id, st.outputs), 0, None).outcome.Failure?
    && c.steps[id].errorStrategy == STOP
  }

  /** All a step's equation can see of a state. */
  ghost predicate LooksAlike(c: Context, id: string, a: RunState, b: RunState)
    requires id in c.steps
  {
    && AlikeAt(c, id, a, b)
    && forall d :: Needs(c.steps, id, d) && d in c.steps ==> AlikeAt(c, d, a, b)
  }

  ghost predicate AlikeAt(c: Context, id: string, a: RunState, b: RunState)
    requires id in c.steps
  {
    && AgreeAt(id, a.stepStatus, a.stepErrors, b.stepStatus, b.stepErrors)
    && SameAt(OutputKey(c.steps[id]), a.outputs, b.outputs)
  }

  ghost predicate DependenciesListed(c: Context, id: string)
    requires id in c.steps
  {
    forall d :: Needs(c.steps, id, d) ==> d in c.steps
  }

  lemma AccountedFrame(c: Context, id: string, a: RunState, b: RunState)
    requires Disciplined(c) && id in c.steps && DependenciesListed(c, id)
    requires Template.Plain(a.outputs) && Template.Plain(b.outputs)
    requires LooksAlike(c, id, a, b) && Accounted(c, id, a)
    ensures Accounted(c, id, b)
  {
    DependenciesAlike(c, c, id, a, b);
  }

  /** States alike at the dependencies of a step lead it to the same task text. */
  lemma DependenciesAlike(c1: Context, c2: Context, id: string, a: RunState, b: RunState)
    requires ValidWorld(c1.world, c1.input) && ValidWorld(c2.world, c2.input) && c1.steps == c2.steps
    requires Local(c1, c2) && id in c1.steps && DependenciesListed(c1, id)
    requires Template.Plain(a.outputs) && Template.Plain(b.outputs)
    requires forall d :: Needs(c1.steps, id, d) ==> AlikeAt(c1, d, a, b)
    ensures FirstUnmet(c1.steps[id].dependsOn, a.stepStatus) == FirstUnmet(c1.steps[id].dependsOn, b.stepStatus)
    ensures TaskInput(c1, id, a.outputs) == TaskInput(c2, id, b.outputs)
    ensures forall d :: d in c1.steps[id].dependsOn ==> ErrorText(a.stepErrors, d) == ErrorText(b.stepErrors, d)
  {
    forall d | d in c1.steps[id].dependsOn ensures d in c1.steps && AlikeAt(c1, d, a, b) {
      NeedsDirectly(c1.steps, id, d);
    }
    FirstUnmetFrame(c1.steps[id].dependsOn, a.stepStatus, b.stepStatus);
    assert SameBelow(c1.steps, id, a.outputs, b.outputs);
  }

  // ---- One step ------------------------------------------------------------------------------

  /** Everything but the step itself looks the same before and after its turn. */
  lemma OthersAlike(c: Context, id: string, st: RunState, other: string)
    requires Runnable(c, [id]) && DistinctKeys(c.steps) && !IsCompleted(st.stepStatus, id)
    requires other in c.steps && other != id && other in st.stepStatus
    ensures AlikeAt(c, other, st, RunStep(c, id, st))
  {
    assert id in [id];
    var st' := RunStep(c, id, st);
    RunStepFrame(c, id, st);
    StepOutput(c, id, st);
    assert ErrorText(st'.stepErrors, other) == ErrorText(st.stepErrors, other);
  }

  lemma TurnAccounted(c: Context, id: string, st: RunState)
    requires Disciplined(c) && Runnable(c, [id]) && id in c.steps && DependenciesListed(c, id)
    requires st.status == RunRunning && Template.Plain(st.outputs)
    requires id in st.stepStatus && st.stepStatus[id] == Pending && id !in st.stepErrors
    requires forall d :: Needs(c.steps, id, d) ==> d != id && d in st.stepStatus
    ensures var st' := RunStep(c, id, st);
            if st'.status == RunRunning then Accounted(c, id, st') else Halts(c, id, st)
  {
    var step, st' := c.steps[id], RunStep(c, id, st);
    forall d | Needs(c.steps, id, d) ensures AlikeAt(c, d, st, st') {
      OthersAlike(c, id, st, d);
    }
    forall d | d in step.dependsOn ensures d != id && d in st.stepStatus {
      NeedsDirectly(c.steps, id, d);
    }
    StepKeepsPlain(c, id, st);
    DependenciesAlike(c, c, id, st, st');
    FirstUnmetFrame(step.dependsOn, st.stepStatus[id := Running], st.stepStatus);
    NeverStopped(c.world, step, TaskInput(c, id, st.outputs), 0, None);
    TurnCases(c, id, st);
  }

  /** The body of the loop, case by case. */
  lemma TurnCases(c: Context, id: string, st: RunState)
    requires ValidWorld(c.world, c.input) && id in c.steps && c.steps[id].id == id && st.status == RunRunning
    requires id !in st.stepErrors
    ensures var step, st' := c.steps[id], RunStep(c, id, st);
            match FirstUnmet(step.dependsOn, st.stepStatus[id := Running])
            case Some(d) =>
              st'.status == RunRunning &&
              if ErrorText(st.stepErrors, d) != "" && step.errorStrategy == STOP then
                st'.stepStatus[id] == Skipped && id in st'.stepErrors
                && st'.stepErrors[id] == DependencyFailed(d, ErrorText(st.stepErrors, d))
              else st'.stepStatus[id] == Running && id !in st'.stepErrors
            case None =>
              match TryFrom(c.world, step, TaskInput(c, id, st.outputs), 0, None).outcome
              case Success(r) =>
                st'.status == RunRunning && st'.stepStatus[id] == Completed && id !in st'.stepErrors
                && OutputKey(step) in st'.outputs && st'.outputs[OutputKey(step)] == r
              case Failure(e) =>
                st'.stepStatus[id] == Errored && id in st'.stepErrors && st'.stepErrors[id] == e
                && (st'.status == RunRunning <==> step.errorStrategy != STOP)
              case Stopped => true
  {
  }

  // ---- Along a whole run ---------------------------------------------------------------------

  ghost predicate AllAccounted(c: Context, done: seq<string>, st: RunState)
    requires ValidWorld(c.world, c.input)
  {
    Template.Plain(st.outputs) && forall i :: 0 <= i < |done| ==> done[i] in c.steps && Accounted(c, done[i], st)
  }

  /** A topological order, and the state it starts from. */
  ghost predicate Start(c: Context, order: seq<string>, st: RunState) {
    && Disciplined(c) && Runnable(c, order) && Distinct(order) && Downward(c, order)
    && (forall id :: id in c.steps ==> id in order)
    && Sound(c, [], st) && st.status == RunRunning && st.outputs == map[]
  }

  lemma DependenciesPlaced(c: Context, order: seq<string>, i: nat)
    requires Runnable(c, order) && Distinct(order) && Downward(c, order) && i < |order|
    ensures order[i] in c.steps && DependenciesListed(c, order[i])
    ensures forall d, j :: i <= j < |order| && Needs(c.steps, order[i], d) ==> d != order[j]
  {
    assert order[i] in order;
    forall d | Needs(c.steps, order[i], d)
      ensures d in c.steps && forall j :: i <= j < |order| ==> d != order[j]
    {
      var k := NeededEarlier(c, order, i, d);
      assert order[k] in order;
    }
  }

  lemma AccountedPast(c: Context, order: seq<string>, i: nat, k: nat, st: RunState)
    requires Disciplined(c) && Runnable(c, order) && Distinct(order) && Downward(c, order) && i < k < |order|
    requires Runnable(c, [order[k]]) && !IsCompleted(st.stepStatus, order[k])
    requires forall id :: id in c.steps ==> id in st.stepStatus
    requires Template.Plain(st.outputs) && order[i] in c.steps && Accounted(c, order[i], st)
    ensures Accounted(c, order[i], RunStep(c, order[k], st))
  {
    var st' := RunStep(c, order[k], st);
    DependenciesPlaced(c, order, i);
    OthersAlike(c, order[k], st, order[i]);
    forall d | Needs(c.steps, order[i], d) ensures AlikeAt(c, d, st, st') {
      OthersAlike(c, order[k], st, d);
    }
    StepKeepsPlain(c, order[k], st);
    AccountedFrame(c, order[i], st, st');
  }

  lemma EarlierStayAccounted(c: Context, order: seq<string>, k: nat, before: RunState)
    requires Disciplined(c) && Runnable(c, order) && Distinct(order) && Downward(c, order) && k < |order|
    requires Runnable(c, [order[k]]) && !IsCompleted(before.stepStatus, order[k])
    requires forall id :: id in c.steps ==> id in before.stepStatus
    requires AllAccounted(c, order[..k], before)
    ensures AllAccounted(c, order[..k], RunStep(c, order[k], before))
  {
    StepKeepsPlain(c, order[k], before);
    var done := order[..k];
    forall i | 0 <= i < |done|
      ensures done[i] in c.steps && Accounted(c, done[i], RunStep(c, order[k], before))
    {
      assert done[i] == order[i];
      AccountedPast(c, order, i, k, before);
    }
  }

  lemma OneMoreAccounted(c: Context, done: seq<string>, id: string, st: RunState)
    requires ValidWorld(c.world, c.input) && AllAccounted(c, done, st)
    requires id in c.steps && Accounted(c, id, st)
    ensures AllAccounted(c, done + [id], st)
  {
  }

  lemma TurnKeepsAccounted(c: Context, order: seq<string>, k: nat, before: RunState)
    requires Disciplined(c) && Runnable(c, order) && Distinct(order) && Downward(c, order) && k < |order|
    requires before.status == RunRunning && Sound(c, order[..k], before)
    requires AllAccounted(c, order[..k], before)
    ensures order[k] in c.steps && Runnable(c, [order[k]])
    ensures var after := RunStep(c, order[k], before);
            if after.status == RunRunning then AllAccounted(c, order[..k + 1], after) else Halts(c, order[k], before)
  {
    var id := order[k];
    assert id in order && id !in order[..k];
    DependenciesPlaced(c, order, k);
    TurnAccounted(c, id, before);
    EarlierStayAccounted(c, order, k, before);
    PrefixStep([], order, k);
    if RunStep(c, id, before).status == RunRunning {
      OneMoreAccounted(c, order[..k], id, RunStep(c, id, before));
    }
  }

  ghost predicate Progress(c: Context, order: seq<string>, k: nat, st: RunState)
    requires Runnable(c, order) && k <= |order|
  {
    var now := StateAfter(c, order, k, st);
    now.status == RunRunning ==> AllAccounted(c, order[..k], now)
  }

  /** One more iteration of a run whose state is accounted for. */
  lemma NextAccounted(c: Context, order: seq<string>, k: nat, st: RunState)
    requires Start(c, order, st) && k < |order| && StateAfter(c, order, k, st).status == RunRunning
    requires AllAccounted(c, order[..k], StateAfter(c, order, k, st))
    ensures var before, after := StateAfter(c, order, k, st), StateAfter(c, order, k + 1, st);
            && order[k] in c.steps
            && if after.status == RunRunning then AllAccounted(c, order[..k + 1], after) else Halts(c, order[k], before)
  {
    EveryStateSound(c, order, k, st);
    assert order[k] in order;
    TurnKeepsAccounted(c, order, k, StateAfter(c, order, k, st));
  }

  lemma NextProgress(c: Context, order: seq<string>, k: nat, st: RunState)
    requires Start(c, order, st) && k < |order| && Progress(c, order, k, st)
    ensures Progress(c, order, k + 1, st)
  {
    if StateAfter(c, order, k, st).status == RunRunning {
      NextAccounted(c, order, k, st);
    }
  }

  lemma StartProgress(c: Context, order: seq<string>, st: RunState)
    requires Start(c, order, st)
    ensures Progress(c, order, 0, st)
  {
  }

  /** As long as a run goes on, it is accounted for. */
  lemma {:induction false} EveryStateAccounted(c: Context, order: seq<string>, k: nat, st: RunState)
    requires Start(c, order, st) && k <= |order|
    ensures Progress(c, order, k, st)
  {
    if k == 0 {
      StartProgress(c, order, st);
    } else {
      EveryStateAccounted(c, order, k - 1, st);
      NextProgress(c, order, k - 1, st);
    }
  }

  // ---- The equations have one solution -------------------------------------------------------

  /** The same executors, reacting in the same way to the same text. */
  ghost predicate SameAttempts(w1: World, w2: World) {
    forall id, k, x :: w1.attempt(id, k, x) == w2.attempt(id, k, x)
  }

  lemma {:induction false} SameTries(w1: World, w2: World, step: Step, x: string, k: nat, err: Option<string>)
    requires SameAttempts(w1, w2)
    ensures TryFrom(w1, step, x, k, err) == TryFrom(w2, step, x, k, err)
    decreases step.maxRetries + 1 - k
  {
    if k > step.maxRetries {
    } else {
      assert w1.attempt(step.id, k, x) == w2.attempt(step.id, k, x);
      if w1.attempt(step.id, k, x).Failed? {
        SameTries(w1, w2, step, x, k + 1, Some(w1.attempt(step.id, k, x).error));
      }
    }
  }

  ghost predicate Twins(c1: Context, c2: Context) {
    && Disciplined(c1) && Disciplined(c2) && c1.steps == c2.steps
    && SameAttempts(c1.world, c2.world) && Local(c1, c2)
  }

  /** Exactly the completed steps have left an output. */
  ghost predicate KeysFollow(c: Context, st: RunState) {
    forall id :: id in c.steps ==> (OutputKey(c.steps[id]) in st.outputs <==> IsCompleted(st.stepStatus, id))
  }

  lemma OwnersOnly(c: Context, st: RunState)
    requires DistinctKeys(c.steps) && OutputsSound(c, st)
    ensures KeysFollow(c, st)
  {
  }

  lemma AccountedUnique(c1: Context, c2: Context, id: string, a: RunState, b: RunState)
    requires Twins(c1, c2) && id in c1.steps && DependenciesListed(c1, id)
    requires Template.Plain(a.outputs) && Template.Plain(b.outputs) && KeysFollow(c1, a) && KeysFollow(c2, b)
    requires Accounted(c1, id, a) && Accounted(c2, id, b)
    requires forall d :: Needs(c1.steps, id, d) ==> AlikeAt(c1, d, a, b)
    ensures AlikeAt(c1, id, a, b)
  {
    DependenciesAlike(c1, c2, id, a, b);
    SameTries(c1.world, c2.world, c1.steps[id], TaskInput(c1, id, a.outputs), 0, None);
    assert IsCompleted(a.stepStatus, id) <==> IsCompleted(b.stepStatus, id);
  }

  /** `a` accounts for every step; `b` for those before place `h` of the order. */
  ghost predicate Compared(c1: Context, c2: Context, order: seq<string>, h: nat, a: RunState, b: RunState) {
    && Twins(c1, c2) && Runnable(c2, order) && Distinct(order) && Downward(c2, order) && h <= |order|
    && Template.Plain(a.outputs) && Template.Plain(b.outputs) && KeysFollow(c1, a) && KeysFollow(c2, b)
    && (forall id :: id in c1.steps ==> Accounted(c1, id, a))
    && (forall i :: 0 <= i < h ==> order[i] in c2.steps && Accounted(c2, order[i], b))
  }

  lemma {:induction false} StatesAlike(c1: Context, c2: Context, order: seq<string>, h: nat, i: nat, a: RunState,
                                       b: RunState)
    requires Compared(c1, c2, order, h, a, b) && i < h
    ensures order[i] in c1.steps && AlikeAt(c1, order[i], a, b)
  {
    DependenciesPlaced(c2, order, i);
    forall d | Needs(c1.steps, order[i], d)
      ensures AlikeAt(c1, d, a, b)
    {
      var j := NeededEarlier(c2, order, i, d);
      StatesAlike(c1, c2, order, h, j, a, b);
    }
    AccountedUnique(c1, c2, order[i], a, b);
  }

  /** What one run got through, the other does not halt at. */
  lemma CannotHalt(c1: Context, c2: Context, order: seq<string>, h: nat, a: RunState, b: RunState)
    requires Compared(c1, c2, order, h, a, b) && h < |order|
    ensures order[h] in c2.steps && !Halts(c2, order[h], b)
  {
    var id := order[h];
    DependenciesPlaced(c2, order, h);
    forall d | Needs(c1.steps, id, d)
      ensures AlikeAt(c1, d, a, b)
    {
      var j := NeededEarlier(c2, order, h, d);
      StatesAlike(c1, c2, order, h, j, a, b);
    }
    DependenciesAlike(c1, c2, id, a, b);
    SameTries(c1.world, c2.world, c1.steps[id], TaskInput(c1, id, a.outputs), 0, None);
    assert Accounted(c1, id, a);
  }

  // ---- The theorem ---------------------------------------------------------------------------

  /** A run either gets through, accounted for to the last step, or halts at a step. */
  lemma RunEnds(c: Context, order: seq<string>, st: RunState) returns (h: nat)
    requires Start(c, order, st)
    ensures h <= |order|
    ensures AllAccounted(c, order[..h], StateAfter(c, order, h, st))
    ensures h == |order| ==> Run(c, order, st) == StateAfter(c, order, h, st).(status := RunCompleted)
    ensures h < |order| ==> order[h] in c.steps && Halts(c, order[h], StateAfter(c, order, h, st))
    ensures h < |order| ==> Run(c, order, st).status != RunCompleted
  {
    RunIsLastState(c, order, st);
    if StateAfter(c, order, |order|, st).status == RunRunning {
      h := |order|;
      EveryStateAccounted(c, order, h, st);
    } else {
      h := EndedRunHasPlace(c, order, |order|, st);
      EveryStateAccounted(c, order, h, st);
      NextAccounted(c, order, h, st);
      StepEnds(c, order[h], StateAfter(c, order, h, st));
    }
  }

  /** What a run that got through leaves: every step accounted for, and outputs of completed steps only. */
  ghost predicate Final(c: Context, order: seq<string>, st: RunState)
    requires ValidWorld(c.world, c.input)
  {
    && Template.Plain(st.outputs) && KeysFollow(c, st) && OutputsSound(c, st)
    && (forall id :: id in c.steps ==> Accounted(c, id, st))
    && (forall id :: id in st.stepStatus <==> id in order)
    && st.stepErrors.Keys <= st.stepStatus.Keys
  }

  lemma AccountedAtEnd(c: Context, order: seq<string>, st: RunState, id: string)
    requires ValidWorld(c.world, c.input) && AllAccounted(c, order, st) && id in c.steps && id in order
    ensures Accounted(c, id, st.(status := RunCompleted))
  {
  }

  lemma CompletedIsAccounted(c: Context, order: seq<string>, st: RunState)
    requires Start(c, order, st) && Run(c, order, st).status == RunCompleted
    ensures Template.Plain(Run(c, order, st).outputs)
    ensures forall id :: id in c.steps ==> Accounted(c, id, Run(c, order, st))
  {
    var h := RunEnds(c, order, st);
    assert order[..h] == order;
    forall id | id in c.steps ensures Accounted(c, id, Run(c, order, st)) {
      AccountedAtEnd(c, order, StateAfter(c, order, h, st), id);
    }
  }

  lemma CompletedIsFinal(c: Context, order: seq<string>, st: RunState)
    requires Start(c, order, st) && OutputsSound(c, st)
    requires (forall id :: id in st.stepStatus <==> id in order) && st.stepErrors == map[]
    requires Run(c, order, st).status == RunCompleted
    ensures Final(c, order, Run(c, order, st))
  {
    CompletedIsAccounted(c, order, st);
    RunOutputs(c, order, st);
    OwnersOnly(c, Run(c, order, st));
    RunKeys(c, order, st);
  }

  lemma ComparedBefore(c1: Context, c2: Context, order: seq<string>, h: nat, a: RunState, b: RunState)
    requires Twins(c1, c2) && Runnable(c2, order) && Distinct(order) && Downward(c2, order) && h <= |order|
    requires Template.Plain(a.outputs) && KeysFollow(c1, a) && forall id :: id in c1.steps ==> Accounted(c1, id, a)
    requires AllAccounted(c2, order[..h], b) && OutputsSound(c2, b)
    ensures Compared(c1, c2, order, h, a, b)
  {
    OwnersOnly(c2, b);
    forall i | 0 <= i < h ensures order[i] in c2.steps && Accounted(c2, order[i], b) {
      assert order[..h][i] == order[i];
    }
  }

  lemma TwinCompletes(c1: Context, c2: Context, order: seq<string>, st: RunState, a: RunState)
    requires Twins(c1, c2) && Start(c2, order, st) && OutputsSound(c2, st)
    requires Template.Plain(a.outputs) && KeysFollow(c1, a) && forall id :: id in c1.steps ==> Accounted(c1, id, a)
    ensures Run(c2, order, st).status == RunCompleted
  {
    var h := RunEnds(c2, order, st);
    if h < |order| {
      TwinCannotHalt(c1, c2, order, h, st, a);
    }
  }

  lemma TwinCannotHalt(c1: Context, c2: Context, order: seq<string>, h: nat, st: RunState, a: RunState)
    requires Twins(c1, c2) && Start(c2, order, st) && OutputsSound(c2, st) && h < |order|
    requires Template.Plain(a.outputs) && KeysFollow(c1, a) && forall id :: id in c1.steps ==> Accounted(c1, id, a)
    requires AllAccounted(c2, order[..h], StateAfter(c2, order, h, st))
    ensures order[h] in c2.steps && !Halts(c2, order[h], StateAfter(c2, order, h, st))
  {
    EveryStateOutputs(c2, order, h, st);
    ComparedBefore(c1, c2, order, h, a, StateAfter(c2, order, h, st));
    CannotHalt(c1, c2, order, h, a, StateAfter(c2, order, h, st));
  }

  lemma FinalsAlike(c1: Context, c2: Context, order1: seq<string>, order2: seq<string>, a: RunState, b: RunState,
                    id: string)
    requires Twins(c1, c2) && Runnable(c2, order2) && Distinct(order2) && Downward(c2, order2)
    requires Final(c1, order1, a) && Final(c2, order2, b) && id in order2
    requires forall x :: x in order2 ==> x in c2.steps
    ensures id in c1.steps && AlikeAt(c1, id, a, b)
  {
    var i :| 0 <= i < |order2| && order2[i] == id;
    forall j | 0 <= j < |order2| ensures order2[j] in c2.steps && Accounted(c2, order2[j], b) {
      assert order2[j] in order2;
    }
    StatesAlike(c1, c2, order2, |order2|, i, a, b);
  }

  lemma FinalsEqual(c1: Context, c2: Context, order1: seq<string>, order2: seq<string>, a: RunState, b: RunState)
    requires Twins(c1, c2) && Runnable(c2, order2) && Distinct(order2) && Downward(c2, order2)
    requires Final(c1, order1, a) && Final(c2, order2, b)
    requires forall id :: id in order1 <==> id in order2
    requires forall id :: id in order2 <==> id in c2.steps
    ensures a.stepStatus == b.stepStatus && a.stepErrors == b.stepErrors && a.outputs == b.outputs
  {
    forall id | id in c1.steps ensures AlikeAt(c1, id, a, b) {
      FinalsAlike(c1, c2, order1, order2, a, b, id);
    }
    AgreeingMapsEqual(a.stepStatus, a.stepErrors, b.stepStatus, b.stepErrors);
    OutputsEqual(c1, c2, a, b);
  }

  lemma OutputsEqual(c1: Context, c2: Context, a: RunState, b: RunState)
    requires c1.steps == c2.steps && OutputsSound(c1, a) && OutputsSound(c2, b)
    requires forall id :: id in c1.steps ==> SameAt(OutputKey(c1.steps[id]), a.outputs, b.outputs)
    ensures a.outputs == b.outputs
  {
  }

  lemma StartOf(steps: seq<Step>, input: map<string, string>, w: World, order: seq<string>)
    requires ValidWorld(w, input) && IsTopologicalOrder(steps, order) && Disciplined(ContextOf(steps, input, w))
    ensures Start(ContextOf(steps, input, w), order, Fresh(steps))
    ensures OutputsSound(ContextOf(steps, input, w), Fresh(steps))
    ensures forall id :: id in order <==> id in StepMap(steps)
  {
    OrderFacts(steps, input, w, order);
  }

  /**
   Confluence with data: along any two orders of the sort, and with any two ways of iterating the maps,
   if one run gets through, so does the other, with the same statuses, errors and outputs.
   */
  lemma RunsAgreeOnData(steps: seq<Step>, input: map<string, string>, w1: World, w2: World,
                        order1: seq<string>, order2: seq<string>)
    requires ValidWorld(w1, input) && ValidWorld(w2, input)
    requires IsTopologicalOrder(steps, order1) && IsTopologicalOrder(steps, order2)
    requires Twins(ContextOf(steps, input, w1), ContextOf(steps, input, w2))
    requires RunAll(steps, input, w1, order1).status == RunCompleted
    ensures var final1, final2 := RunAll(steps, input, w1, order1), RunAll(steps, input, w2, order2);
            && final2.status == RunCompleted
            && final1.stepStatus == final2.stepStatus
            && final1.stepErrors == final2.stepErrors
            && final1.outputs == final2.outputs
  {
    var c1, c2, st := ContextOf(steps, input, w1), ContextOf(steps, input, w2), Fresh(steps);
    StartOf(steps, input, w1, order1);
    StartOf(steps, input, w2, order2);
    CompletedIsFinal(c1, order1, st);
    TwinCompletes(c1, c2, order2, st, Run(c1, order1, st));
    CompletedIsFinal(c2, order2, st);
    FinalsEqual(c1, c2, order1, order2, Run(c1, order1, st), Run(c2, order2, st));
  }

  /** Everything asked for, in terms of the pipeline: its keys, its templates and its executors. */
  ghost predicate WellBehaved(steps: seq<Step>, input: map<string, string>, w: World,
                              templates: map<string, seq<Template.Segment>>) {
    var m := StepMap(steps);
    && ValidWorld(w, input) && NeverCancelled(w) && DistinctKeys(m)
    && Template.Plain(input) && PlainData(ContextOf(steps, input, w))
    && forall id :: id in m ==> id in templates && RefersBelow(m, id, templates[id])
  }

  /**
   What Execute returns for a pipeline whose templates name inputs and outputs of transitive dependencies
   only is one result, whichever order its sort came up with and however its maps were iterated.
   */
  lemma ExecuteIsDeterministic(steps: seq<Step>, input: map<string, string>, w1: World, w2: World,
                               templates: map<string, seq<Template.Segment>>, final1: RunState, final2: RunState)
    requires WellBehaved(steps, input, w1, templates) && WellBehaved(steps, input, w2, templates)
    requires SameAttempts(w1, w2)
    requires FollowsSomeOrder(steps, input, w1, final1) && FollowsSomeOrder(steps, input, w2, final2)
    ensures final1.status == RunCompleted <==> final2.status == RunCompleted
    ensures final1.status == RunCompleted ==>
              final1.stepStatus == final2.stepStatus && final1.stepErrors == final2.stepErrors && final1.outputs
                == final2.outputs
  {
    var c1, c2 := ContextOf(steps, input, w1), ContextOf(steps, input, w2);
    TemplatesAreLocal(c1, c1, templates);
    TemplatesAreLocal(c1, c2, templates);
    TemplatesAreLocal(c2, c1, templates);
    TemplatesAreLocal(c2, c2, templates);
    assert Twins(c1, c2) && Twins(c2, c1);
    var order1 :| IsTopologicalOrder(steps, order1) && final1 == RunAll(steps, input, w1, order1);
    var order2 :| IsTopologicalOrder(steps, order2) && final2 == RunAll(steps, input, w2, order2);
    if final1.status == RunCompleted {
      RunsAgreeOnData(steps, input, w1, w2, order1, order2);
    } else if final2.status == RunCompleted {
      RunsAgreeOnData(steps, input, w2, w1, order2, order1);
    }
  }
}
