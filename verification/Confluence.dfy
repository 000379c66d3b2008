/**
 A pipeline's outcome does not depend on the order the sort happens to pick, nor on how maps are
 iterated, as long as no step that is reached fails under "stop".
 */
module Confluence {
  import opened Collections
  import opened TopologicalSort
  import opened PipelineEngine
  import opened RunInvariants

  // ---- What is held fixed between two runs ---------------------------------------------------

  /** Equal up to the text a successful call returns. */
  predicate SameKind(a: Attempt, b: Attempt) {
    (a.Succeeded? && b.Succeeded?) || a == b
  }

  /** The executors behave alike in both worlds, whatever task text they are handed. */
  ghost predicate SameExecutors(w1: World, w2: World) {
    forall id, k, x, y :: SameKind(w1.attempt(id, k, x), w2.attempt(id, k, y))
  }

  ghost predicate NeverCancelled(w: World) {
    forall id, k, x :: !w.attempt(id, k, x).Interrupted?
  }

  /** Executors answer every task text alike, and the run is not cancelled. */
  ghost predicate Fixed(w: World) {
    SameExecutors(w, w) && NeverCancelled(w)
  }

  /** How the retry loop ends for a step in such a world. */
  function Verdict(w: World, step: Step): Outcome {
    TryFrom(w, step, "", 0, None).outcome
  }

  predicate SameEnd(a: Outcome, b: Outcome) {
    (a.Success? && b.Success?) || a == b
  }

  lemma {:induction false} TriesAgree(w1: World, w2: World, step: Step, x: string, y: string, k: nat,
                                      err: Option<string>)
    requires SameExecutors(w1, w2)
    ensures SameEnd(TryFrom(w1, step, x, k, err).outcome, TryFrom(w2, step, y, k, err).outcome)
    decreases step.maxRetries + 1 - k
  {
    if k > step.maxRetries {
    } else {
      assert SameKind(w1.attempt(step.id, k, x), w2.attempt(step.id, k, y));
      match w1.attempt(step.id, k, x)
      case Failed(e) => TriesAgree(w1, w2, step, x, y, k + 1, Some(e));
      case _ =>
    }
  }

  lemma {:induction false} NeverStopped(w: World, step: Step, x: string, k: nat, err: Option<string>)
    requires NeverCancelled(w)
    ensures !TryFrom(w, step, x, k, err).outcome.Stopped?
    decreases step.maxRetries + 1 - k
  {
    if k > step.maxRetries {
    } else {
      match w.attempt(step.id, k, x)
      case Failed(e) => NeverStopped(w, step, x, k + 1, Some(e));
      case _ =>
    }
  }

  // ---- Local equations for the final statuses ------------------------------------------------

  /** The status and error of a step, as a function of those of its dependencies. */
  ghost predicate Explained(w: World, step: Step, ss: map<string, StepStatus>, errs: map<string, string>) {
    step.id in ss &&
    match FirstUnmet(step.dependsOn, ss)
    case Some(d) =>
      if ErrorText(errs, d) != "" && step.errorStrategy == STOP then
        ss[step.id] == Skipped && step.id in errs && errs[step.id] == DependencyFailed(d, ErrorText(errs, d))
      else ss[step.id] == Running && step.id !in errs
    case None =>
      match Verdict(w, step)
      case Success(_) => ss[step.id] == Completed && step.id !in errs
      case Failure(e) =>
        ss[step.id] == Errored && step.id in errs && errs[step.id] == e && step.errorStrategy != STOP
      case Stopped => false
  }

  ghost predicate Settled(c: Context, done: seq<string>, ss: map<string, StepStatus>, errs: map<string, string>)
    requires Runnable(c, done)
  {
    forall i :: 0 <= i < |done| ==> done[i] in c.steps && Explained(c.world, c.steps[done[i]], ss, errs)
  }

  /** Every listed step comes after all of its dependencies. */
  ghost predicate Downward(c: Context, order: seq<string>)
    requires Runnable(c, order)
  {
    forall i, d :: 0 <= i < |order| && order[i] in c.steps && d in c.steps[order[i]].dependsOn ==> d in order[..i]
  }

  lemma {:induction false} FirstUnmetFrame(deps: seq<string>, a: map<string, StepStatus>, b: map<string, StepStatus>)
    requires forall d :: d in deps ==> (d in a <==> d in b) && (d in a ==> a[d] == b[d])
    ensures FirstUnmet(deps, a) == FirstUnmet(deps, b)
  {
    if deps == [] {
    } else {
      FirstUnmetFrame(deps[1..], a, b);
    }
  }

  lemma ExplainedFrame(w: World, step: Step, id: string, a: RunState, b: RunState)
    requires OnlyTouches(id, a, b) && id != step.id && id !in step.dependsOn
    requires id in a.stepStatus && Explained(w, step, a.stepStatus, a.stepErrors)
    ensures Explained(w, step, b.stepStatus, b.stepErrors)
  {
    FirstUnmetFrame(step.dependsOn, a.stepStatus, b.stepStatus);
    assert ErrorText(b.stepErrors, step.id) == ErrorText(a.stepErrors, step.id);
    assert forall d :: d in step.dependsOn ==> ErrorText(b.stepErrors, d) == ErrorText(a.stepErrors, d);
  }

  /** A step whose turn comes with the run going on is explained by what it leaves behind. */
  lemma StepExplained(c: Context, id: string, st: RunState)
    requires Runnable(c, [id]) && Fixed(c.world) && st.status == RunRunning
    requires id in c.steps && id !in c.steps[id].dependsOn && id !in st.stepErrors
    ensures var st' := RunStep(c, id, st);
            if st'.status == RunRunning then Explained(c.world, c.steps[id], st'.stepStatus, st'.stepErrors)
            else st'.status == RunError && Blocks(c.world, c.steps[id], st.stepStatus)
  {
    assert id in [id];
    var step, st' := c.steps[id], RunStep(c, id, st);
    RunStepFrame(c, id, st);
    FirstUnmetFrame(step.dependsOn, st.stepStatus[id := Running], st.stepStatus);
    FirstUnmetFrame(step.dependsOn, st'.stepStatus, st.stepStatus);
    var unmet := FirstUnmet(step.dependsOn, st.stepStatus);
    if unmet.None? {
      var tried := TryFrom(c.world, step, TaskInput(c, id, st.outputs), 0, None);
      TriesAgree(c.world, c.world, step, TaskInput(c, id, st.outputs), "", 0, None);
      NeverStopped(c.world, step, TaskInput(c, id, st.outputs), 0, None);
      assert SameEnd(tried.outcome, Verdict(c.world, step));
      assert tried.outcome.Failure? ==> st'.stepErrors == st.stepErrors[id := tried.outcome.error];
    }
  }

  /** The step is ready and fails under "stop": its turn ends the whole run. */
  ghost predicate Blocks(w: World, step: Step, ss: map<string, StepStatus>) {
    FirstUnmet(step.dependsOn, ss).None? && Verdict(w, step).Failure? && step.errorStrategy == STOP
  }

  lemma SettledFrame(c: Context, done: seq<string>, id: string, a: RunState, b: RunState)
    requires Runnable(c, done) && Runnable(c, done + [id]) && Downward(c, done + [id]) && id !in done
    requires Settled(c, done, a.stepStatus, a.stepErrors)
    requires OnlyTouches(id, a, b) && id in a.stepStatus
    ensures Settled(c, done, b.stepStatus, b.stepErrors)
  {
    var order := done + [id];
    forall i | 0 <= i < |done|
      ensures done[i] in c.steps && Explained(c.world, c.steps[done[i]], b.stepStatus, b.stepErrors)
    {
      assert order[i] == done[i] && done[i] in order && order[..i] == done[..i];
      assert id !in c.steps[done[i]].dependsOn;
      ExplainedFrame(c.world, c.steps[done[i]], id, a, b);
    }
  }

  lemma SettledGrows(c: Context, done: seq<string>, id: string, st: RunState)
    requires Runnable(c, done + [id]) && Fixed(c.world) && st.status == RunRunning
    requires Runnable(c, done) && Downward(c, done + [id]) && id !in done
    requires Settled(c, done, st.stepStatus, st.stepErrors)
    requires id in st.stepStatus && id !in st.stepErrors && id in c.steps && c.steps[id].id == id
    ensures var st' := RunStep(c, id, st);
            if st'.status == RunRunning then Settled(c, done + [id], st'.stepStatus, st'.stepErrors)
            else st'.status == RunError && Blocks(c.world, c.steps[id], st.stepStatus)
  {
    var order, st' := done + [id], RunStep(c, id, st);
    assert order[|done|] == id && order[..|done|] == done;
    StepExplained(c, id, st);
    RunStepFrame(c, id, st);
    if st'.status == RunRunning {
      SettledFrame(c, done, id, st, st');
      forall i | 0 <= i < |order|
        ensures order[i] in c.steps && Explained(c.world, c.steps[order[i]], st'.stepStatus, st'.stepErrors)
      {
        assert i < |done| ==> order[i] == done[i];
      }
    }
  }

  /** As long as a run goes on, its processed steps are settled. */
  ghost predicate SettledAt(c: Context, order: seq<string>, k: nat, st: RunState)
    requires Runnable(c, order) && k <= |order|
  {
    var now := StateAfter(c, order, k, st);
    Runnable(c, order[..k]) && (now.status == RunRunning ==> Settled(c, order[..k], now.stepStatus, now.stepErrors))
  }

  lemma SettledAtStart(c: Context, order: seq<string>, st: RunState)
    requires Runnable(c, order)
    ensures SettledAt(c, order, 0, st)
  {
    RunnablePrefix(c, order, 0);
  }

  lemma NextSettled(c: Context, order: seq<string>, k: nat, st: RunState)
    requires Runnable(c, order) && Distinct(order) && Downward(c, order) && k < |order|
    requires Fixed(c.world) && Sound(c, [], st) && st.status == RunRunning && SettledAt(c, order, k, st)
    ensures SettledAt(c, order, k + 1, st)
  {
    RunnablePrefix(c, order, k + 1);
    OneIteration(c, order, k, st);
    if StateAfter(c, order, k, st).status == RunRunning {
      EveryStateSound(c, order, k, st);
      TurnSettles(c, order, k, StateAfter(c, order, k, st), StateAfter(c, order, k + 1, st));
    }
  }

  lemma PrefixSettled(c: Context, order: seq<string>, k: nat, st: RunState)
    requires Runnable(c, order) && Distinct(order) && Downward(c, order) && k <= |order|
    requires Fixed(c.world) && Sound(c, [], st) && st.status == RunRunning
    requires StateAfter(c, order, k, st).status == RunRunning
    ensures Runnable(c, order[..k])
    ensures Settled(c, order[..k], StateAfter(c, order, k, st).stepStatus, StateAfter(c, order, k, st).stepErrors)
  {
    SettledAtStart(c, order, st);
    forall j: nat | j < k && SettledAt(c, order, j, st) ensures SettledAt(c, order, j + 1, st) {
      NextSettled(c, order, j, st);
    }
    AfterSteps((j: nat) => j <= |order| && SettledAt(c, order, j, st), k);
  }

  lemma RunnablePrefix(c: Context, order: seq<string>, k: nat)
    requires Runnable(c, order) && k <= |order|
    ensures Runnable(c, order[..k])
  {
  }

  /** One turn of a run that is settled so far. */
  lemma TurnSettles(c: Context, order: seq<string>, k: nat, before: RunState, after: RunState)
    requires Runnable(c, order) && Distinct(order) && Downward(c, order) && k < |order| && Fixed(c.world)
    requires Runnable(c, order[..k]) && Runnable(c, order[..k + 1]) && before.status == RunRunning
    requires Sound(c, order[..k], before) && Settled(c, order[..k], before.stepStatus, before.stepErrors)
    requires order[k] in c.steps && c.steps[order[k]].id == order[k] && after == RunStep(c, order[k], before)
    ensures if after.status == RunRunning then Settled(c, order[..k + 1], after.stepStatus, after.stepErrors)
            else after.status == RunError && Blocks(c.world, c.steps[order[k]], before.stepStatus)
  {
    PrefixStep([], order, k);
    assert order[k] in order && order[k] !in order[..k];
    DownwardPrefix(c, order, k + 1);
    SettledGrows(c, order[..k], order[k], before);
  }

  /** Where a run ends, it is on a "stop" failure of a step that was ready. */
  lemma EndIsBlocked(c: Context, order: seq<string>, h: nat, st: RunState)
    requires Runnable(c, order) && Distinct(order) && Downward(c, order) && h < |order|
    requires Fixed(c.world) && Sound(c, [], st) && st.status == RunRunning
    requires StateAfter(c, order, h, st).status == RunRunning
    requires StateAfter(c, order, h + 1, st).status != RunRunning
    ensures BlockedAt(c, order, h, st)
  {
    PrefixSettled(c, order, h, st);
    RunnablePrefix(c, order, h + 1);
    EveryStateSound(c, order, h, st);
    OneIteration(c, order, h, st);
    TurnSettles(c, order, h, StateAfter(c, order, h, st), StateAfter(c, order, h + 1, st));
  }

  lemma DownwardPrefix(c: Context, order: seq<string>, k: nat)
    requires k <= |order| && Runnable(c, order) && Runnable(c, order[..k]) && Downward(c, order)
    ensures Downward(c, order[..k])
  {
  }

  /** The run reaches position `h` of the order and ends there, on a "stop" failure. */
  ghost predicate BlockedAt(c: Context, order: seq<string>, h: nat, st: RunState)
    requires Runnable(c, order)
  {
    && h < |order| && order[h] in c.steps
    && StateAfter(c, order, h, st).status == RunRunning
    && StateAfter(c, order, h + 1, st).status == RunError
    && Blocks(c.world, c.steps[order[h]], StateAfter(c, order, h, st).stepStatus)
  }

  // ---- The equations have one solution -------------------------------------------------------

  ghost predicate AgreeAt(id: string, ss1: map<string, StepStatus>, e1: map<string, string>,
                          ss2: map<string, StepStatus>, e2: map<string, string>) {
    && id in ss1 && id in ss2 && ss1[id] == ss2[id]
    && (id in e1 <==> id in e2)
    && (id in e1 ==> e1[id] == e2[id])
  }

  /** A dependency of the step at `i`, and where it stands in the order. */
  lemma DependencyEarlier(c: Context, order: seq<string>, i: nat, d: string) returns (j: nat)
    requires Runnable(c, order) && Downward(c, order) && i < |order|
    requires order[i] in c.steps && d in c.steps[order[i]].dependsOn
    ensures j < i && order[j] == d
  {
    assert d in order[..i];
    j :| 0 <= j < i && order[..i][j] == d;
  }

  lemma {:induction false} SettledUnique(c: Context, order: seq<string>, i: nat,
                                         ss1: map<string, StepStatus>, e1: map<string, string>,
                                         ss2: map<string, StepStatus>, e2: map<string, string>)
    requires Runnable(c, order) && Downward(c, order) && i < |order|
    requires Settled(c, order, ss1, e1) && Settled(c, order, ss2, e2)
    ensures AgreeAt(order[i], ss1, e1, ss2, e2)
  {
    var step := c.steps[order[i]];
    forall d | d in step.dependsOn
      ensures AgreeAt(d, ss1, e1, ss2, e2)
    {
      var j := DependencyEarlier(c, order, i, d);
      SettledUnique(c, order, j, ss1, e1, ss2, e2);
    }
    assert order[i] in order;
    ExplainedUnique(c.world, step, ss1, e1, ss2, e2);
  }

  lemma ExplainedUnique(w: World, step: Step, ss1: map<string, StepStatus>, e1: map<string, string>,
                        ss2: map<string, StepStatus>, e2: map<string, string>)
    requires Explained(w, step, ss1, e1) && Explained(w, step, ss2, e2)
    requires forall d :: d in step.dependsOn ==> AgreeAt(d, ss1, e1, ss2, e2)
    ensures AgreeAt(step.id, ss1, e1, ss2, e2)
  {
    FirstUnmetFrame(step.dependsOn, ss1, ss2);
  }

  // ---- Completed steps, by what lies below them ----------------------------------------------

  /** `p` starts at its first member and follows dependencies. */
  ghost predicate IsPath(steps: map<string, Step>, p: seq<string>) {
    p != [] && forall i :: 0 <= i < |p| - 1 ==> p[i] in steps && p[i + 1] in steps[p[i]].dependsOn
  }

  /** The step and everything it transitively depends on succeed. */
  ghost predicate AllGood(c: Context, id: string) {
    forall p :: IsPath(c.steps, p) && p[0] == id ==> Good(c, p[|p| - 1])
  }

  ghost predicate Good(c: Context, id: string) {
    id in c.steps && Verdict(c.world, c.steps[id]).Success?
  }

  lemma AllGoodUnfolds(c: Context, id: string)
    requires id in c.steps
    ensures AllGood(c, id) <==> Good(c, id) && forall d :: d in c.steps[id].dependsOn ==> AllGood(c, d)
  {
    if AllGood(c, id) {
      assert IsPath(c.steps, [id]) && [id][|[id]| - 1] == id;
      forall d, p | d in c.steps[id].dependsOn && IsPath(c.steps, p) && p[0] == d
        ensures Good(c, p[|p| - 1])
      {
        var q := [id] + p;
        assert forall i :: 0 < i < |q| ==> q[i] == p[i - 1];
        assert IsPath(c.steps, q) && q[0] == id && q[|q| - 1] == p[|p| - 1];
      }
    }
    if Good(c, id) && forall d :: d in c.steps[id].dependsOn ==> AllGood(c, d) {
      forall p | IsPath(c.steps, p) && p[0] == id
        ensures Good(c, p[|p| - 1])
      {
        if |p| > 1 {
          var q := p[1..];
          assert p[0 + 1] in c.steps[p[0]].dependsOn;
          forall i | 0 <= i < |q| - 1 ensures q[i] in c.steps && q[i + 1] in c.steps[q[i]].dependsOn {
            var j := i + 1;
            assert q[i] == p[j] && q[i + 1] == p[j + 1];
          }
          assert IsPath(c.steps, q) && q[|q| - 1] == p[|p| - 1];
          assert AllGood(c, q[0]);
        }
      }
    }
  }

  lemma ExplainedCompleted(w: World, step: Step, ss: map<string, StepStatus>, errs: map<string, string>)
    requires Explained(w, step, ss, errs)
    ensures IsCompleted(ss, step.id) <==>
              Verdict(w, step).Success? && forall d :: d in step.dependsOn ==> IsCompleted(ss, d)
  {
  }

  lemma {:induction false} CompletedIffAllGood(c: Context, order: seq<string>, i: nat, ss: map<string, StepStatus>,
                                               errs: map<string, string>)
    requires Runnable(c, order) && Downward(c, order) && Settled(c, order, ss, errs) && i < |order|
    ensures IsCompleted(ss, order[i]) <==> AllGood(c, order[i])
  {
    var id := order[i];
    assert id in order;
    forall d | d in c.steps[id].dependsOn
      ensures IsCompleted(ss, d) <==> AllGood(c, d)
    {
      var j := DependencyEarlier(c, order, i, d);
      CompletedIffAllGood(c, order, j, ss, errs);
    }
    AllGoodUnfolds(c, id);
    ExplainedCompleted(c.world, c.steps[id], ss, errs);
  }

  // ---- Transitive dependencies ---------------------------------------------------------------

  /** `b` is `a` or one of its transitive dependencies. */
  ghost predicate Reaches(steps: map<string, Step>, a: string, b: string) {
    exists p :: IsPath(steps, p) && p[0] == a && p[|p| - 1] == b
  }

  lemma ReachesItself(steps: map<string, Step>, a: string)
    ensures Reaches(steps, a, a)
  {
    assert IsPath(steps, [a]) && [a][|[a]| - 1] == a;
  }

  lemma ReachesThrough(steps: map<string, Step>, a: string, d: string, b: string)
    requires a in steps && d in steps[a].dependsOn && Reaches(steps, d, b)
    ensures Reaches(steps, a, b)
  {
    var p :| IsPath(steps, p) && p[0] == d && p[|p| - 1] == b;
    var q := [a] + p;
    assert forall i :: 0 < i < |q| ==> q[i] == p[i - 1];
    assert IsPath(steps, q) && q[0] == a && q[|q| - 1] == b;
  }

  lemma ReachesOn(steps: map<string, Step>, a: string, b: string, d: string)
    requires Reaches(steps, a, b) && b in steps && d in steps[b].dependsOn
    ensures Reaches(steps, a, d)
  {
    var p :| IsPath(steps, p) && p[0] == a && p[|p| - 1] == b;
    var q := p + [d];
    assert IsPath(steps, q) && q[0] == a && q[|q| - 1] == d;
  }

  /** In an order with dependencies first, what a step reaches stands no later. */
  lemma {:induction false} PathGoesBack(c: Context, order: seq<string>, i: nat, p: seq<string>) returns (j: nat)
    requires Runnable(c, order) && Downward(c, order) && i < |order|
    requires IsPath(c.steps, p) && p[0] == order[i]
    ensures j <= i && order[j] == p[|p| - 1]
    decreases |p|
  {
    if |p| == 1 {
      j := i;
    } else {
      var k := DependencyEarlier(c, order, i, p[1]);
      var q := p[1..];
      assert forall m :: 0 <= m < |q| ==> q[m] == p[m + 1];
      assert IsPath(c.steps, q);
      j := PathGoesBack(c, order, k, q);
    }
  }

  lemma ReachedEarlier(c: Context, order: seq<string>, i: nat, b: string) returns (j: nat)
    requires Runnable(c, order) && Downward(c, order) && i < |order| && Reaches(c.steps, order[i], b)
    ensures j <= i && order[j] == b
  {
    var p :| IsPath(c.steps, p) && p[0] == order[i] && p[|p| - 1] == b;
    j := PathGoesBack(c, order, i, p);
  }

  /** `d` is a transitive dependency of `id`. */
  ghost predicate Needs(steps: map<string, Step>, id: string, d: string) {
    id in steps && exists e :: e in steps[id].dependsOn && Reaches(steps, e, d)
  }

  lemma NeedsDirectly(steps: map<string, Step>, id: string, d: string)
    requires id in steps && d in steps[id].dependsOn
    ensures Needs(steps, id, d)
  {
    ReachesItself(steps, d);
  }

  lemma NeededEarlier(c: Context, order: seq<string>, i: nat, d: string) returns (j: nat)
    requires Runnable(c, order) && Downward(c, order) && i < |order| && Needs(c.steps, order[i], d)
    ensures j < i && order[j] == d
  {
    var e :| e in c.steps[order[i]].dependsOn && Reaches(c.steps, e, d);
    var k := DependencyEarlier(c, order, i, e);
    j := ReachedEarlier(c, order, k, d);
  }

  // ---- The theorems --------------------------------------------------------------------------

  ghost function ContextOf(steps: seq<Step>, input: map<string, string>, w: World): Context {
    Context(StepMap(steps), input, w)
  }

  /** A step that will be reached with everything below it completed, and then fails under "stop". */
  ghost predicate Blocker(c: Context, id: string) {
    && id in c.steps
    && Verdict(c.world, c.steps[id]).Failure? && c.steps[id].errorStrategy == STOP
    && forall d :: d in c.steps[id].dependsOn ==> AllGood(c, d)
  }

  lemma OrderFacts(steps: seq<Step>, input: map<string, string>, w: World, order: seq<string>)
    requires ValidWorld(w, input) && IsTopologicalOrder(steps, order)
    ensures Runnable(ContextOf(steps, input, w), order)
    ensures Downward(ContextOf(steps, input, w), order)
    ensures Sound(ContextOf(steps, input, w), [], Fresh(steps))
    ensures forall id :: id in order <==> id in StepMap(steps)
  {
    OrderCoversSteps(steps, order);
    FreshIsSound(steps, input, w);
    var m := StepMap(steps);
    forall i, d | 0 <= i < |order| && order[i] in m && d in m[order[i]].dependsOn
      ensures d in order[..i]
    {
      var k :| 0 <= k < |steps| && steps[k] == m[order[i]];
      assert DependsOn(steps, order[i], d);
    }
  }

  /** Where a run that did not complete was blocked. */
  lemma NotCompletedIsBlocked(c: Context, order: seq<string>, st: RunState) returns (h: nat)
    requires Runnable(c, order) && Distinct(order) && Downward(c, order)
    requires Fixed(c.world) && Sound(c, [], st) && st.status == RunRunning
    requires StateAfter(c, order, |order|, st).status != RunRunning
    ensures h < |order| && Blocker(c, order[h])
  {
    h := EndedRunHasPlace(c, order, |order|, st);
    BlockedHere(c, order, h, st);
  }

  lemma BlockedHere(c: Context, order: seq<string>, h: nat, st: RunState)
    requires Runnable(c, order) && Distinct(order) && Downward(c, order) && h < |order|
    requires Fixed(c.world) && Sound(c, [], st) && st.status == RunRunning
    requires StateAfter(c, order, h, st).status == RunRunning
    requires StateAfter(c, order, h + 1, st).status != RunRunning
    ensures Blocker(c, order[h])
  {
    var before := StateAfter(c, order, h, st);
    PrefixSettled(c, order, h, st);
    EndIsBlocked(c, order, h, st);
    BlockedStepIsBlocker(c, order, h, before.stepStatus, before.stepErrors);
  }

  lemma BlockedStepIsBlocker(c: Context, order: seq<string>, h: nat, ss: map<string, StepStatus>,
                             errs: map<string, string>)
    requires h < |order| && Runnable(c, order) && Runnable(c, order[..h]) && Downward(c, order)
    requires Settled(c, order[..h], ss, errs)
    requires order[h] in c.steps && Blocks(c.world, c.steps[order[h]], ss)
    ensures Blocker(c, order[h])
  {
    DownwardPrefix(c, order, h);
    forall d | d in c.steps[order[h]].dependsOn
      ensures AllGood(c, d)
    {
      var j := DependencyEarlier(c, order, h, d);
      assert order[..h][j] == d;
      CompletedIffAllGood(c, order[..h], j, ss, errs);
    }
  }

  lemma CompletedIsSettled(c: Context, order: seq<string>, st: RunState)
    requires Runnable(c, order) && Distinct(order) && Downward(c, order)
    requires Fixed(c.world) && Sound(c, [], st) && st.status == RunRunning
    requires Run(c, order, st).status == RunCompleted
    ensures Settled(c, order, Run(c, order, st).stepStatus, Run(c, order, st).stepErrors)
    ensures Sound(c, order, Run(c, order, st))
  {
    RunIsLastState(c, order, st);
    var last := StateAfter(c, order, |order|, st);
    assert last.status == RunRunning by {
      if last.status != RunRunning {
        var h := EndedRunHasPlace(c, order, |order|, st);
        assert order[h] in order;
        StepEnds(c, order[h], StateAfter(c, order, h, st));
      }
    }
    PrefixSettled(c, order, |order|, st);
    EveryStateSound(c, order, |order|, st);
    assert order[..|order|] == order;
  }

  lemma SettledHasNoBlocker(c: Context, order: seq<string>, i: nat, ss: map<string, StepStatus>,
                            errs: map<string, string>)
    requires Runnable(c, order) && Downward(c, order) && Settled(c, order, ss, errs) && i < |order|
    ensures !Blocker(c, order[i])
  {
    var id := order[i];
    if Blocker(c, id) {
      forall d | d in c.steps[id].dependsOn ensures IsCompleted(ss, d) {
        var j := DependencyEarlier(c, order, i, d);
        CompletedIffAllGood(c, order, j, ss, errs);
      }
      assert false;
    }
  }

  /** Along every order, the run gets through exactly when no reachable step fails under "stop". */
  lemma RunCompletesIff(steps: seq<Step>, input: map<string, string>, w: World, order: seq<string>)
    requires ValidWorld(w, input) && IsTopologicalOrder(steps, order) && Fixed(w)
    ensures RunAll(steps, input, w, order).status == RunCompleted
       <==> !exists id :: Blocker(ContextOf(steps, input, w), id)
  {
    var c, st := ContextOf(steps, input, w), Fresh(steps);
    OrderFacts(steps, input, w, order);
    if Run(c, order, st).status == RunCompleted {
      CompletedIsSettled(c, order, st);
      var final := Run(c, order, st);
      forall id ensures !Blocker(c, id) {
        if id in c.steps {
          var i :| 0 <= i < |order| && order[i] == id;
          SettledHasNoBlocker(c, order, i, final.stepStatus, final.stepErrors);
        }
      }
    } else {
      RunIsLastState(c, order, st);
      var h := NotCompletedIsBlocked(c, order, st);
    }
  }

  /** Completed are exactly the steps with no failing step among themselves and their transitive dependencies. */
  lemma CompletedSetIsExact(steps: seq<Step>, input: map<string, string>, w: World, order: seq<string>)
    requires ValidWorld(w, input) && IsTopologicalOrder(steps, order) && Fixed(w)
    requires !exists id :: Blocker(ContextOf(steps, input, w), id)
    ensures forall id :: id in Ids(steps) ==>
      (IsCompleted(RunAll(steps, input, w, order).stepStatus, id) <==> AllGood(ContextOf(steps, input, w), id))
  {
    var c, st := ContextOf(steps, input, w), Fresh(steps);
    RunCompletesIff(steps, input, w, order);
    OrderFacts(steps, input, w, order);
    CompletedIsSettled(c, order, st);
    var final := Run(c, order, st);
    forall id | id in Ids(steps)
      ensures IsCompleted(final.stepStatus, id) <==> AllGood(c, id)
    {
      assert id in order;
      var i :| 0 <= i < |order| && order[i] == id;
      CompletedIffAllGood(c, order, i, final.stepStatus, final.stepErrors);
    }
  }

  /** The two worlds differ in map iteration and in what successful calls return, and in nothing else. */
  lemma SettledAcrossWorlds(c1: Context, c2: Context, order: seq<string>, ss: map<string, StepStatus>,
                            errs: map<string, string>)
    requires Runnable(c1, order) && Runnable(c2, order) && c1.steps == c2.steps
    requires SameExecutors(c1.world, c2.world) && Settled(c2, order, ss, errs)
    ensures Settled(c1, order, ss, errs)
  {
    forall i | 0 <= i < |order|
      ensures order[i] in c1.steps && Explained(c1.world, c1.steps[order[i]], ss, errs)
    {
      TriesAgree(c1.world, c2.world, c1.steps[order[i]], "", "", 0, None);
      assert Explained(c2.world, c2.steps[order[i]], ss, errs);
    }
  }

  /**
   Confluence: two runs with the same executor behaviour, along any two orders the sort may return and
   with any two ways of iterating the input and output maps, end with the same statuses and errors.
   */
  lemma RunsAgree(steps: seq<Step>, input: map<string, string>, w1: World, w2: World, order1: seq<string>,
                  order2: seq<string>)
    requires ValidWorld(w1, input) && ValidWorld(w2, input)
    requires IsTopologicalOrder(steps, order1) && IsTopologicalOrder(steps, order2)
    requires SameExecutors(w1, w2) && Fixed(w1) && Fixed(w2)
    requires !exists id :: Blocker(ContextOf(steps, input, w1), id)
    ensures var final1, final2 := RunAll(steps, input, w1, order1), RunAll(steps, input, w2, order2);
            && final1.status == final2.status == RunCompleted
            && final1.stepStatus == final2.stepStatus
            && final1.stepErrors == final2.stepErrors
  {
    var c1, c2, st := ContextOf(steps, input, w1), ContextOf(steps, input, w2), Fresh(steps);
    OrderFacts(steps, input, w1, order1);
    OrderFacts(steps, input, w2, order1);
    OrderFacts(steps, input, w2, order2);
    RunCompletesIff(steps, input, w1, order1);
    NoBlockerAcrossWorlds(c1, c2);
    RunCompletesIff(steps, input, w2, order2);
    CompletedIsSettled(c1, order1, st);
    CompletedIsSettled(c2, order2, st);
    var f1, f2 := Run(c1, order1, st), Run(c2, order2, st);
    SettledReordered(c2, order1, order2, f2.stepStatus, f2.stepErrors);
    SettledAcrossWorlds(c1, c2, order1, f2.stepStatus, f2.stepErrors);
    RunKeys(c1, order1, st);
    RunKeys(c2, order2, st);
    SettledDetermines(c1, order1, f1, f2);
  }

  /** The same, for whatever Execute returns. */
  lemma ExecuteIsConfluent(steps: seq<Step>, input: map<string, string>, w1: World, w2: World, final1: RunState,
                           final2: RunState)
    requires ValidWorld(w1, input) && ValidWorld(w2, input)
    requires FollowsSomeOrder(steps, input, w1, final1) && FollowsSomeOrder(steps, input, w2, final2)
    requires SameExecutors(w1, w2) && Fixed(w1) && Fixed(w2)
    requires !exists id :: Blocker(ContextOf(steps, input, w1), id)
    ensures final1.status == final2.status == RunCompleted
    ensures final1.stepStatus == final2.stepStatus && final1.stepErrors == final2.stepErrors
    ensures forall id :: id in Ids(steps) ==>
      (IsCompleted(final1.stepStatus, id) <==> AllGood(ContextOf(steps, input, w1), id))
  {
    var order1 :| IsTopologicalOrder(steps, order1) && final1 == RunAll(steps, input, w1, order1);
    var order2 :| IsTopologicalOrder(steps, order2) && final2 == RunAll(steps, input, w2, order2);
    RunsAgree(steps, input, w1, w2, order1, order2);
    CompletedSetIsExact(steps, input, w1, order1);
  }

  lemma SettledReordered(c: Context, order1: seq<string>, order2: seq<string>, ss: map<string, StepStatus>,
                         errs: map<string, string>)
    requires Runnable(c, order1) && Runnable(c, order2)
    requires forall id :: id in order1 ==> id in order2
    requires Settled(c, order2, ss, errs)
    ensures Settled(c, order1, ss, errs)
  {
  }

  lemma NoBlockerAcrossWorlds(c1: Context, c2: Context)
    requires c1.steps == c2.steps && SameExecutors(c1.world, c2.world)
    requires !exists id :: Blocker(c1, id)
    ensures !exists id :: Blocker(c2, id)
  {
    forall id ensures Good(c1, id) <==> Good(c2, id) {
      if id in c1.steps {
        TriesAgree(c1.world, c2.world, c1.steps[id], "", "", 0, None);
      }
    }
    forall id ensures AllGood(c1, id) <==> AllGood(c2, id) {}
    forall id ensures !Blocker(c2, id) {
      assert !Blocker(c1, id);
      if id in c1.steps {
        TriesAgree(c1.world, c2.world, c1.steps[id], "", "", 0, None);
      }
    }
  }

  /** A run neither forgets a step nor invents one. */
  lemma {:induction false} RunKeys(c: Context, order: seq<string>, st: RunState)
    requires Runnable(c, order) && (forall id :: id in order ==> id in st.stepStatus)
    requires st.stepErrors.Keys <= st.stepStatus.Keys
    ensures Run(c, order, st).stepStatus.Keys == st.stepStatus.Keys
    ensures Run(c, order, st).stepErrors.Keys <= st.stepStatus.Keys
    decreases |order|
  {
    if order == [] {
    } else {
      var st' := RunStep(c, order[0], st);
      RunStepFrame(c, order[0], st);
      assert order[0] in st.stepStatus;
      assert st'.stepStatus.Keys == st.stepStatus.Keys;
      forall id | id in st'.stepErrors ensures id in st.stepStatus {
        assert id != order[0] ==> id in st.stepErrors;
      }
      assert forall id :: id in order[1..] ==> id in order;
      if st'.status == RunRunning {
        RunKeys(c, order[1..], st');
      }
    }
  }

  lemma SettledDetermines(c: Context, order: seq<string>, a: RunState, b: RunState)
    requires Runnable(c, order) && Downward(c, order)
    requires Settled(c, order, a.stepStatus, a.stepErrors) && Settled(c, order, b.stepStatus, b.stepErrors)
    requires forall id :: id in a.stepStatus <==> id in order
    requires forall id :: id in b.stepStatus <==> id in order
    requires a.stepErrors.Keys <= a.stepStatus.Keys && b.stepErrors.Keys <= b.stepStatus.Keys
    ensures a.stepStatus == b.stepStatus && a.stepErrors == b.stepErrors
  {
    forall id | id in a.stepStatus
      ensures AgreeAt(id, a.stepStatus, a.stepErrors, b.stepStatus, b.stepErrors)
    {
      var i :| 0 <= i < |order| && order[i] == id;
      SettledUnique(c, order, i, a.stepStatus, a.stepErrors, b.stepStatus, b.stepErrors);
    }
    AgreeingMapsEqual(a.stepStatus, a.stepErrors, b.stepStatus, b.stepErrors);
  }

  lemma AgreeingMapsEqual(ss1: map<string, StepStatus>, e1: map<string, string>, ss2: map<string, StepStatus>,
                          e2: map<string, string>)
    requires forall id :: id in ss1 <==> id in ss2
    requires e1.Keys <= ss1.Keys && e2.Keys <= ss2.Keys
    requires forall id :: id in ss1 ==> AgreeAt(id, ss1, e1, ss2, e2)
    ensures ss1 == ss2 && e1 == e2
  {
  }
}
