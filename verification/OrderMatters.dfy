/** Exactly when the outcome of a pipeline depends on the order its steps are taken in. */
module OrderMatters {
  import opened Collections
  import opened TopologicalSort
  import opened PipelineEngine
  import opened RunInvariants
  import opened Confluence

  // ---- Taking a part of an order first -------------------------------------------------------

  /** The members inside `part`, or those outside it, in their order. */
  function Filter(s: seq<string>, part: set<string>, inside: bool): seq<string> {
    if s == [] then []
    else
      var n := |s| - 1;
      Filter(s[..n], part, inside) + if (s[n] in part) == inside then [s[n]] else []
  }

  function PartFirst(s: seq<string>, part: set<string>): seq<string> {
    Filter(s, part, true) + Filter(s, part, false)
  }

  lemma {:induction false} FilterMembers(s: seq<string>, part: set<string>, inside: bool, x: string)
    ensures x in Filter(s, part, inside) <==> x in s && (x in part) == inside
  {
    if s == [] {
    } else {
      InitAndLast(s);
      FilterMembers(s[..|s| - 1], part, inside, x);
    }
  }

  /** Where a filtered member stood, and that what comes before it did so already. */
  lemma {:induction false} FilterPlace(s: seq<string>, part: set<string>, inside: bool, i: nat) returns (k: nat)
    requires i < |Filter(s, part, inside)|
    ensures k < |s| && s[k] == Filter(s, part, inside)[i] && (s[k] in part) == inside
    ensures Filter(s, part, inside)[..i] == Filter(s[..k], part, inside)
  {
    var n := |s| - 1;
    var init := Filter(s[..n], part, inside);
    if i == |init| {
      k := n;
      assert Filter(s, part, inside)[..i] == init;
    } else {
      k := FilterPlace(s[..n], part, inside, i);
      assert s[..n][..k] == s[..k];
      assert Filter(s, part, inside)[..i] == init[..i];
    }
  }

  lemma {:induction false} FilterSplitsMultiset(s: seq<string>, part: set<string>)
    ensures multiset(PartFirst(s, part)) == multiset(s)
  {
    if s == [] {
    } else {
      InitAndLast(s);
      FilterSplitsMultiset(s[..|s| - 1], part);
      var a, b := Filter(s[..|s| - 1], part, true), Filter(s[..|s| - 1], part, false);
      assert multiset(a + b) == multiset(a) + multiset(b);
    }
  }

  /** The part needs nothing from outside. */
  ghost predicate DownClosed(steps: seq<Step>, part: set<string>) {
    forall x, d :: x in part && DependsOn(steps, x, d) ==> d in part
  }

  lemma PartDependencyFirst(steps: seq<Step>, order: seq<string>, part: set<string>, i: nat, d: string)
    requires DependenciesFirst(steps, order) && DownClosed(steps, part)
    requires i < |PartFirst(order, part)| && DependsOn(steps, PartFirst(order, part)[i], d)
    ensures d in PartFirst(order, part)[..i]
  {
    var a, b, all := Filter(order, part, true), Filter(order, part, false), PartFirst(order, part);
    if i < |a| {
      var k := FilterPlace(order, part, true, i);
      FilterMembers(order[..k], part, true, d);
      assert all[..i] == a[..i];
    } else {
      var k := FilterPlace(order, part, false, i - |a|);
      FilterMembers(order[..k], part, false, d);
      FilterMembers(order, part, true, d);
      assert all[..i] == a + b[..i - |a|];
    }
  }

  /** A part that needs nothing from outside can be taken first. */
  lemma PartFirstIsOrder(steps: seq<Step>, order: seq<string>, part: set<string>)
    requires IsTopologicalOrder(steps, order) && DownClosed(steps, part)
    ensures IsTopologicalOrder(steps, PartFirst(order, part))
  {
    FilterSplitsMultiset(order, part);
    SameMultisetDistinct(order, PartFirst(order, part));
    forall i, d | 0 <= i < |PartFirst(order, part)| && DependsOn(steps, PartFirst(order, part)[i], d)
      ensures d in PartFirst(order, part)[..i]
    {
      PartDependencyFirst(steps, order, part, i, d);
    }
  }

  // ---- Where a run ends ----------------------------------------------------------------------

  /** A run about to begin, with executors fixed, along an order with dependencies first. */
  ghost predicate Ready(c: Context, order: seq<string>, st: RunState) {
    && Runnable(c, order) && Distinct(order) && Downward(c, order) && Fixed(c.world)
    && Sound(c, [], st) && st.status == RunRunning
    && (forall id :: id in order <==> id in st.stepStatus) && (forall id :: id in order <==> id in c.steps)
    && st.stepErrors == map[]
  }

  lemma RunsOn(c: Context, order: seq<string>, h: nat, st: RunState)
    requires Ready(c, order, st) && h < |order| && !Blocker(c, order[h])
    requires StateAfter(c, order, h, st).status == RunRunning
    ensures StateAfter(c, order, h + 1, st).status == RunRunning
  {
    if StateAfter(c, order, h + 1, st).status != RunRunning {
      BlockedHere(c, order, h, st);
    }
  }

  ghost predicate GoesOn(c: Context, order: seq<string>, h: nat, st: RunState)
    requires Runnable(c, order) && h <= |order|
  {
    StateAfter(c, order, h, st).status == RunRunning
  }

  lemma RunsThrough(c: Context, order: seq<string>, h: nat, st: RunState)
    requires Ready(c, order, st) && h <= |order|
    requires forall i :: 0 <= i < h ==> !Blocker(c, order[i])
    ensures StateAfter(c, order, h, st).status == RunRunning
  {
    forall k: nat | k < h && GoesOn(c, order, k, st) ensures GoesOn(c, order, k + 1, st) {
      RunsOn(c, order, k, st);
    }
    AfterSteps((k: nat) => k <= |order| && GoesOn(c, order, k, st), h);
  }

  lemma BlockerHalts(c: Context, order: seq<string>, h: nat, st: RunState)
    requires Ready(c, order, st) && h < |order| && Blocker(c, order[h])
    requires StateAfter(c, order, h, st).status == RunRunning
    ensures StateAfter(c, order, h + 1, st).status != RunRunning
  {
    if StateAfter(c, order, h + 1, st).status == RunRunning {
      var now := StateAfter(c, order, h + 1, st);
      PrefixSettled(c, order, h + 1, st);
      DownwardPrefix(c, order, h + 1);
      SettledHasNoBlocker(c, order[..h + 1], h, now.stepStatus, now.stepErrors);
    }
  }

  lemma {:induction false} EndedForever(c: Context, order: seq<string>, k: nat, m: nat, st: RunState)
    requires Runnable(c, order) && k <= m <= |order| && StateAfter(c, order, k, st).status != RunRunning
    ensures StateAfter(c, order, m, st) == StateAfter(c, order, k, st)
  {
    if k == m {
    } else {
      EndedForever(c, order, k, m - 1, st);
      OneIteration(c, order, m - 1, st);
    }
  }

  /** The first blocker of an order is where its run ends. */
  ghost predicate FirstBlocker(c: Context, order: seq<string>, h: nat) {
    h < |order| && Blocker(c, order[h]) && forall i :: 0 <= i < h ==> !Blocker(c, order[i])
  }

  lemma EndedRun(c: Context, order: seq<string>, k: nat, st: RunState)
    requires Runnable(c, order) && k <= |order| && st.status == RunRunning
    requires StateAfter(c, order, k, st).status != RunRunning
    ensures Run(c, order, st) == StateAfter(c, order, k, st)
  {
    EndedForever(c, order, k, |order|, st);
    RunIsLastState(c, order, st);
  }

  lemma HaltsAtBlocker(c: Context, order: seq<string>, h: nat, st: RunState)
    requires Ready(c, order, st) && FirstBlocker(c, order, h)
    ensures StateAfter(c, order, h, st).status == RunRunning
    ensures StateAfter(c, order, h + 1, st).status != RunRunning
  {
    RunsThrough(c, order, h, st);
    BlockerHalts(c, order, h, st);
  }

  lemma BlockedAtBlocker(c: Context, order: seq<string>, h: nat, st: RunState)
    requires Ready(c, order, st) && h < |order| && StateAfter(c, order, h, st).status == RunRunning
    requires StateAfter(c, order, h + 1, st).status != RunRunning
    ensures BlockedAt(c, order, h, st)
  {
    EndIsBlocked(c, order, h, st);
  }

  lemma RunEndsAtBlocker(c: Context, order: seq<string>, h: nat, st: RunState)
    requires Ready(c, order, st) && FirstBlocker(c, order, h)
    ensures StateAfter(c, order, h, st).status == RunRunning
    ensures BlockedAt(c, order, h, st)
    ensures Run(c, order, st) == StateAfter(c, order, h + 1, st)
  {
    HaltsAtBlocker(c, order, h, st);
    BlockedAtBlocker(c, order, h, st);
    EndedRun(c, order, h + 1, st);
  }

  /** What stands after the blocker is pending, the blocker is in error, what stands before has been processed. */
  lemma StatusesAtEnd(c: Context, order: seq<string>, h: nat, st: RunState, j: nat)
    requires Ready(c, order, st) && FirstBlocker(c, order, h) && j < |order|
    ensures var final := Run(c, order, st);
            && order[j] in final.stepStatus
            && (j > h ==> final.stepStatus[order[j]] == Pending)
            && (j == h ==> final.stepStatus[order[j]] == Errored)
            && (j < h ==> final.stepStatus[order[j]] != Pending)
            && (j < h ==> (final.stepStatus[order[j]] == Completed <==> AllGood(c, order[j])))
  {
    RunEndsAtBlocker(c, order, h, st);
    assert order[h] in order;
    EndsAtPlace(c, order, h, st);
    if j < h {
      ProcessedStatus(c, order, h, st, j);
    }
  }

  lemma ProcessedStatus(c: Context, order: seq<string>, h: nat, st: RunState, j: nat)
    requires Ready(c, order, st) && j < h < |order| && StateAfter(c, order, h, st).status == RunRunning
    ensures var now := StateAfter(c, order, h + 1, st);
            && order[j] in now.stepStatus && now.stepStatus[order[j]] != Pending
            && (now.stepStatus[order[j]] == Completed <==> AllGood(c, order[j]))
  {
    var before := StateAfter(c, order, h, st);
    PrefixSettled(c, order, h, st);
    DownwardPrefix(c, order, h);
    assert order[..h][j] == order[j] && order[h] in order;
    CompletedIffAllGood(c, order[..h], j, before.stepStatus, before.stepErrors);
    assert Explained(c.world, c.steps[order[..h][j]], before.stepStatus, before.stepErrors);
    OneIteration(c, order, h, st);
    RunStepFrame(c, order[h], before);
  }

  // ---- Below a blocker all is good -----------------------------------------------------------

  lemma ReachesFurther(steps: map<string, Step>, a: string, b: string, x: string)
    requires Reaches(steps, a, b) && Reaches(steps, b, x)
    ensures Reaches(steps, a, x)
  {
    var p :| IsPath(steps, p) && p[0] == a && p[|p| - 1] == b;
    var q :| IsPath(steps, q) && q[0] == b && q[|q| - 1] == x;
    var r := p[..|p| - 1] + q;
    forall i | 0 <= i < |r| - 1 ensures r[i] in steps && r[i + 1] in steps[r[i]].dependsOn {
      if i < |p| - 1 {
        assert r[i] == p[i] && r[i + 1] == p[i + 1];
      } else {
        assert r[i] == q[i - (|p| - 1)] && r[i + 1] == q[i + 1 - (|p| - 1)];
      }
    }
    assert IsPath(steps, r) && r[0] == a && r[|r| - 1] == x;
  }

  lemma ReachesFirstStep(steps: map<string, Step>, a: string, b: string) returns (d: string)
    requires Reaches(steps, a, b) && a != b
    ensures a in steps && d in steps[a].dependsOn && Reaches(steps, d, b)
  {
    var p :| IsPath(steps, p) && p[0] == a && p[|p| - 1] == b;
    d := p[1];
    assert p[0 + 1] in steps[p[0]].dependsOn;
    var q := p[1..];
    assert forall m :: 0 <= m < |q| ==> q[m] == p[m + 1];
    assert IsPath(steps, q) && q[0] == d && q[|q| - 1] == b;
  }

  lemma BelowBlocker(c: Context, b: string, x: string)
    requires Blocker(c, b) && Reaches(c.steps, b, x) && x != b
    ensures AllGood(c, x) && !Blocker(c, x)
  {
    var d := ReachesFirstStep(c.steps, b, x);
    forall p | IsPath(c.steps, p) && p[0] == x ensures Good(c, p[|p| - 1]) {
      assert Reaches(c.steps, x, p[|p| - 1]);
      ReachesFurther(c.steps, d, x, p[|p| - 1]);
      assert AllGood(c, d);
    }
    assert IsPath(c.steps, [x]) && [x][|[x]| - 1] == x;
  }

  // ---- Two ways of taking the steps ----------------------------------------------------------

  lemma DependencyNamed(steps: seq<Step>, order: seq<string>, x: string, d: string)
    requires IsTopologicalOrder(steps, order) && DependsOn(steps, x, d)
    ensures x in Ids(steps) && d in Ids(steps)
  {
    var i :| 0 <= i < |steps| && steps[i].id == x && d in steps[i].dependsOn;
    assert Ids(steps)[i] == x;
    OrderCoversSteps(steps, order);
    var j := IndexOf(order, x);
    assert d in order[..j];
  }

  lemma StepOfOrder(steps: seq<Step>, order: seq<string>, x: string, d: string)
    requires IsTopologicalOrder(steps, order)
    ensures DependsOn(steps, x, d) <==> x in StepMap(steps) && d in StepMap(steps)[x].dependsOn
    ensures DependsOn(steps, x, d) ==> d in Ids(steps)
  {
    if DependsOn(steps, x, d) {
      DependencyNamed(steps, order, x, d);
      SameMultisetDistinct(order, Ids(steps));
      var i :| 0 <= i < |steps| && steps[i].id == x && d in steps[i].dependsOn;
      OneStepPerName(steps, i);
    } else if x in StepMap(steps) && d in StepMap(steps)[x].dependsOn {
      MapHoldsSteps(steps, x, d);
    }
  }

  ghost function Under(steps: seq<Step>, b: string): set<string> {
    set x | x in Ids(steps) && Reaches(StepMap(steps), b, x)
  }

  ghost function NotOver(steps: seq<Step>, b: string): set<string> {
    set x | x in Ids(steps) && !Reaches(StepMap(steps), x, b)
  }

  lemma PartsClosed(steps: seq<Step>, order: seq<string>, b: string)
    requires IsTopologicalOrder(steps, order)
    ensures DownClosed(steps, Under(steps, b)) && DownClosed(steps, NotOver(steps, b))
  {
    var m := StepMap(steps);
    forall x, d | x in Under(steps, b) && DependsOn(steps, x, d) ensures d in Under(steps, b) {
      StepOfOrder(steps, order, x, d);
      ReachesOn(m, b, x, d);
    }
    forall x, d | x in NotOver(steps, b) && DependsOn(steps, x, d) ensures d in NotOver(steps, b) {
      StepOfOrder(steps, order, x, d);
      if Reaches(m, d, b) {
        ReachesThrough(m, x, d, b);
      }
    }
  }

  /** With a part taken first, its members stand before all others. */
  lemma PlacesInPartFirst(steps: seq<Step>, order: seq<string>, part: set<string>, i: nat, j: nat)
    requires i < |PartFirst(order, part)| && j < |PartFirst(order, part)|
    requires PartFirst(order, part)[i] in part && (j <= i || PartFirst(order, part)[j] !in part)
    ensures j < i ==> PartFirst(order, part)[j] in part
    ensures PartFirst(order, part)[j] !in part ==> i < j
  {
    var a, all := Filter(order, part, true), PartFirst(order, part);
    if i >= |a| {
      FilterMembers(order, part, false, all[i]);
    }
    assert all[i] == a[i];
    if j < |a| {
      FilterMembers(order, part, true, all[j]);
    }
  }

  lemma IndexOf(order: seq<string>, x: string) returns (i: nat)
    requires x in order
    ensures i < |order| && order[i] == x
  {
    i :| 0 <= i < |order| && order[i] == x;
  }

  // ---- The theorem ---------------------------------------------------------------------------

  lemma {:induction false} RootsAmong(steps: seq<Step>, n: nat) returns (seeds: seq<string>)
    requires n <= |steps|
    ensures Distinct(seeds) && forall v :: v in seeds <==> v in Ids(steps)[..n] && IsRoot(steps, v)
  {
    var ids := Ids(steps);
    if n == 0 {
      seeds := [];
    } else {
      seeds := RootsAmong(steps, n - 1);
      PrefixStep([], ids, n - 1);
      if IsRoot(steps, ids[n - 1]) && ids[n - 1] !in seeds {
        seeds := seeds + [ids[n - 1]];
      }
    }
  }

  /** Every pipeline the engine accepts has an order. */
  lemma OrderExists(steps: seq<Step>) returns (order: seq<string>)
    requires WellFormed(steps)
    ensures IsTopologicalOrder(steps, order)
  {
    var seeds := RootsAmong(steps, |steps|);
    assert Ids(steps)[..|steps|] == Ids(steps);
    EverySeedingSorts(steps, seeds);
    order := KahnOrder(steps, seeds);
  }

  lemma ReadyFor(steps: seq<Step>, input: map<string, string>, w: World, order: seq<string>)
    requires ValidWorld(w, input) && IsTopologicalOrder(steps, order) && Fixed(w)
    ensures Ready(ContextOf(steps, input, w), order, Fresh(steps))
    ensures forall id :: id in order <==> id in Ids(steps)
  {
    OrderFacts(steps, input, w, order);
  }

  ghost predicate SameStatuses(steps: seq<Step>, input: map<string, string>, w: World) {
    ValidWorld(w, input) &&
    forall o1, o2 :: IsTopologicalOrder(steps, o1) && IsTopologicalOrder(steps, o2) ==>
      RunAll(steps, input, w, o1).stepStatus == RunAll(steps, input, w, o2).stepStatus
  }

  /** Every other step comes before `b` or after it in all orders. */
  ghost predicate Bottleneck(steps: seq<Step>, b: string) {
    forall x :: x in Ids(steps) ==> Reaches(StepMap(steps), b, x) || Reaches(StepMap(steps), x, b)
  }

  /** An order in which the run ends at `b` with everything that `b` does not reach still pending. */
  lemma EarliestEnd(steps: seq<Step>, input: map<string, string>, w: World, order: seq<string>, b: string)
    returns (early: seq<string>)
    requires ValidWorld(w, input) && IsTopologicalOrder(steps, order) && Fixed(w)
    requires Blocker(ContextOf(steps, input, w), b)
    ensures IsTopologicalOrder(steps, early)
    ensures var final := RunAll(steps, input, w, early).stepStatus;
            && b in final && final[b] == Errored
            && forall x :: x in Ids(steps) && !Reaches(StepMap(steps), b, x) ==> x in final && final[x] == Pending
  {
    var c, st, part := ContextOf(steps, input, w), Fresh(steps), Under(steps, b);
    PartsClosed(steps, order, b);
    PartFirstIsOrder(steps, order, part);
    early := PartFirst(order, part);
    ReadyFor(steps, input, w, early);
    ReachesItself(c.steps, b);
    var h := IndexOf(early, b);
    forall i | 0 <= i < h ensures !Blocker(c, early[i]) {
      PlacesInPartFirst(steps, order, part, h, i);
      BelowBlocker(c, b, early[i]);
    }
    StatusesAtEnd(c, early, h, st, h);
    forall x | x in Ids(steps) && !Reaches(c.steps, b, x)
      ensures x in Run(c, early, st).stepStatus && Run(c, early, st).stepStatus[x] == Pending
    {
      var j := IndexOf(early, x);
      PlacesInPartFirst(steps, order, part, h, j);
      StatusesAtEnd(c, early, h, st, j);
    }
  }

  /** An order in which everything that does not need the only blocker has been processed. */
  lemma LatestEnd(steps: seq<Step>, input: map<string, string>, w: World, order: seq<string>, b: string, x: string)
    returns (late: seq<string>)
    requires ValidWorld(w, input) && IsTopologicalOrder(steps, order) && Fixed(w)
    requires Blocker(ContextOf(steps, input, w), b)
    requires forall id :: Blocker(ContextOf(steps, input, w), id) ==> id == b
    requires x in Ids(steps) && !Reaches(StepMap(steps), x, b)
    ensures IsTopologicalOrder(steps, late)
    ensures var final := RunAll(steps, input, w, late).stepStatus; x in final && final[x] != Pending
  {
    var c, st, part := ContextOf(steps, input, w), Fresh(steps), NotOver(steps, b);
    PartsClosed(steps, order, b);
    PartFirstIsOrder(steps, order, part);
    late := PartFirst(order, part);
    ReadyFor(steps, input, w, late);
    ReachesItself(c.steps, b);
    var h := IndexOf(late, b);
    var j := IndexOf(late, x);
    PlacesInPartFirst(steps, order, part, j, h);
    StatusesAtEnd(c, late, h, st, j);
  }

  /** Where a blocker is no bottleneck, or not the only one, two orders leave different statuses. */
  lemma OrdersDiffer(steps: seq<Step>, input: map<string, string>, w: World, order: seq<string>, b: string)
    requires ValidWorld(w, input) && IsTopologicalOrder(steps, order) && Fixed(w)
    requires Blocker(ContextOf(steps, input, w), b) && !Bottleneck(steps, b)
    ensures !SameStatuses(steps, input, w)
  {
    var c := ContextOf(steps, input, w);
    var early := EarliestEnd(steps, input, w, order, b);
    if forall id :: Blocker(c, id) ==> id == b {
      var x :| x in Ids(steps) && !Reaches(c.steps, b, x) && !Reaches(c.steps, x, b);
      var late := LatestEnd(steps, input, w, order, b, x);
      assert RunAll(steps, input, w, early).stepStatus != RunAll(steps, input, w, late).stepStatus;
    } else {
      var other :| Blocker(c, other) && other != b;
      if Reaches(c.steps, b, other) {
        BelowBlocker(c, b, other);
      }
      var swapped := EarliestEnd(steps, input, w, order, other);
      assert RunAll(steps, input, w, early).stepStatus != RunAll(steps, input, w, swapped).stepStatus;
    }
  }

  /** What a run leaves that can only end at `b`. */
  ghost function StatusAround(steps: map<string, Step>, b: string, x: string): StepStatus {
    if x == b then Errored else if Reaches(steps, b, x) then Completed else Pending
  }

  lemma BottleneckIsFirst(steps: seq<Step>, input: map<string, string>, w: World, order: seq<string>, b: string, h: nat)
    requires ValidWorld(w, input) && IsTopologicalOrder(steps, order) && Fixed(w)
    requires Blocker(ContextOf(steps, input, w), b) && Bottleneck(steps, b) && h < |order| && order[h] == b
    ensures Runnable(ContextOf(steps, input, w), order) && FirstBlocker(ContextOf(steps, input, w), order, h)
    ensures forall i :: 0 <= i < h ==>
      Reaches(StepMap(steps), b, order[i]) && AllGood(ContextOf(steps, input, w), order[i])
    ensures forall i :: h < i < |order| ==> !Reaches(StepMap(steps), b, order[i])
  {
    var c := ContextOf(steps, input, w);
    ReadyFor(steps, input, w, order);
    forall i | 0 <= i < h
      ensures Reaches(c.steps, b, order[i]) && AllGood(c, order[i]) && !Blocker(c, order[i])
    {
      assert order[i] in order;
      if Reaches(c.steps, order[i], b) {
        var j := ReachedEarlier(c, order, i, b);
      }
      BelowBlocker(c, b, order[i]);
    }
    forall i | h < i < |order| ensures !Reaches(c.steps, b, order[i]) {
      if Reaches(c.steps, b, order[i]) {
        var j := ReachedEarlier(c, order, h, order[i]);
      }
    }
  }

  lemma BottleneckStatus(steps: seq<Step>, input: map<string, string>, w: World, order: seq<string>, b: string, j: nat)
    requires ValidWorld(w, input) && IsTopologicalOrder(steps, order) && Fixed(w)
    requires Blocker(ContextOf(steps, input, w), b) && Bottleneck(steps, b) && j < |order|
    ensures var final := RunAll(steps, input, w, order).stepStatus;
            order[j] in final && final[order[j]] == StatusAround(StepMap(steps), b, order[j])
  {
    ReadyFor(steps, input, w, order);
    var h := IndexOf(order, b);
    BottleneckIsFirst(steps, input, w, order, b, h);
    StatusesAtEnd(ContextOf(steps, input, w), order, h, Fresh(steps), j);
  }

  lemma RunCoversSteps(steps: seq<Step>, input: map<string, string>, w: World, order: seq<string>)
    requires ValidWorld(w, input) && IsTopologicalOrder(steps, order) && Fixed(w)
    ensures forall x :: x in RunAll(steps, input, w, order).stepStatus <==> x in Ids(steps)
  {
    ReadyFor(steps, input, w, order);
    RunKeys(ContextOf(steps, input, w), order, Fresh(steps));
  }

  lemma StatusOfStep(steps: seq<Step>, input: map<string, string>, w: World, order: seq<string>, b: string, x: string)
    requires ValidWorld(w, input) && IsTopologicalOrder(steps, order) && Fixed(w)
    requires Blocker(ContextOf(steps, input, w), b) && Bottleneck(steps, b) && x in Ids(steps)
    ensures var final := RunAll(steps, input, w, order).stepStatus;
            x in final && final[x] == StatusAround(StepMap(steps), b, x)
  {
    OrderCoversSteps(steps, order);
    var i := IndexOf(order, x);
    BottleneckStatus(steps, input, w, order, b, i);
  }

  lemma BottleneckRunsAgree(steps: seq<Step>, input: map<string, string>, w: World, o1: seq<string>, o2: seq<string>,
                            b: string)
    requires ValidWorld(w, input) && IsTopologicalOrder(steps, o1) && IsTopologicalOrder(steps, o2) && Fixed(w)
    requires Blocker(ContextOf(steps, input, w), b) && Bottleneck(steps, b)
    ensures RunAll(steps, input, w, o1).stepStatus == RunAll(steps, input, w, o2).stepStatus
  {
    var ss1, ss2 := RunAll(steps, input, w, o1).stepStatus, RunAll(steps, input, w, o2).stepStatus;
    RunCoversSteps(steps, input, w, o1);
    RunCoversSteps(steps, input, w, o2);
    forall x | x in Ids(steps) ensures ss1[x] == ss2[x] {
      StatusOfStep(steps, input, w, o1, b, x);
      StatusOfStep(steps, input, w, o2, b, x);
    }
    assert ss1.Keys == ss2.Keys;
  }

  /**
   With executors fixed and no cancellation, the statuses are the same for all orders if and only if no step
   that is reached fails under "stop", or one does that every other step needs or is needed by.
   */
  lemma StatusesAgreeIff(steps: seq<Step>, input: map<string, string>, w: World)
    requires ValidWorld(w, input) && Fixed(w) && WellFormed(steps)
    ensures SameStatuses(steps, input, w) <==>
      || (forall b :: !Blocker(ContextOf(steps, input, w), b))
      || (exists b :: Blocker(ContextOf(steps, input, w), b) && Bottleneck(steps, b))
  {
    var c := ContextOf(steps, input, w);
    var order := OrderExists(steps);
    if forall b :: !Blocker(c, b) {
      forall o1, o2 | IsTopologicalOrder(steps, o1) && IsTopologicalOrder(steps, o2)
        ensures RunAll(steps, input, w, o1).stepStatus == RunAll(steps, input, w, o2).stepStatus
      {
        RunsAgree(steps, input, w, w, o1, o2);
      }
    } else if b :| Blocker(c, b) && Bottleneck(steps, b) {
      forall o1, o2 | IsTopologicalOrder(steps, o1) && IsTopologicalOrder(steps, o2)
        ensures RunAll(steps, input, w, o1).stepStatus == RunAll(steps, input, w, o2).stepStatus
      {
        BottleneckRunsAgree(steps, input, w, o1, o2, b);
      }
    } else {
      var b :| Blocker(c, b);
      OrdersDiffer(steps, input, w, order, b);
    }
  }

  /** A bottleneck is the only blocker. */
  lemma BottleneckIsOnlyBlocker(c: Context, steps: seq<Step>, b: string, other: string)
    requires c.steps == StepMap(steps) && Blocker(c, b) && Blocker(c, other) && Bottleneck(steps, b)
    ensures other == b
  {
    if other != b {
      if Reaches(c.steps, b, other) {
        BelowBlocker(c, b, other);
      } else {
        BelowBlocker(c, other, b);
      }
    }
  }

  // ---- Two given orders ----------------------------------------------------------------------

  /** Both runs end at the same step, with the same steps before it. */
  ghost predicate HaltAlike(c: Context, o1: seq<string>, o2: seq<string>, h1: nat, h2: nat) {
    && FirstBlocker(c, o1, h1) && FirstBlocker(c, o2, h2)
    && o1[h1] == o2[h2] && Elements(o1[..h1]) == Elements(o2[..h2])
  }

  /** No run ends early, or the two do at the same step, with the same steps before it. */
  ghost predicate EndAlike(c: Context, o1: seq<string>, o2: seq<string>) {
    (forall b :: !Blocker(c, b)) || exists h1, h2 :: HaltAlike(c, o1, o2, h1, h2)
  }

  lemma {:induction false} SomeFirstBlocker(c: Context, order: seq<string>, n: nat) returns (h: nat)
    requires n < |order| && Blocker(c, order[n])
    ensures h <= n && FirstBlocker(c, order, h)
  {
    if i: nat :| i < n && Blocker(c, order[i]) {
      h := SomeFirstBlocker(c, order, i);
    } else {
      h := n;
    }
  }

  lemma MembersUpTo(order: seq<string>, h: nat, x: string)
    requires h < |order| && Distinct(order)
    ensures x in order[..h] <==> exists j :: 0 <= j < h && order[j] == x
    ensures order[h] !in order[..h]
  {
    assert x in order[..h] ==> exists j :: 0 <= j < h && order[..h][j] == x;
    if j :| 0 <= j < h && order[j] == x {
      assert order[..h][j] == x;
    }
  }

  /** Equal statuses leave no choice but to end alike. */
  lemma EqualStatusesHaltAlike(c: Context, o1: seq<string>, o2: seq<string>, st: RunState, h1: nat, h2: nat)
    requires Ready(c, o1, st) && Ready(c, o2, st) && FirstBlocker(c, o1, h1) && FirstBlocker(c, o2, h2)
    requires Run(c, o1, st).stepStatus == Run(c, o2, st).stepStatus
    ensures HaltAlike(c, o1, o2, h1, h2)
  {
    EndsNoLater(c, o1, o2, st, h1, h2, o1[h1]);
    assert o1[h1] == o2[h2];
    forall x ensures x in Elements(o1[..h1]) <==> x in Elements(o2[..h2]) {
      if x in o1[..h1] {
        ProcessedInBoth(c, o1, o2, st, h1, h2, x);
      }
      if x in o2[..h2] {
        ProcessedInBoth(c, o2, o1, st, h2, h1, x);
      }
    }
  }

  /** The step in error in the first run is the one the second run ended at. */
  lemma EndsNoLater(c: Context, o1: seq<string>, o2: seq<string>, st: RunState, h1: nat, h2: nat, b: string)
    requires Ready(c, o1, st) && Ready(c, o2, st) && FirstBlocker(c, o1, h1) && FirstBlocker(c, o2, h2)
    requires Run(c, o1, st).stepStatus == Run(c, o2, st).stepStatus && b == o1[h1]
    ensures o2[h2] == b
  {
    StatusesAtEnd(c, o1, h1, st, h1);
    assert b in o1;
    var j := IndexOf(o2, b);
    StatusesAtEnd(c, o2, h2, st, j);
  }

  lemma ProcessedInBoth(c: Context, o1: seq<string>, o2: seq<string>, st: RunState, h1: nat, h2: nat, x: string)
    requires Ready(c, o1, st) && Ready(c, o2, st) && FirstBlocker(c, o1, h1) && FirstBlocker(c, o2, h2)
    requires Run(c, o1, st).stepStatus == Run(c, o2, st).stepStatus && o1[h1] == o2[h2] && x in o1[..h1]
    ensures x in o2[..h2]
  {
    MembersUpTo(o1, h1, x);
    var i :| 0 <= i < h1 && o1[i] == x;
    StatusesAtEnd(c, o1, h1, st, i);
    assert x in o1;
    var j := IndexOf(o2, x);
    StatusesAtEnd(c, o2, h2, st, j);
    assert j <= h2 && x != o2[h2];
    MembersUpTo(o2, h2, x);
  }

  /** Steps before the end of both runs have the same status in both. */
  lemma PrefixesAgree(c: Context, o1: seq<string>, o2: seq<string>, st: RunState, h1: nat, h2: nat, x: string)
    requires Ready(c, o1, st) && Ready(c, o2, st) && HaltAlike(c, o1, o2, h1, h2) && x in o1[..h1]
    ensures var s1, s2 := StateAfter(c, o1, h1, st), StateAfter(c, o2, h2, st);
            AgreeAt(x, s1.stepStatus, s1.stepErrors, s2.stepStatus, s2.stepErrors)
  {
    var s1, s2 := StateAfter(c, o1, h1, st), StateAfter(c, o2, h2, st);
    HaltsAtBlocker(c, o1, h1, st);
    HaltsAtBlocker(c, o2, h2, st);
    PrefixSettled(c, o1, h1, st);
    PrefixSettled(c, o2, h2, st);
    forall y | y in o1[..h1] ensures y in o2[..h2] {
      assert y in Elements(o1[..h1]);
    }
    SettledReordered(c, o1[..h1], o2[..h2], s2.stepStatus, s2.stepErrors);
    DownwardPrefix(c, o1, h1);
    var i := IndexOf(o1[..h1], x);
    SettledUnique(c, o1[..h1], i, s1.stepStatus, s1.stepErrors, s2.stepStatus, s2.stepErrors);
  }

  /** What a step before the end had when the run got there, it keeps. */
  lemma KeptToTheEnd(c: Context, order: seq<string>, h: nat, st: RunState, x: string)
    requires Ready(c, order, st) && FirstBlocker(c, order, h) && x in order[..h]
    ensures var before, final := StateAfter(c, order, h, st), Run(c, order, st);
            x in before.stepStatus ==> x in final.stepStatus && final.stepStatus[x] == before.stepStatus[x]
  {
    RunEndsAtBlocker(c, order, h, st);
    OneIteration(c, order, h, st);
    MembersUpTo(order, h, x);
    RunStepFrame(c, order[h], StateAfter(c, order, h, st));
  }

  lemma HaltingAlikeAgrees(c: Context, o1: seq<string>, o2: seq<string>, st: RunState, h1: nat, h2: nat, x: string)
    requires Ready(c, o1, st) && Ready(c, o2, st) && HaltAlike(c, o1, o2, h1, h2) && x in o1
    ensures x in Run(c, o1, st).stepStatus && x in Run(c, o2, st).stepStatus
    ensures Run(c, o1, st).stepStatus[x] == Run(c, o2, st).stepStatus[x]
  {
    var i := IndexOf(o1, x);
    var j := IndexOf(o2, x);
    StatusesAtEnd(c, o1, h1, st, i);
    StatusesAtEnd(c, o2, h2, st, j);
    MembersUpTo(o1, h1, x);
    MembersUpTo(o2, h2, x);
    assert x in Elements(o1[..h1]) <==> x in Elements(o2[..h2]);
    if x in o1[..h1] {
      PrefixesAgree(c, o1, o2, st, h1, h2, x);
      KeptToTheEnd(c, o1, h1, st, x);
      KeptToTheEnd(c, o2, h2, st, x);
    }
  }

  /** Runs along two given orders leave the same statuses if and only if they end alike. */
  lemma PairAgreeIff(steps: seq<Step>, input: map<string, string>, w: World, o1: seq<string>, o2: seq<string>)
    requires ValidWorld(w, input) && Fixed(w) && IsTopologicalOrder(steps, o1) && IsTopologicalOrder(steps, o2)
    ensures RunAll(steps, input, w, o1).stepStatus == RunAll(steps, input, w, o2).stepStatus
       <==> EndAlike(ContextOf(steps, input, w), o1, o2)
  {
    var c := ContextOf(steps, input, w);
    if forall b :: !Blocker(c, b) {
      RunsAgree(steps, input, w, w, o1, o2);
    } else {
      if RunAll(steps, input, w, o1).stepStatus == RunAll(steps, input, w, o2).stepStatus {
        AgreeingRunsEndAlike(steps, input, w, o1, o2);
      }
      if h1: nat, h2: nat :| HaltAlike(c, o1, o2, h1, h2) {
        AlikeRunsAgree(steps, input, w, o1, o2, h1, h2);
      }
    }
  }

  lemma AgreeingRunsEndAlike(steps: seq<Step>, input: map<string, string>, w: World, o1: seq<string>, o2: seq<string>)
    requires ValidWorld(w, input) && Fixed(w) && IsTopologicalOrder(steps, o1) && IsTopologicalOrder(steps, o2)
    requires exists b :: Blocker(ContextOf(steps, input, w), b)
    requires RunAll(steps, input, w, o1).stepStatus == RunAll(steps, input, w, o2).stepStatus
    ensures EndAlike(ContextOf(steps, input, w), o1, o2)
  {
    var c := ContextOf(steps, input, w);
    ReadyFor(steps, input, w, o1);
    ReadyFor(steps, input, w, o2);
    var b :| Blocker(c, b);
    var n1 := IndexOf(o1, b);
    var n2 := IndexOf(o2, b);
    var h1 := SomeFirstBlocker(c, o1, n1);
    var h2 := SomeFirstBlocker(c, o2, n2);
    EqualStatusesHaltAlike(c, o1, o2, Fresh(steps), h1, h2);
  }

  lemma AlikeStatus(steps: seq<Step>, input: map<string, string>, w: World, o1: seq<string>, o2: seq<string>,
                    h1: nat, h2: nat, x: string)
    requires ValidWorld(w, input) && Fixed(w) && IsTopologicalOrder(steps, o1) && IsTopologicalOrder(steps, o2)
    requires HaltAlike(ContextOf(steps, input, w), o1, o2, h1, h2) && x in Ids(steps)
    ensures var ss1, ss2 := RunAll(steps, input, w, o1).stepStatus, RunAll(steps, input, w, o2).stepStatus;
            x in ss1 && x in ss2 && ss1[x] == ss2[x]
  {
    ReadyFor(steps, input, w, o1);
    ReadyFor(steps, input, w, o2);
    HaltingAlikeAgrees(ContextOf(steps, input, w), o1, o2, Fresh(steps), h1, h2, x);
  }

  lemma AlikeRunsAgree(steps: seq<Step>, input: map<string, string>, w: World, o1: seq<string>, o2: seq<string>,
                       h1: nat, h2: nat)
    requires ValidWorld(w, input) && Fixed(w) && IsTopologicalOrder(steps, o1) && IsTopologicalOrder(steps, o2)
    requires HaltAlike(ContextOf(steps, input, w), o1, o2, h1, h2)
    ensures RunAll(steps, input, w, o1).stepStatus == RunAll(steps, input, w, o2).stepStatus
  {
    var ss1, ss2 := RunAll(steps, input, w, o1).stepStatus, RunAll(steps, input, w, o2).stepStatus;
    RunCoversSteps(steps, input, w, o1);
    RunCoversSteps(steps, input, w, o2);
    forall x | x in Ids(steps) ensures ss1[x] == ss2[x] {
      AlikeStatus(steps, input, w, o1, o2, h1, h2, x);
    }
    assert ss1.Keys == ss2.Keys;
  }

  // ---- The orders the sort returns -----------------------------------------------------------

  /** All the results of Execute have the same statuses. */
  ghost predicate OneOutcome(steps: seq<Step>, input: map<string, string>, w: World)
    requires ValidWorld(w, input)
  {
    forall f1, f2 :: FollowsSomeSeeding(steps, input, w, f1) && FollowsSomeSeeding(steps, input, w, f2) ==>
      f1.stepStatus == f2.stepStatus
  }

  /** From all seedings the run ends at the same step, with the same steps before it, or never early. */
  ghost predicate SeedingsEndAlike(steps: seq<Step>, c: Context) {
    forall s1, s2 :: IsSeeding(steps, s1) && IsSeeding(steps, s2) ==>
      EndAlike(c, KahnOrder(steps, s1), KahnOrder(steps, s2))
  }

  lemma SeedingPairAgreeIff(steps: seq<Step>, input: map<string, string>, w: World, s1: seq<string>, s2: seq<string>)
    requires ValidWorld(w, input) && Fixed(w) && WellFormed(steps) && IsSeeding(steps, s1) && IsSeeding(steps, s2)
    ensures IsTopologicalOrder(steps, KahnOrder(steps, s1)) && IsTopologicalOrder(steps, KahnOrder(steps, s2))
    ensures EndAlike(ContextOf(steps, input, w), KahnOrder(steps, s1), KahnOrder(steps, s2)) <==>
      RunAll(steps, input, w, KahnOrder(steps, s1)).stepStatus
        == RunAll(steps, input, w, KahnOrder(steps, s2)).stepStatus
  {
    EverySeedingSorts(steps, s1);
    EverySeedingSorts(steps, s2);
    PairAgreeIff(steps, input, w, KahnOrder(steps, s1), KahnOrder(steps, s2));
  }

  /**
   Exactly when the statuses that Execute leaves do not depend on the iteration order of the map that seeds its
   sort.
   */
  lemma SeedingsAgreeIff(steps: seq<Step>, input: map<string, string>, w: World)
    requires ValidWorld(w, input) && Fixed(w) && WellFormed(steps)
    ensures OneOutcome(steps, input, w) <==> SeedingsEndAlike(steps, ContextOf(steps, input, w))
  {
    var c := ContextOf(steps, input, w);
    if OneOutcome(steps, input, w) {
      forall s1, s2 | IsSeeding(steps, s1) && IsSeeding(steps, s2)
        ensures EndAlike(c, KahnOrder(steps, s1), KahnOrder(steps, s2))
      {
        SeedingPairAgreeIff(steps, input, w, s1, s2);
        var f1 := RunAll(steps, input, w, KahnOrder(steps, s1));
        var f2 := RunAll(steps, input, w, KahnOrder(steps, s2));
        assert FollowsSeeding(steps, input, w, s1, f1) && FollowsSeeding(steps, input, w, s2, f2);
      }
    }
    if SeedingsEndAlike(steps, c) {
      forall f1, f2 | FollowsSomeSeeding(steps, input, w, f1) && FollowsSomeSeeding(steps, input, w, f2)
        ensures f1.stepStatus == f2.stepStatus
      {
        var s1 :| FollowsSeeding(steps, input, w, s1, f1);
        var s2 :| FollowsSeeding(steps, input, w, s2, f2);
        SeedingPairAgreeIff(steps, input, w, s1, s2);
      }
    }
  }

  /** A pipeline with one step to start from has one outcome, whatever its executors do. */
  lemma OneRootOneOutcome(steps: seq<Step>, input: map<string, string>, w: World, root: string, f1: RunState,
                          f2: RunState)
    requires ValidWorld(w, input) && forall v :: IsRoot(steps, v) <==> v == root
    requires FollowsSomeSeeding(steps, input, w, f1) && FollowsSomeSeeding(steps, input, w, f2)
    ensures f1 == f2
  {
    var s1 :| FollowsSeeding(steps, input, w, s1, f1);
    var s2 :| FollowsSeeding(steps, input, w, s2, f2);
    LoneSeed(s1, root);
    LoneSeed(s2, root);
  }

  lemma LoneSeed(seeds: seq<string>, root: string)
    requires Distinct(seeds) && forall v :: v in seeds <==> v == root
    ensures seeds == [root]
  {
    assert forall x :: x in Elements(seeds) <==> x in seeds;
    assert Elements(seeds) == {root};
    CardinalityOfElements(seeds);
    assert |seeds| == 1 && seeds[0] in seeds;
  }

  // ---- Two seedings --------------------------------------------------------------------------

  function TwoSteps(): seq<Step> {
    [Step("a", "agent", "", "", [], 0, STOP), Step("b", "agent", "", "", [], 0, STOP)]
  }

  /**
   Two independent steps, one failing under "stop": the sort returns them in the order in which the map
   iteration that seeds it comes across them, and whether the other step runs is up to that.
   */
  lemma StopMakesOrderMatter(w: World)
    requires ValidWorld(w, map[])
    requires forall k, x :: w.attempt("a", k, x) == Failed("boom") && w.attempt("b", k, x) == Succeeded("done")
    ensures forall seeds :: seeds in {["a", "b"], ["b", "a"]} ==>
      IsSeeding(TwoSteps(), seeds) && KahnOrder(TwoSteps(), seeds) == seeds && IsTopologicalOrder(TwoSteps(), seeds)
    ensures RunAll(TwoSteps(), map[], w, ["a", "b"]).stepStatus == map["a" := Errored, "b" := Pending]
    ensures RunAll(TwoSteps(), map[], w, ["b", "a"]).stepStatus == map["a" := Errored, "b" := Completed]
  {
    SeededAsListed(["a", "b"]);
    SeededAsListed(["b", "a"]);
    FailureFirst(w);
    FailureLast(w);
  }

  lemma SeededAsListed(seeds: seq<string>)
    requires seeds == ["a", "b"] || seeds == ["b", "a"]
    ensures IsSeeding(TwoSteps(), seeds) && KahnOrder(TwoSteps(), seeds) == seeds
    ensures IsTopologicalOrder(TwoSteps(), seeds)
  {
    BothAreRoots(seeds);
    NoEdges(TwoSteps());
    WithoutEdges(seeds, [], 2);
    assert [] + seeds == seeds;
    EverySeedingSorts(TwoSteps(), seeds);
  }

  lemma BothAreRoots(seeds: seq<string>)
    requires seeds == ["a", "b"] || seeds == ["b", "a"]
    ensures IsSeeding(TwoSteps(), seeds)
  {
    var steps := TwoSteps();
    assert "a"[0] != "b"[0];
    assert Ids(steps) == ["a", "b"];
    forall id, d ensures !DependsOn(steps, id, d) {}
    assert forall v :: v in seeds <==> v in Ids(steps);
  }

  lemma {:induction false} NoEdges(steps: seq<Step>)
    requires forall i :: 0 <= i < |steps| ==> steps[i].dependsOn == []
    ensures Edges(steps) == []
  {
    if steps == [] {
    } else {
      NoEdges(steps[..|steps| - 1]);
    }
  }

  /** Without edges the queue comes out as it went in. */
  lemma {:induction false} WithoutEdges(queue: seq<string>, order: seq<string>, fuel: nat)
    requires |queue| <= fuel
    ensures KahnFrom([], queue, order, fuel) == order + queue
    decreases fuel
  {
    if queue == [] {
      assert order + [] == order;
    } else {
      assert queue[1..] + [] == queue[1..];
      assert order + [queue[0]] + queue[1..] == order + queue;
      WithoutEdges(queue[1..], order + [queue[0]], fuel - 1);
    }
  }

  lemma FailureFirst(w: World)
    requires ValidWorld(w, map[]) && IsTopologicalOrder(TwoSteps(), ["a", "b"])
    requires forall k, x :: w.attempt("a", k, x) == Failed("boom")
    ensures RunAll(TwoSteps(), map[], w, ["a", "b"]).stepStatus == map["a" := Errored, "b" := Pending]
  {
    var c, st := ContextOf(TwoSteps(), map[], w), Fresh(TwoSteps());
    TwoStepMap();
    LoneStepFails(c, "a", st, "boom");
    assert Run(c, ["a", "b"], st) == RunStep(c, "a", st);
  }

  lemma FailureLast(w: World)
    requires ValidWorld(w, map[]) && IsTopologicalOrder(TwoSteps(), ["b", "a"])
    requires forall k, x :: w.attempt("a", k, x) == Failed("boom") && w.attempt("b", k, x) == Succeeded("done")
    ensures RunAll(TwoSteps(), map[], w, ["b", "a"]).stepStatus == map["a" := Errored, "b" := Completed]
  {
    TwoStepMap();
    SuccessThenFailure(ContextOf(TwoSteps(), map[], w), "b", "a", Fresh(TwoSteps()), "done", "boom");
  }

  lemma SuccessThenFailure(c: Context, x: string, y: string, st: RunState, r: string, e: string)
    requires Runnable(c, [x, y]) && st.status == RunRunning
    requires x in c.steps && c.steps[x].id == x && c.steps[x].dependsOn == [] && c.steps[x].maxRetries == 0
    requires y in c.steps && c.steps[y].id == y && c.steps[y].dependsOn == [] && c.steps[y].maxRetries == 0
    requires c.steps[y].errorStrategy == STOP
    requires forall t :: c.world.attempt(x, 0, t) == Succeeded(r) && c.world.attempt(y, 0, t) == Failed(e)
    ensures Run(c, [x, y], st).stepStatus == st.stepStatus[x := Completed][y := Errored]
  {
    LoneStepSucceeds(c, x, st, r);
    LoneStepFails(c, y, RunStep(c, x, st), e);
    assert [x, y][1..] == [y];
  }

  lemma TwoStepMap()
    ensures StepMap(TwoSteps()) == map["a" := TwoSteps()[0], "b" := TwoSteps()[1]]
    ensures AllPending(TwoSteps()) == map["a" := Pending, "b" := Pending]
  {
  }

  lemma LoneStepFails(c: Context, id: string, st: RunState, e: string)
    requires Runnable(c, [id]) && id in c.steps && c.steps[id].id == id && c.steps[id].dependsOn == []
    requires c.steps[id].maxRetries == 0 && c.steps[id].errorStrategy == STOP
    requires forall x :: c.world.attempt(id, 0, x) == Failed(e)
    ensures RunStep(c, id, st).status == RunError
    ensures RunStep(c, id, st).stepStatus == st.stepStatus[id := Errored]
  {
  }

  lemma LoneStepSucceeds(c: Context, id: string, st: RunState, r: string)
    requires Runnable(c, [id]) && id in c.steps && c.steps[id].id == id && c.steps[id].dependsOn == []
    requires c.steps[id].maxRetries == 0
    requires forall x :: c.world.attempt(id, 0, x) == Succeeded(r)
    ensures RunStep(c, id, st).status == st.status
    ensures RunStep(c, id, st).stepStatus == st.stepStatus[id := Completed]
  {
  }
}
