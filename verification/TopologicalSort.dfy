/**
 Kahn's algorithm as the pipeline engine runs it: over maps whose iteration order is arbitrary,
 with repeated entries in DependsOn counted once each time they occur.
 */
module TopologicalSort {
  import opened Collections

  datatype Step = Step(
    id: string,
    agentID: string,
    inputTemplate: string,
    outputKey: string,
    dependsOn: seq<string>,
    maxRetries: int,
    errorStrategy: string)

  function Ids(steps: seq<Step>): (ids: seq<string>)
    ensures |ids| == |steps|
    ensures forall i :: 0 <= i < |steps| ==> ids[i] == steps[i].id
  {
    seq(|steps|, i requires 0 <= i < |steps| => steps[i].id)
  }

  /** Some step named `id` lists `dep` among its dependencies. */
  ghost predicate DependsOn(steps: seq<Step>, id: string, dep: string) {
    exists i :: 0 <= i < |steps| && steps[i].id == id && dep in steps[i].dependsOn
  }

  // ---- What a caller is promised -------------------------------------------------------------

  /** `order` lists every step once and every dependency ahead of its dependents. */
  ghost predicate IsTopologicalOrder(steps: seq<Step>, order: seq<string>) {
    && Distinct(order)
    && multiset(order) == multiset(Ids(steps))
    && DependenciesFirst(steps, order)
  }

  ghost predicate DependenciesFirst(steps: seq<Step>, order: seq<string>) {
    forall i, dep :: 0 <= i < |order| && DependsOn(steps, order[i], dep) ==> dep in order[..i]
  }

  /** A closed walk along dependencies: each member depends on the next one, the last on the first. */
  ghost predicate IsCycle(steps: seq<Step>, c: seq<string>) {
    && c != []
    && (forall i :: 0 <= i < |c| - 1 ==> DependsOn(steps, c[i], c[i + 1]))
    && DependsOn(steps, c[|c| - 1], c[0])
  }

  ghost predicate DependenciesKnown(steps: seq<Step>) {
    forall id, dep :: DependsOn(steps, id, dep) ==> dep in Ids(steps)
  }

  /** The pipelines the engine accepts. */
  ghost predicate WellFormed(steps: seq<Step>) {
    && Distinct(Ids(steps))
    && DependenciesKnown(steps)
    && !exists c :: IsCycle(steps, c)
  }

  // ---- The edge list the two maps encode -----------------------------------------------------

  datatype Edge = Edge(from: string, to: string)

  function EdgesOf(step: Step): (es: seq<Edge>)
    ensures |es| == |step.dependsOn|
    ensures forall i :: 0 <= i < |es| ==> es[i] == Edge(step.dependsOn[i], step.id)
  {
    seq(|step.dependsOn|, i requires 0 <= i < |step.dependsOn| => Edge(step.dependsOn[i], step.id))
  }

  function Edges(steps: seq<Step>): seq<Edge> {
    if steps == [] then [] else Edges(steps[..|steps| - 1]) + EdgesOf(steps[|steps| - 1])
  }

  /** How many edges into `v` still start outside `done`. */
  function Pending(es: seq<Edge>, v: string, done: set<string>): nat {
    if es == [] then 0
    else
      var e := es[|es| - 1];
      Pending(es[..|es| - 1], v, done) + if e.to == v && e.from !in done then 1 else 0
  }

  /** The targets of the edges that start at `u`, in order. */
  function Targets(es: seq<Edge>, u: string): seq<string> {
    if es == [] then []
    else
      var e := es[|es| - 1];
      Targets(es[..|es| - 1], u) + if e.from == u then [e.to] else []
  }

  function Occurrences(s: seq<string>, v: string): nat {
    if s == [] then 0 else Occurrences(s[1..], v) + if s[0] == v then 1 else 0
  }

  lemma {:induction false} OccurrencesAppend(s: seq<string>, x: string, v: string)
    ensures Occurrences(s + [x], v) == Occurrences(s, v) + if x == v then 1 else 0
  {
    if s == [] {
      assert [x][1..] == [];
    } else {
      assert (s + [x])[1..] == s[1..] + [x];
      OccurrencesAppend(s[1..], x, v);
    }
  }

  lemma {:induction false} EdgeIsDependency(steps: seq<Step>, e: Edge)
    ensures e in Edges(steps) <==> DependsOn(steps, e.to, e.from)
  {
    if steps == [] {
    } else {
      var init, last := steps[..|steps| - 1], steps[|steps| - 1];
      EdgeIsDependency(init, e);
      if e in EdgesOf(last) {
        assert steps[|steps| - 1].id == e.to && e.from in steps[|steps| - 1].dependsOn;
      }
      if last.id == e.to && e.from in last.dependsOn {
        var i :| 0 <= i < |last.dependsOn| && last.dependsOn[i] == e.from;
        assert EdgesOf(last)[i] == e;
      }
      if DependsOn(init, e.to, e.from) {
        var i :| 0 <= i < |init| && init[i].id == e.to && e.from in init[i].dependsOn;
        assert steps[i] == init[i];
      }
      if DependsOn(steps, e.to, e.from) {
        var i :| 0 <= i < |steps| && steps[i].id == e.to && e.from in steps[i].dependsOn;
        if i < |init| {
          assert init[i] == steps[i];
        }
      }
    }
  }

  /** Nothing is pending at `v` exactly when all of its dependencies are done. */
  lemma {:induction false} PendingZero(es: seq<Edge>, v: string, done: set<string>)
    ensures Pending(es, v, done) == 0 <==> forall e :: e in es && e.to == v ==> e.from in done
  {
    if es == [] {
    } else {
      var init, last := es[..|es| - 1], es[|es| - 1];
      assert es == init + [last];
      PendingZero(init, v, done);
    }
  }

  /** Finishing `u` discharges one pending edge at `v` for each edge from `u` to `v`. */
  lemma {:induction false} PendingDrops(es: seq<Edge>, v: string, done: set<string>, u: string)
    requires u !in done
    ensures Pending(es, v, done) == Pending(es, v, done + {u}) + Occurrences(Targets(es, u), v)
  {
    if es == [] {
    } else {
      var init, last := es[..|es| - 1], es[|es| - 1];
      PendingDrops(init, v, done, u);
      if last.from == u {
        OccurrencesAppend(Targets(init, u), last.to, v);
      } else {
        assert Targets(es, u) == Targets(init, u);
      }
    }
  }

  lemma {:induction false} TargetsAreEdges(es: seq<Edge>, u: string, v: string)
    ensures v in Targets(es, u) <==> Edge(u, v) in es
  {
    if es == [] {
    } else {
      assert es == es[..|es| - 1] + [es[|es| - 1]];
      TargetsAreEdges(es[..|es| - 1], u, v);
    }
  }

  // ---- The order as a function of the seeding ------------------------------------------------

  ghost predicate IsRoot(steps: seq<Step>, v: string) {
    v in Ids(steps) && forall d :: !DependsOn(steps, v, d)
  }

  /** `seeds` is one order in which a map iteration may come across the steps without dependencies. */
  ghost predicate IsSeeding(steps: seq<Step>, seeds: seq<string>) {
    Distinct(seeds) && forall v :: v in seeds <==> IsRoot(steps, v)
  }

  /** The nodes that become free while the edges `owed` of the node just done are taken off, in that order. */
  function Released(es: seq<Edge>, done: set<string>, owed: seq<string>): seq<string> {
    if owed == [] then []
    else
      var v := owed[0];
      (if Pending(es, v, done) == 0 && v !in owed[1..] then [v] else []) + Released(es, done, owed[1..])
  }

  /** First in, first out: the nodes emitted from a given queue on, `fuel` of them at most. */
  function KahnFrom(es: seq<Edge>, queue: seq<string>, order: seq<string>, fuel: nat): seq<string>
    decreases fuel
  {
    if queue == [] || fuel == 0 then order
    else
      var order' := order + [queue[0]];
      KahnFrom(es, queue[1..] + Released(es, Elements(order'), Targets(es, queue[0])), order', fuel - 1)
  }

  function KahnOrder(steps: seq<Step>, seeds: seq<string>): seq<string> {
    KahnFrom(Edges(steps), seeds, [], |steps|)
  }

  lemma {:induction false} OccurrencesZero(s: seq<string>, v: string)
    ensures Occurrences(s, v) == 0 <==> v !in s
  {
    if s == [] {
    } else {
      assert s == [s[0]] + s[1..];
      OccurrencesZero(s[1..], v);
    }
  }

  lemma RootsHaveNoEdges(steps: seq<Step>, v: string)
    ensures IsRoot(steps, v) <==> v in Ids(steps) && Pending(Edges(steps), v, {}) == 0
  {
    PendingZero(Edges(steps), v, {});
    forall d ensures DependsOn(steps, v, d) <==> Edge(d, v) in Edges(steps) {
      EdgeIsDependency(steps, Edge(d, v));
    }
    forall e | e in Edges(steps) && e.to == v ensures DependsOn(steps, v, e.from) {
      EdgeIsDependency(steps, e);
    }
  }

  // ---- The algorithm -------------------------------------------------------------------------

  /** A Go map read: an absent key yields the empty list. */
  function Lookup(deps: map<string, seq<string>>, u: string): seq<string> {
    if u in deps then deps[u] else []
  }

  /** The two maps agree with the edge list `es` over the step names `ids`. */
  ghost predicate Encodes(es: seq<Edge>, ids: set<string>, inDegree: map<string, int>, deps: map<string, seq<string>>) {
    && inDegree.Keys == ids
    && (forall v :: v in ids ==> inDegree[v] == Pending(es, v, {}))
    && (forall u :: Lookup(deps, u) == Targets(es, u))
    && (forall e :: e in es ==> e.to in ids)
  }

  /** One entry `e.from` in the DependsOn list of `e.to`. */
  method AddEdge(e: Edge, inDegree0: map<string, int>, deps0: map<string, seq<string>>, ghost es: seq<Edge>,
                 ghost ids: set<string>)
    returns (inDegree: map<string, int>, deps: map<string, seq<string>>)
    requires Encodes(es, ids, inDegree0, deps0) && e.to in ids
    ensures Encodes(es + [e], ids, inDegree, deps)
  {
    deps := deps0[e.from := Lookup(deps0, e.from) + [e.to]];
    inDegree := inDegree0[e.to := inDegree0[e.to] + 1];
    AppendedEdge(es, e);
  }

  lemma AppendedEdge(es: seq<Edge>, e: Edge)
    ensures forall v, done :: Pending(es + [e], v, done) == Pending(es, v, done) + if e.to == v && e.from !in done
      then 1 else 0
    ensures forall u :: Targets(es + [e], u) == Targets(es, u) + if e.from == u then [e.to] else []
    ensures forall x :: x in es + [e] <==> x in es || x == e
  {
  }

  lemma EncodesName(es: seq<Edge>, ids: set<string>, inDegree: map<string, int>, deps: map<string, seq<string>>,
                    id: string)
    requires Encodes(es, ids, inDegree, deps)
    ensures Encodes(es, ids + {id}, if id in inDegree then inDegree else inDegree[id := 0], deps)
  {
    PendingZero(es, id, {});
  }

  /** The body of the loop that fills `inDegree` and `deps`: one step's entries in DependsOn. */
  method AddStep(s: Step, inDegree0: map<string, int>, deps0: map<string, seq<string>>, ghost es: seq<Edge>,
                 ghost ids: set<string>)
    returns (inDegree: map<string, int>, deps: map<string, seq<string>>)
    requires Encodes(es, ids, inDegree0, deps0)
    ensures Encodes(es + EdgesOf(s), ids + {s.id}, inDegree, deps)
  {
    inDegree, deps := inDegree0, deps0;
    EncodesName(es, ids, inDegree, deps, s.id);
    if s.id !in inDegree {
      inDegree := inDegree[s.id := 0];
    }
    ghost var added := EdgesOf(s);
    assert es + added[..0] == es;
    for j := 0 to |s.dependsOn|
      invariant Encodes(es + added[..j], ids + {s.id}, inDegree, deps)
    {
      PrefixStep(es, added, j);
      inDegree, deps := AddEdge(Edge(s.dependsOn[j], s.id), inDegree, deps, es + added[..j], ids + {s.id});
    }
    assert added[..|s.dependsOn|] == added;
  }

  /** The loop that fills `inDegree` and `deps`. */
  method BuildGraph(steps: seq<Step>) returns (inDegree: map<string, int>, deps: map<string, seq<string>>)
    ensures Encodes(Edges(steps), Elements(Ids(steps)), inDegree, deps)
  {
    inDegree, deps := map[], map[];
    for k := 0 to |steps|
      invariant Encodes(Edges(steps[..k]), Elements(Ids(steps[..k])), inDegree, deps)
    {
      PrefixGrows(steps, k);
      inDegree, deps := AddStep(steps[k], inDegree, deps, Edges(steps[..k]), Elements(Ids(steps[..k])));
    }
    assert steps[..|steps|] == steps;
  }

  lemma PrefixGrows(steps: seq<Step>, k: nat)
    requires k < |steps|
    ensures Edges(steps[..k + 1]) == Edges(steps[..k]) + EdgesOf(steps[k])
    ensures Elements(Ids(steps[..k + 1])) == Elements(Ids(steps[..k])) + {steps[k].id}
  {
    assert steps[..k + 1][..k] == steps[..k];
    assert Ids(steps[..k + 1]) == Ids(steps[..k]) + [steps[k].id];
  }

  /** What holds of Kahn's work list; `owed` are the edges of the current node not yet discharged. */
  ghost predicate KahnInvariant(es: seq<Edge>, ids: set<string>, order: seq<string>, queue: seq<string>,
                                inDegree: map<string, int>, owed: seq<string>) {
    && inDegree.Keys == ids
    && Distinct(order + queue)
    && (forall v :: v in ids ==> inDegree[v] == Pending(es, v, Elements(order)) + Occurrences(owed, v))
    && (forall v :: v in order + queue <==> v in ids && inDegree[v] == 0)
    && (forall i, e :: 0 <= i < |order| && e in es && e.to == order[i] ==> e.from in order[..i])
  }

  /** Seeding: the keys come in whatever order the map yields them. */
  method SeedQueue(inDegree: map<string, int>) returns (queue: seq<string>)
    ensures Distinct(queue)
    ensures forall v :: v in queue <==> v in inDegree && inDegree[v] == 0
  {
    queue := [];
    var todo := inDegree.Keys;
    while todo != {}
      invariant todo <= inDegree.Keys
      invariant Distinct(queue)
      invariant forall v :: v in queue <==> v in inDegree.Keys - todo && inDegree[v] == 0
      decreases todo
    {
      var id :| id in todo;
      todo := todo - {id};
      if inDegree[id] == 0 {
        queue := queue + [id];
      }
    }
  }

  /** The loop over the neighbours of the node just emitted. */
  method Discharge(neighbours: seq<string>, queue0: seq<string>, inDegree0: map<string, int>,
                   ghost es: seq<Edge>, ghost ids: set<string>, ghost order: seq<string>)
    returns (queue: seq<string>, inDegree: map<string, int>)
    requires Elements(neighbours) <= ids
    requires KahnInvariant(es, ids, order, queue0, inDegree0, neighbours)
    ensures KahnInvariant(es, ids, order, queue, inDegree, [])
    ensures queue == queue0 + Released(es, Elements(order), neighbours)
  {
    queue, inDegree := queue0, inDegree0;
    assert neighbours[0..] == neighbours;
    for j := 0 to |neighbours|
      invariant KahnInvariant(es, ids, order, queue, inDegree, neighbours[j..])
      invariant queue + Released(es, Elements(order), neighbours[j..])
        == queue0 + Released(es, Elements(order), neighbours)
    {
      var neighbour := neighbours[j];
      OwedNext(es, ids, order, queue, inDegree, neighbours, j);
      inDegree := inDegree[neighbour := inDegree[neighbour] - 1];
      if inDegree[neighbour] == 0 {
        queue := queue + [neighbour];
      }
    }
    assert neighbours[|neighbours|..] == [] && queue + [] == queue;
  }

  lemma DischargeOne(es: seq<Edge>, ids: set<string>, order: seq<string>, queue: seq<string>,
                     inDegree: map<string, int>, owed: seq<string>)
    requires owed != [] && owed[0] in ids
    requires KahnInvariant(es, ids, order, queue, inDegree, owed)
    ensures var v, d := owed[0], inDegree[owed[0]] - 1;
            KahnInvariant(es, ids, order, if d == 0 then queue + [v] else queue, inDegree[v := d], owed[1..])
  {
    var v := owed[0];
    assert inDegree[v] > 0;
    assert v !in order + queue;
    assert order + (queue + [v]) == order + queue + [v];
  }

  /** One turn of the loop over the neighbours. */
  lemma OwedNext(es: seq<Edge>, ids: set<string>, order: seq<string>, queue: seq<string>, inDegree: map<string, int>,
                 neighbours: seq<string>, j: nat)
    requires j < |neighbours| && Elements(neighbours) <= ids
    requires KahnInvariant(es, ids, order, queue, inDegree, neighbours[j..])
    ensures neighbours[j] in inDegree
    ensures var v, d := neighbours[j], inDegree[neighbours[j]] - 1;
            var queue' := if d == 0 then queue + [v] else queue;
            && KahnInvariant(es, ids, order, queue', inDegree[v := d], neighbours[j + 1..])
            && queue' + Released(es, Elements(order), neighbours[j + 1..])
               == queue + Released(es, Elements(order), neighbours[j..])
  {
    assert neighbours[j] in Elements(neighbours);
    assert neighbours[j..][1..] == neighbours[j + 1..];
    DischargeOne(es, ids, order, queue, inDegree, neighbours[j..]);
    ReleasedOne(es, ids, order, queue, inDegree, neighbours[j..]);
  }

  /** The decision in Discharge is the one in Released. */
  lemma ReleasedOne(es: seq<Edge>, ids: set<string>, order: seq<string>, queue: seq<string>,
                    inDegree: map<string, int>, owed: seq<string>)
    requires owed != [] && owed[0] in ids
    requires KahnInvariant(es, ids, order, queue, inDegree, owed)
    ensures var v, done := owed[0], Elements(order);
            (if inDegree[v] - 1 == 0 then queue + [v] else queue) + Released(es, done, owed[1..])
            == queue + Released(es, done, owed)
  {
    var v := owed[0];
    OccurrencesZero(owed[1..], v);
    assert queue + ([v] + Released(es, Elements(order), owed[1..]))
      == queue + [v] + Released(es, Elements(order), owed[1..]);
    assert [] + Released(es, Elements(order), owed[1..]) == Released(es, Elements(order), owed[1..]);
  }

  /** What the sort returns from a given seeding. */
  ghost predicate SortsFrom(steps: seq<Step>, seeds: seq<string>, r: Option<seq<string>>) {
    && IsSeeding(steps, seeds)
    && r == if |KahnOrder(steps, seeds)| == |steps| then Some(KahnOrder(steps, seeds)) else None
  }

  /** The deps map lists, for every name, the targets of the edges that start there. */
  ghost predicate Lists(deps: map<string, seq<string>>, es: seq<Edge>) {
    forall u :: Lookup(deps, u) == Targets(es, u)
  }

  /** One turn of the main loop: the first in the queue is emitted and its edges are taken off. */
  method EmitFirst(ghost steps: seq<Step>, order0: seq<string>, queue0: seq<string>, inDegree0: map<string, int>,
                   deps: map<string, seq<string>>)
    returns (order: seq<string>, queue: seq<string>, inDegree: map<string, int>)
    requires Lists(deps, Edges(steps)) && queue0 != []
    requires KahnInvariant(Edges(steps), Elements(Ids(steps)), order0, queue0, inDegree0, [])
    ensures KahnInvariant(Edges(steps), Elements(Ids(steps)), order, queue, inDegree, [])
    ensures order == order0 + [queue0[0]] && |order| <= |steps|
    ensures KahnFrom(Edges(steps), queue, order, |steps| - |order|)
         == KahnFrom(Edges(steps), queue0, order0, |steps| - |order| + 1)
  {
    ghost var es, ids := Edges(steps), Elements(Ids(steps));
    var node := queue0[0];
    var neighbours := Lookup(deps, node);
    EdgesLeadToSteps(steps);
    FuelLasts(steps, order0, queue0, inDegree0);
    NodeLeavesQueue(es, ids, order0, queue0, inDegree0, neighbours);
    KahnUnfolds(es, queue0, order0, |steps| - |order0|);
    order := order0 + [node];
    queue, inDegree := Discharge(neighbours, queue0[1..], inDegree0, es, ids, order);
  }

  lemma KahnUnfolds(es: seq<Edge>, queue: seq<string>, order: seq<string>, fuel: nat)
    requires queue != [] && fuel > 0
    ensures var order' := order + [queue[0]];
            KahnFrom(es, queue, order, fuel)
            == KahnFrom(es, queue[1..] + Released(es, Elements(order'), Targets(es, queue[0])), order', fuel - 1)
  {
  }

  /** The main loop: first in, first out. */
  method EmitAll(ghost steps: seq<Step>, seeds: seq<string>, inDegree0: map<string, int>,
                 deps: map<string, seq<string>>)
    returns (order: seq<string>, ghost inDegree: map<string, int>)
    requires Lists(deps, Edges(steps))
    requires KahnInvariant(Edges(steps), Elements(Ids(steps)), [], seeds, inDegree0, [])
    ensures KahnInvariant(Edges(steps), Elements(Ids(steps)), order, [], inDegree, [])
    ensures order == KahnOrder(steps, seeds)
  {
    ghost var es, ids, size := Edges(steps), Elements(Ids(steps)), |steps|;
    var queue, degrees := seeds, inDegree0;
    order := [];
    while queue != []
      invariant KahnInvariant(es, ids, order, queue, degrees, [])
      invariant |order| <= size && KahnOrder(steps, seeds) == KahnFrom(es, queue, order, size - |order|)
      decreases size - |order|
    {
      order, queue, degrees := EmitFirst(steps, order, queue, degrees, deps);
    }
    inDegree := degrees;
  }

  method TopologicalSort(steps: seq<Step>) returns (r: Option<seq<string>>)
    ensures r.Some? <==> WellFormed(steps)
    ensures r.Some? ==> IsTopologicalOrder(steps, r.value)
    ensures exists seeds :: SortsFrom(steps, seeds, r)
  {
    var inDegree, deps := BuildGraph(steps);
    var queue := SeedQueue(inDegree);
    SeedsAreRoots(steps, inDegree, deps, queue);
    KahnStarts(Edges(steps), Elements(Ids(steps)), queue, inDegree, deps);
    var order, left := EmitAll(steps, queue, inDegree, deps);
    KahnEnds(steps, order, left);
    if |order| != |steps| {
      RejectedIsIllFormed(steps, order);
      assert SortsFrom(steps, queue, None);
      return None;
    }
    AcceptedIsWellFormed(steps, order);
    assert SortsFrom(steps, queue, Some(order));
    return Some(order);
  }

  lemma SeedsAreRoots(steps: seq<Step>, inDegree: map<string, int>, deps: map<string, seq<string>>, seeds: seq<string>)
    requires Encodes(Edges(steps), Elements(Ids(steps)), inDegree, deps) && Distinct(seeds)
    requires forall v :: v in seeds <==> v in inDegree && inDegree[v] == 0
    ensures IsSeeding(steps, seeds)
  {
    forall v ensures v in seeds <==> IsRoot(steps, v) {
      RootsHaveNoEdges(steps, v);
    }
  }

  /** A queue that is not empty holds a step that has not been emitted. */
  lemma FuelLasts(steps: seq<Step>, order: seq<string>, queue: seq<string>, inDegree: map<string, int>)
    requires KahnInvariant(Edges(steps), Elements(Ids(steps)), order, queue, inDegree, [])
    ensures |order| + |queue| <= |steps|
  {
    var all := order + queue;
    CardinalityOfElements(all);
    assert Elements(all) <= Elements(Ids(steps));
    SubsetCardinality(Elements(all), Elements(Ids(steps)));
    CardinalityOfElements(Ids(steps));
  }

  lemma KahnStarts(es: seq<Edge>, ids: set<string>, queue: seq<string>, inDegree: map<string, int>,
                   deps: map<string, seq<string>>)
    requires Encodes(es, ids, inDegree, deps) && Distinct(queue)
    requires forall v :: v in queue <==> v in inDegree && inDegree[v] == 0
    ensures KahnInvariant(es, ids, [], queue, inDegree, [])
  {
    assert [] + queue == queue;
    assert Elements<string>([]) == {};
  }

  lemma KahnEnds(steps: seq<Step>, order: seq<string>, inDegree: map<string, int>)
    requires KahnInvariant(Edges(steps), Elements(Ids(steps)), order, [], inDegree, [])
    ensures Distinct(order) && Elements(order) <= Elements(Ids(steps)) && DependenciesFirst(steps, order)
    ensures DependenciesKnown(steps) ==> AllWait(steps, Elements(Ids(steps)) - Elements(order))
  {
    assert order + [] == order;
    EmittedInOrder(steps, order, inDegree);
    if DependenciesKnown(steps) {
      LeftoversWait(steps, order, inDegree, Elements(Ids(steps)) - Elements(order));
    }
  }

  lemma NodeLeavesQueue(es: seq<Edge>, ids: set<string>, order: seq<string>, queue: seq<string>,
                        inDegree: map<string, int>, neighbours: seq<string>)
    requires queue != [] && KahnInvariant(es, ids, order, queue, inDegree, [])
    requires neighbours == Targets(es, queue[0])
    requires forall e :: e in es ==> e.to in ids
    ensures queue[0] in ids && queue[0] !in order && Elements(neighbours) <= ids
    ensures Elements(order + [queue[0]]) == Elements(order) + {queue[0]}
    ensures KahnInvariant(es, ids, order + [queue[0]], queue[1..], inDegree, neighbours)
  {
    var node := queue[0];
    var order' := order + [node];
    assert order' + queue[1..] == order + queue;
    assert (order + queue)[|order|] == node;
    assert node !in order by {
      assert forall i :: 0 <= i < |order| ==> (order + queue)[i] == order[i];
    }
    forall v | v in neighbours ensures v in ids {
      TargetsAreEdges(es, node, v);
    }
    assert Elements(order') == Elements(order) + {node};
    forall v | v in ids
      ensures inDegree[v] == Pending(es, v, Elements(order')) + Occurrences(neighbours, v)
    {
      PendingDrops(es, v, Elements(order), node);
    }
    assert node in order + queue;
    PendingZero(es, node, Elements(order));
    forall i, e | 0 <= i < |order'| && e in es && e.to == order'[i]
      ensures e.from in order'[..i]
    {
      if i < |order| {
        assert order'[..i] == order[..i];
      } else {
        assert order'[..i] == order;
      }
    }
  }

  lemma AcceptedIsWellFormed(steps: seq<Step>, order: seq<string>)
    requires Distinct(order) && Elements(order) <= Elements(Ids(steps)) && DependenciesFirst(steps, order)
    requires |order| == |steps|
    ensures WellFormed(steps) && IsTopologicalOrder(steps, order)
  {
    var ids := Ids(steps);
    CardinalityOfElements(order);
    CardinalityOfElements(ids);
    SubsetCardinality(Elements(order), Elements(ids));
    SameElementsPermute(order, ids);
    forall id, dep | DependsOn(steps, id, dep)
      ensures dep in ids
    {
      DependencyEmitted(steps, order, id, dep);
    }
    forall c
      ensures !IsCycle(steps, c)
    {
      OrderedHasNoCycle(steps, order, c);
    }
  }

  lemma EmittedInOrder(steps: seq<Step>, order: seq<string>, inDegree: map<string, int>)
    requires KahnInvariant(Edges(steps), Elements(Ids(steps)), order, [], inDegree, [])
    ensures DependenciesFirst(steps, order)
  {
    forall i, dep | 0 <= i < |order| && DependsOn(steps, order[i], dep)
      ensures dep in order[..i]
    {
      EdgeIsDependency(steps, Edge(dep, order[i]));
    }
  }

  lemma DependencyEmitted(steps: seq<Step>, order: seq<string>, id: string, dep: string)
    requires DependenciesFirst(steps, order) && Elements(order) == Elements(Ids(steps))
    requires DependsOn(steps, id, dep)
    ensures id in order && dep in order && dep in Ids(steps)
  {
    var k :| 0 <= k < |steps| && steps[k].id == id && dep in steps[k].dependsOn;
    assert id == Ids(steps)[k];
    assert id in Elements(order);
    var i :| 0 <= i < |order| && order[i] == id;
    assert dep in order[..i];
    assert dep in Elements(order);
  }

  /** Walking along a cycle would move ever closer to the front of a dependency-first order. */
  lemma OrderedHasNoCycle(steps: seq<Step>, order: seq<string>, c: seq<string>)
    requires Distinct(order) && DependenciesFirst(steps, order)
    requires Elements(order) == Elements(Ids(steps))
    ensures !IsCycle(steps, c)
  {
    if IsCycle(steps, c) {
      var last := |c| - 1;
      DependencyEmitted(steps, order, c[last], c[0]);
      var end :| 0 <= end < |order| && order[end] == c[last];
      var at :| 0 <= at < end && order[at] == c[0];
      for i := 0 to last
        invariant 0 <= at < end && order[at] == c[i]
      {
        assert DependsOn(steps, c[i], c[i + 1]);
        assert c[i + 1] in order[..at];
        at :| 0 <= at < end && order[at] == c[i + 1];
      }
      assert false;
    }
  }

  /** Everything Kahn's loop leaves behind waits for something else it left behind. */
  ghost predicate Waits(steps: seq<Step>, stuck: set<string>, v: string) {
    exists u :: u in stuck && DependsOn(steps, v, u)
  }

  ghost predicate AllWait(steps: seq<Step>, stuck: set<string>) {
    forall v {:trigger Waits(steps, stuck, v)} :: v in stuck ==> Waits(steps, stuck, v)
  }

  lemma LeftoversWait(steps: seq<Step>, order: seq<string>, inDegree: map<string, int>, stuck: set<string>)
    requires KahnInvariant(Edges(steps), Elements(Ids(steps)), order, [], inDegree, [])
    requires DependenciesKnown(steps)
    requires stuck == Elements(Ids(steps)) - Elements(order)
    ensures AllWait(steps, stuck)
  {
    assert order + [] == order;
    forall v | v in stuck
      ensures Waits(steps, stuck, v)
    {
      PendingZero(Edges(steps), v, Elements(order));
      var e :| e in Edges(steps) && e.to == v && e.from !in Elements(order);
      EdgeIsDependency(steps, e);
      assert e.from in Ids(steps);
      assert e.from in stuck;
    }
  }

  lemma RejectedIsIllFormed(steps: seq<Step>, order: seq<string>)
    requires Distinct(order) && Elements(order) <= Elements(Ids(steps)) && |order| != |steps|
    requires DependenciesKnown(steps) ==> AllWait(steps, Elements(Ids(steps)) - Elements(order))
    ensures !WellFormed(steps)
  {
    var ids := Ids(steps);
    if Distinct(ids) && DependenciesKnown(steps) {
      CardinalityOfElements(ids);
      CardinalityOfElements(order);
      var stuck := Elements(ids) - Elements(order);
      SubsetCardinality(Elements(order), Elements(ids));
      assert stuck != {} by {
        if stuck == {} {
          forall v | v in Elements(ids) ensures v in Elements(order) {
            assert v !in stuck;
          }
          SubsetCardinality(Elements(ids), Elements(order));
          assert false;
        }
      }
      var v :| v in stuck;
      var c := StuckWalkCloses(steps, stuck, [v]);
    }
  }

  /** Among finitely many steps that all wait for one another, following dependencies must come back. */
  lemma StuckWalkCloses(steps: seq<Step>, stuck: set<string>, walk: seq<string>) returns (c: seq<string>)
    requires AllWait(steps, stuck)
    requires walk != [] && Elements(walk) <= stuck
    requires forall i :: 0 <= i < |walk| - 1 ==> DependsOn(steps, walk[i], walk[i + 1])
    ensures IsCycle(steps, c)
    decreases stuck - Elements(walk)
  {
    var v := walk[|walk| - 1];
    assert v in Elements(walk);
    assert Waits(steps, stuck, v);
    var u :| u in stuck && DependsOn(steps, v, u);
    if u in walk {
      var k :| 0 <= k < |walk| && walk[k] == u;
      c := walk[k..];
      forall i | 0 <= i < |c| - 1
        ensures DependsOn(steps, c[i], c[i + 1])
      {
        assert DependsOn(steps, walk[k + i], walk[k + i + 1]);
      }
    } else {
      assert Elements(walk + [u]) == Elements(walk) + {u};
      c := StuckWalkCloses(steps, stuck, walk + [u]);
    }
  }

  // ---- Every seeding -------------------------------------------------------------------------

  /** The neighbour loop, on values. */
  lemma {:induction false} DischargeAll(es: seq<Edge>, ids: set<string>, order: seq<string>, queue: seq<string>,
                                        inDegree: map<string, int>, owed: seq<string>) returns (left: map<string, int>)
    requires Elements(owed) <= ids && KahnInvariant(es, ids, order, queue, inDegree, owed)
    ensures KahnInvariant(es, ids, order, queue + Released(es, Elements(order), owed), left, [])
    decreases |owed|
  {
    if owed == [] {
      left := inDegree;
      assert queue + [] == queue;
    } else {
      var v, d := owed[0], inDegree[owed[0]] - 1;
      assert v in Elements(owed) && Elements(owed[1..]) <= Elements(owed);
      DischargeOne(es, ids, order, queue, inDegree, owed);
      ReleasedOne(es, ids, order, queue, inDegree, owed);
      left := DischargeAll(es, ids, order, if d == 0 then queue + [v] else queue, inDegree[v := d], owed[1..]);
    }
  }

  lemma EmitOne(steps: seq<Step>, order: seq<string>, queue: seq<string>, inDegree: map<string, int>)
    returns (left: map<string, int>)
    requires queue != [] && KahnInvariant(Edges(steps), Elements(Ids(steps)), order, queue, inDegree, [])
    ensures var es, order' := Edges(steps), order + [queue[0]];
            KahnInvariant(es, Elements(Ids(steps)), order',
                          queue[1..] + Released(es, Elements(order'), Targets(es, queue[0])), left, [])
  {
    var es, ids, node := Edges(steps), Elements(Ids(steps)), queue[0];
    EdgesLeadToSteps(steps);
    NodeLeavesQueue(es, ids, order, queue, inDegree, Targets(es, node));
    left := DischargeAll(es, ids, order + [node], queue[1..], inDegree, Targets(es, node));
  }

  /** The main loop, on values. */
  lemma {:induction false} KahnRuns(steps: seq<Step>, order: seq<string>, queue: seq<string>,
                                    inDegree: map<string, int>, fuel: nat) returns (left: map<string, int>)
    requires KahnInvariant(Edges(steps), Elements(Ids(steps)), order, queue, inDegree, [])
    requires |order| + fuel == |steps|
    ensures KahnInvariant(Edges(steps), Elements(Ids(steps)), KahnFrom(Edges(steps), queue, order, fuel), [], left, [])
    decreases fuel
  {
    FuelLasts(steps, order, queue, inDegree);
    if queue == [] {
      left := inDegree;
    } else {
      var es, order' := Edges(steps), order + [queue[0]];
      var next := EmitOne(steps, order, queue, inDegree);
      left := KahnRuns(steps, order', queue[1..] + Released(es, Elements(order'), Targets(es, queue[0])), next,
        fuel - 1);
    }
  }

  lemma EdgesLeadToSteps(steps: seq<Step>)
    ensures forall e :: e in Edges(steps) ==> e.to in Elements(Ids(steps))
  {
  }

  /** From every seeding the sort emits all steps of a well-formed pipeline, in a topological order, and of no other. */
  lemma EverySeedingSorts(steps: seq<Step>, seeds: seq<string>)
    requires IsSeeding(steps, seeds)
    ensures |KahnOrder(steps, seeds)| == |steps| <==> WellFormed(steps)
    ensures WellFormed(steps) ==> IsTopologicalOrder(steps, KahnOrder(steps, seeds))
  {
    var es, ids, order := Edges(steps), Elements(Ids(steps)), KahnOrder(steps, seeds);
    var start := map v | v in ids :: Pending(es, v, {}) as int;
    forall v ensures v in seeds <==> v in ids && start[v] == 0 {
      RootsHaveNoEdges(steps, v);
    }
    assert [] + seeds == seeds && Elements<string>([]) == {};
    var left := KahnRuns(steps, [], seeds, start, |steps|);
    KahnEnds(steps, order, left);
    if |order| == |steps| {
      AcceptedIsWellFormed(steps, order);
    } else {
      RejectedIsIllFormed(steps, order);
    }
  }
}
