/** Batched embedding, and the content-addressed cache in front of it under concurrent callers. */
module EmbeddingCache {
  import opened Collections

  datatype EmbedResult = Embedded(vectors: seq<Vector>) | EmbedError(error: string)

  type Embedder = seq<string> -> EmbedResult

  function MapTexts(f: string -> Vector, texts: seq<string>): (vs: seq<Vector>)
    ensures |vs| == |texts|
    ensures forall i :: 0 <= i < |texts| ==> vs[i] == f(texts[i])
  {
    seq(|texts|, i requires 0 <= i < |texts| => f(texts[i]))
  }

  /** Whenever the embedder succeeds, it returns `f` of each text. */
  ghost predicate Pointwise(inner: Embedder, f: string -> Vector) {
    forall texts :: inner(texts).Embedded? ==> inner(texts).vectors == MapTexts(f, texts)
  }

  // ---- Batches of ten ------------------------------------------------------------------------

  const BATCH: nat := 10

  function BatchLength(texts: seq<string>): nat {
    if |texts| < BATCH then |texts| else BATCH
  }

  function Append(vs: seq<Vector>, r: EmbedResult): EmbedResult {
    if r.Embedded? then Embedded(vs + r.vectors) else r
  }

  /** Batch after batch, giving up at the first that fails. */
  function Batched(batch: Embedder, texts: seq<string>): EmbedResult {
    if texts == [] then Embedded([])
    else
      var n := BatchLength(texts);
      var first := batch(texts[..n]);
      if first.EmbedError? then first else Append(first.vectors, Batched(batch, texts[n..]))
  }

  method EmbedInBatches(batch: Embedder, texts: seq<string>) returns (r: EmbedResult)
    ensures r == Batched(batch, texts)
  {
    if |texts| == 0 {
      return Embedded([]);
    }
    var results: seq<Vector> := [];
    var i := 0;
    assert texts[0..] == texts;
    Unprefixed(Batched(batch, texts));
    while i < |texts|
      invariant 0 <= i
      invariant i <= |texts| ==> Batched(batch, texts) == Append(results, Batched(batch, texts[i..]))
      invariant i > |texts| ==> Batched(batch, texts) == Embedded(results)
      decreases |texts| - i
    {
      var end := i + 10;
      if end > |texts| {
        end := |texts|;
      }
      var rest := texts[i..];
      assert rest[..BatchLength(rest)] == texts[i..end] && rest[BatchLength(rest)..] == texts[end..];
      var b := batch(texts[i..end]);
      if b.EmbedError? {
        return b;
      }
      AppendTwice(results, b.vectors, Batched(batch, texts[end..]));
      results := results + b.vectors;
      if end == |texts| {
        assert texts[end..] == [] && results + [] == results;
      }
      i := i + 10;
    }
    if i == |texts| {
      assert texts[i..] == [] && results + [] == results;
    }
    return Embedded(results);
  }

  lemma Unprefixed(r: EmbedResult)
    ensures Append([], r) == r
  {
  }

  lemma AppendTwice(a: seq<Vector>, b: seq<Vector>, r: EmbedResult)
    ensures Append(a, Append(b, r)) == Append(a + b, r)
  {
  }

  /** The `k`-th slice of ten. */
  function Slice(texts: seq<string>, k: nat): (slice: seq<string>)
    requires BATCH * k < |texts|
    ensures slice == texts[10 * k..if 10 * k + 10 <= |texts| then 10 * k + 10 else |texts|]
  {
    texts[BATCH * k..BATCH * k + BatchLength(texts[BATCH * k..])]
  }

  lemma SliceShift(texts: seq<string>, k: nat)
    requires BATCH < |texts| && BATCH * k < |texts| - BATCH
    ensures Slice(texts[BATCH..], k) == Slice(texts, k + 1)
  {
  }

  /** The loop succeeds if and only if every one of its batches does. */
  lemma {:induction false} BatchedSucceedsIff(batch: Embedder, texts: seq<string>)
    ensures Batched(batch, texts).Embedded? <==>
      forall k: nat :: BATCH * k < |texts| ==> batch(Slice(texts, k)).Embedded?
    decreases |texts|
  {
    if texts == [] {
    } else {
      var n := BatchLength(texts);
      assert texts[BATCH * 0..] == texts && Slice(texts, 0) == texts[..n];
      BatchedSucceedsIff(batch, texts[n..]);
      if |texts| > BATCH {
        forall k: nat | BATCH * k < |texts| - BATCH
          ensures Slice(texts[n..], k) == Slice(texts, k + 1)
        {
          SliceShift(texts, k);
        }
        if Batched(batch, texts).Embedded? {
          forall k: nat | BATCH * k < |texts| ensures batch(Slice(texts, k)).Embedded? {
            if k > 0 {
              assert Slice(texts[n..], k - 1) == Slice(texts, k);
            }
          }
        } else if batch(texts[..n]).Embedded? {
          var k: nat :| BATCH * k < |texts[n..]| && !batch(Slice(texts[n..], k)).Embedded?;
          assert !batch(Slice(texts, k + 1)).Embedded?;
        }
      } else {
        assert texts[n..] == [];
      }
    }
  }

  /** Otherwise it reports its first failing batch, as that batch reported it. */
  lemma {:induction false} FirstFailureReported(batch: Embedder, texts: seq<string>, k: nat)
    requires BATCH * k < |texts| && batch(Slice(texts, k)).EmbedError?
    requires forall j: nat :: j < k ==> batch(Slice(texts, j)).Embedded?
    ensures Batched(batch, texts) == batch(Slice(texts, k))
    decreases k
  {
    var n := BatchLength(texts);
    assert texts[BATCH * 0..] == texts && Slice(texts, 0) == texts[..n];
    if k == 0 {
    } else {
      assert BATCH < |texts| && n == BATCH;
      forall j: nat | j < k ensures Slice(texts[n..], j) == Slice(texts, j + 1) {
        SliceShift(texts, j);
      }
      FirstFailureReported(batch, texts[n..], k - 1);
    }
  }

  /** When it succeeds, it returns what one unbatched call would. */
  lemma {:induction false} BatchedIsUnbatched(batch: Embedder, f: string -> Vector, texts: seq<string>)
    requires Pointwise(batch, f)
    ensures Batched(batch, texts).Embedded? ==> Batched(batch, texts).vectors == MapTexts(f, texts)
    ensures Batched(batch, texts).Embedded? && batch(texts).Embedded? ==> Batched(batch, texts) == batch(texts)
    decreases |texts|
  {
    if texts == [] {
    } else {
      var n := BatchLength(texts);
      BatchedIsUnbatched(batch, f, texts[n..]);
      assert MapTexts(f, texts) == MapTexts(f, texts[..n]) + MapTexts(f, texts[n..]);
    }
  }

  // ---- The cache: its two critical sections --------------------------------------------------

  type Hash = string -> string

  /** A call between its two critical sections: what it found, and which positions it still needs. */
  datatype Pending = Pending(results: seq<Vector>, uncached: seq<nat>)

  const NIL: Vector := []

  predicate InRange(positions: seq<nat>, n: nat) {
    forall j :: 0 <= j < |positions| ==> positions[j] < n
  }

  function LookUp(hash: Hash, cache: map<string, Vector>, texts: seq<string>): (p: Pending)
    ensures |p.results| == |texts| && InRange(p.uncached, |texts|)
  {
    if texts == [] then Pending([], [])
    else
      var n := |texts| - 1;
      var p, key := LookUp(hash, cache, texts[..n]), hash(texts[n]);
      if key in cache then Pending(p.results + [cache[key]], p.uncached)
      else Pending(p.results + [NIL], p.uncached + [n])
  }

  /** The hits are in place, and the positions of the misses listed in ascending order. */
  ghost predicate HitsAndMisses(hash: Hash, cache: map<string, Vector>, texts: seq<string>, p: Pending) {
    && |p.results| == |texts| && InRange(p.uncached, |texts|)
    && (forall i, j :: 0 <= i < j < |p.uncached| ==> p.uncached[i] < p.uncached[j])
    && (forall i :: 0 <= i < |texts| ==> (i in p.uncached <==> hash(texts[i]) !in cache))
    && (forall i :: 0 <= i < |texts| && hash(texts[i]) in cache ==> p.results[i] == cache[hash(texts[i])])
  }

  lemma {:induction false} LookUpHitsAndMisses(hash: Hash, cache: map<string, Vector>, texts: seq<string>)
    ensures HitsAndMisses(hash, cache, texts, LookUp(hash, cache, texts))
  {
    if texts == [] {
    } else {
      var n := |texts| - 1;
      LookUpHitsAndMisses(hash, cache, texts[..n]);
      MoreHitsAndMisses(hash, cache, texts, LookUp(hash, cache, texts[..n]), LookUp(hash, cache, texts));
    }
  }

  lemma MoreHitsAndMisses(hash: Hash, cache: map<string, Vector>, texts: seq<string>, p: Pending, q: Pending)
    requires texts != [] && HitsAndMisses(hash, cache, texts[..|texts| - 1], p)
    requires var key := hash(texts[|texts| - 1]);
             q == if key in cache then Pending(p.results + [cache[key]], p.uncached)
                  else Pending(p.results + [NIL], p.uncached + [|texts| - 1])
    ensures HitsAndMisses(hash, cache, texts, q)
  {
    var n := |texts| - 1;
    assert forall i :: i in q.uncached <==> i in p.uncached || (i == n && hash(texts[n]) !in cache);
    assert forall i :: 0 <= i < n ==> texts[..n][i] == texts[i];
  }

  function Pick(texts: seq<string>, positions: seq<nat>): (picked: seq<string>)
    requires InRange(positions, |texts|)
    ensures |picked| == |positions|
    ensures forall j :: 0 <= j < |positions| ==> picked[j] == texts[positions[j]]
  {
    seq(|positions|, j requires 0 <= j < |positions| => texts[positions[j]])
  }

  datatype Filling = Filling(results: seq<Vector>, cache: map<string, Vector>)

  /** The first `k` embeddings stored in the results and in the cache. */
  function Fill(hash: Hash, texts: seq<string>, p: Pending, embeddings: seq<Vector>, cache: map<string, Vector>,
                k: nat): (s: Filling)
    requires |p.results| == |texts| && |embeddings| == |p.uncached| && k <= |p.uncached|
    requires InRange(p.uncached, |texts|)
    ensures |s.results| == |texts|
  {
    if k == 0 then Filling(p.results, cache)
    else
      var s, i := Fill(hash, texts, p, embeddings, cache, k - 1), p.uncached[k - 1];
      Filling(s.results[i := embeddings[k - 1]], s.cache[hash(texts[i]) := embeddings[k - 1]])
  }

  // ---- When the cache can be trusted ---------------------------------------------------------

  /** Texts with the same hash have the same embedding: injectivity, as far as it matters. */
  ghost predicate Compatible(f: string -> Vector, hash: Hash, used: set<string>) {
    forall t, u :: t in used && u in used && hash(t) == hash(u) ==> f(t) == f(u)
  }

  ghost predicate Faithful(f: string -> Vector, hash: Hash, used: set<string>, cache: map<string, Vector>) {
    forall t :: t in used && hash(t) in cache ==> cache[hash(t)] == f(t)
  }

  /** Every position is either answered correctly or still on the list. */
  ghost predicate Consistent(f: string -> Vector, texts: seq<string>, p: Pending) {
    && |p.results| == |texts|
    && InRange(p.uncached, |texts|)
    && (forall i :: 0 <= i < |texts| ==> i in p.uncached || p.results[i] == f(texts[i]))
  }

  lemma {:induction false} LookUpConsistent(f: string -> Vector, hash: Hash, used: set<string>,
                                            cache: map<string, Vector>, texts: seq<string>)
    requires Faithful(f, hash, used, cache) && Elements(texts) <= used
    ensures Consistent(f, texts, LookUp(hash, cache, texts))
    ensures LookUp(hash, cache, texts).uncached == [] <==> forall t :: t in texts ==> hash(t) in cache
  {
    if texts == [] {
    } else {
      var n := |texts| - 1;
      InitAndLast(texts);
      assert Elements(texts) == Elements(texts[..n]) + {texts[n]};
      LookUpConsistent(f, hash, used, cache, texts[..n]);
      var p, q := LookUp(hash, cache, texts[..n]), LookUp(hash, cache, texts);
      forall i | 0 <= i < |texts|
        ensures i in q.uncached || q.results[i] == f(texts[i])
      {
        if i < n {
          assert texts[..n][i] == texts[i];
          assert i in p.uncached || p.results[i] == f(texts[i]);
          assert i in p.uncached ==> i in q.uncached;
        } else {
          assert hash(texts[n]) !in cache ==> q.uncached[|q.uncached| - 1] == n;
        }
      }
    }
  }

  /** `k` embeddings are in place. */
  ghost predicate Filled(f: string -> Vector, hash: Hash, used: set<string>, texts: seq<string>, p: Pending,
                         start: map<string, Vector>, k: nat, s: Filling)
    requires Consistent(f, texts, p) && k <= |p.uncached| && |s.results| == |texts|
  {
    && Faithful(f, hash, used, s.cache)
    && start.Keys <= s.cache.Keys
    && (forall j :: 0 <= j < k ==> hash(texts[p.uncached[j]]) in s.cache)
    && (forall i :: 0 <= i < |texts| ==> i in p.uncached[k..] || s.results[i] == f(texts[i]))
  }

  lemma FillOne(f: string -> Vector, hash: Hash, used: set<string>, texts: seq<string>, p: Pending,
                start: map<string, Vector>, k: nat, s: Filling)
    requires Compatible(f, hash, used) && Elements(texts) <= used && Consistent(f, texts, p) && k < |p.uncached|
    requires |s.results| == |texts| && Filled(f, hash, used, texts, p, start, k, s)
    ensures var i := p.uncached[k];
            Filled(f, hash, used, texts, p, start, k + 1,
                   Filling(s.results[i := f(texts[i])], s.cache[hash(texts[i]) := f(texts[i])]))
  {
  }

  /** The first `k` of the embeddings that `f` gives. */
  function FillTrue(f: string -> Vector, hash: Hash, texts: seq<string>, p: Pending, cache: map<string, Vector>,
                    k: nat): (s: Filling)
    requires |p.results| == |texts| && InRange(p.uncached, |texts|) && k <= |p.uncached|
    ensures |s.results| == |texts|
  {
    Fill(hash, texts, p, MapTexts(f, Pick(texts, p.uncached)), cache, k)
  }

  lemma FillStep(f: string -> Vector, hash: Hash, texts: seq<string>, p: Pending, cache: map<string, Vector>, k: nat)
    requires |p.results| == |texts| && InRange(p.uncached, |texts|) && k < |p.uncached|
    ensures var s, i := FillTrue(f, hash, texts, p, cache, k), p.uncached[k];
            FillTrue(f, hash, texts, p, cache, k + 1)
            == Filling(s.results[i := f(texts[i])], s.cache[hash(texts[i]) := f(texts[i])])
  {
  }

  lemma {:induction false} FillCorrect(f: string -> Vector, hash: Hash, used: set<string>, texts: seq<string>,
                                       p: Pending, cache: map<string, Vector>, k: nat)
    requires Compatible(f, hash, used) && Faithful(f, hash, used, cache)
    requires Elements(texts) <= used && Consistent(f, texts, p) && k <= |p.uncached|
    ensures Filled(f, hash, used, texts, p, cache, k, FillTrue(f, hash, texts, p, cache, k))
  {
    if k == 0 {
      assert p.uncached[0..] == p.uncached;
    } else {
      FillCorrect(f, hash, used, texts, p, cache, k - 1);
      FillOne(f, hash, used, texts, p, cache, k - 1, FillTrue(f, hash, texts, p, cache, k - 1));
      FillStep(f, hash, texts, p, cache, k - 1);
    }
  }

  /** The fill at the end of a call, once the inner embedder has answered. */
  lemma FilledIsCorrect(f: string -> Vector, hash: Hash, used: set<string>, texts: seq<string>, p: Pending,
                        cache: map<string, Vector>)
    requires Compatible(f, hash, used) && Faithful(f, hash, used, cache)
    requires Elements(texts) <= used && Consistent(f, texts, p)
    ensures var s := Fill(hash, texts, p, MapTexts(f, Pick(texts, p.uncached)), cache, |p.uncached|);
            && s.results == MapTexts(f, texts)
            && Faithful(f, hash, used, s.cache) && cache.Keys <= s.cache.Keys
            && (forall j :: 0 <= j < |p.uncached| ==> hash(texts[p.uncached[j]]) in s.cache)
  {
    FillCorrect(f, hash, used, texts, p, cache, |p.uncached|);
    assert p.uncached[|p.uncached|..] == [];
  }

  // ---- Concurrent callers, interleaved at the critical sections ------------------------------

  datatype Phase = Waiting(pending: Pending) | Returned(vectors: seq<Vector>) | Failed

  datatype Call = Call(texts: seq<string>, phase: Phase)

  datatype System = System(cache: map<string, Vector>, calls: seq<Call>)

  /** A caller enters with its texts; a waiting caller gets the inner embedder's answer, or its error. */
  datatype Event = Enter(texts: seq<string>) | Answer(call: nat) | Refuse(call: nat)

  predicate WellFormedCall(c: Call) {
    c.phase.Waiting? ==>
      |c.phase.pending.results| == |c.texts| && InRange(c.phase.pending.uncached, |c.texts|)
  }

  /** Events that are not enabled leave the system as it is. */
  function Apply(f: string -> Vector, hash: Hash, s: System, e: Event): System {
    match e
    case Enter(texts) =>
      var p := LookUp(hash, s.cache, texts);
      var phase := if p.uncached == [] then Returned(p.results) else Waiting(p);
      s.(calls := s.calls + [Call(texts, phase)])
    case Answer(k) =>
      if k < |s.calls| && s.calls[k].phase.Waiting? && WellFormedCall(s.calls[k]) then
        var c := s.calls[k];
        var p := c.phase.pending;
        var filled := Fill(hash, c.texts, p, MapTexts(f, Pick(c.texts, p.uncached)), s.cache, |p.uncached|);
        System(filled.cache, s.calls[k := c.(phase := Returned(filled.results))])
      else s
    case Refuse(k) =>
      if k < |s.calls| && s.calls[k].phase.Waiting? then
        s.(calls := s.calls[k := s.calls[k].(phase := Failed)])
      else s
  }

  function Run(f: string -> Vector, hash: Hash, events: seq<Event>): System {
    if events == [] then System(map[], [])
    else
      var n := |events| - 1;
      Apply(f, hash, Run(f, hash, events[..n]), events[n])
  }

  ghost predicate Uses(events: seq<Event>, used: set<string>) {
    forall i :: 0 <= i < |events| && events[i].Enter? ==> Elements(events[i].texts) <= used
  }

  ghost predicate CallCorrect(f: string -> Vector, used: set<string>, c: Call) {
    && Elements(c.texts) <= used
    && match c.phase
       case Waiting(p) => Consistent(f, c.texts, p)
       case Returned(vs) => vs == MapTexts(f, c.texts)
       case Failed => true
  }

  ghost predicate SystemCorrect(f: string -> Vector, hash: Hash, used: set<string>, s: System) {
    && Faithful(f, hash, used, s.cache)
    && forall k :: 0 <= k < |s.calls| ==> CallCorrect(f, used, s.calls[k])
  }

  lemma ApplyCorrect(f: string -> Vector, hash: Hash, used: set<string>, s: System, e: Event)
    requires Compatible(f, hash, used) && SystemCorrect(f, hash, used, s)
    requires e.Enter? ==> Elements(e.texts) <= used
    ensures SystemCorrect(f, hash, used, Apply(f, hash, s, e))
    ensures s.cache.Keys <= Apply(f, hash, s, e).cache.Keys
  {
    match e
    case Enter(texts) => EnterCorrect(f, hash, used, s, texts);
    case Answer(k) => AnswerCorrect(f, hash, used, s, k);
    case Refuse(k) =>
  }

  lemma EnterCorrect(f: string -> Vector, hash: Hash, used: set<string>, s: System, texts: seq<string>)
    requires SystemCorrect(f, hash, used, s) && Elements(texts) <= used
    ensures SystemCorrect(f, hash, used, Apply(f, hash, s, Enter(texts)))
  {
    LookUpConsistent(f, hash, used, s.cache, texts);
    var p, after := LookUp(hash, s.cache, texts), Apply(f, hash, s, Enter(texts));
    if p.uncached == [] {
      NothingMissing(f, texts, p);
    }
    forall k | 0 <= k < |after.calls| ensures CallCorrect(f, used, after.calls[k]) {
      assert k < |s.calls| ==> after.calls[k] == s.calls[k];
    }
  }

  lemma AnswerCorrect(f: string -> Vector, hash: Hash, used: set<string>, s: System, k: nat)
    requires Compatible(f, hash, used) && SystemCorrect(f, hash, used, s)
    ensures SystemCorrect(f, hash, used, Apply(f, hash, s, Answer(k)))
    ensures s.cache.Keys <= Apply(f, hash, s, Answer(k)).cache.Keys
  {
    if k < |s.calls| && s.calls[k].phase.Waiting? {
      var c := s.calls[k];
      assert CallCorrect(f, used, c);
      FilledIsCorrect(f, hash, used, c.texts, c.phase.pending, s.cache);
      var after := Apply(f, hash, s, Answer(k));
      forall j | 0 <= j < |after.calls| ensures CallCorrect(f, used, after.calls[j]) {
        assert j != k ==> after.calls[j] == s.calls[j];
      }
    }
  }

  lemma NothingMissing(f: string -> Vector, texts: seq<string>, p: Pending)
    requires Consistent(f, texts, p) && p.uncached == []
    ensures p.results == MapTexts(f, texts)
  {
  }

  lemma {:induction false} RunCorrect(f: string -> Vector, hash: Hash, used: set<string>, events: seq<Event>)
    requires Compatible(f, hash, used) && Uses(events, used)
    ensures SystemCorrect(f, hash, used, Run(f, hash, events))
  {
    if events == [] {
    } else {
      var n := |events| - 1;
      assert Uses(events[..n], used);
      RunCorrect(f, hash, used, events[..n]);
      ApplyCorrect(f, hash, used, Run(f, hash, events[..n]), events[n]);
    }
  }

  /** Every call that returned, in this state, returned `f` of its texts in order. */
  ghost predicate AnswersRight(f: string -> Vector, s: System) {
    forall k :: 0 <= k < |s.calls| && s.calls[k].phase.Returned? ==>
      s.calls[k].phase.vectors == MapTexts(f, s.calls[k].texts)
  }

  /** The cache refines the plain embedder under every interleaving exactly when colliding texts embed alike. */
  lemma CacheRefinesIff(f: string -> Vector, hash: Hash, used: set<string>)
    ensures (forall events :: Uses(events, used) ==> AnswersRight(f, Run(f, hash, events))) <==>
      Compatible(f, hash, used)
  {
    if Compatible(f, hash, used) {
      forall events | Uses(events, used)
        ensures AnswersRight(f, Run(f, hash, events))
      {
        RunCorrect(f, hash, used, events);
        var s := Run(f, hash, events);
        forall k | 0 <= k < |s.calls| && s.calls[k].phase.Returned?
          ensures s.calls[k].phase.vectors == MapTexts(f, s.calls[k].texts)
        {
          assert CallCorrect(f, used, s.calls[k]);
        }
      }
    } else {
      var t, u :| t in used && u in used && hash(t) == hash(u) && f(t) != f(u);
      CollisionAnswersWrong(f, hash, used, t, u);
    }
  }

  lemma RunAppend(f: string -> Vector, hash: Hash, events: seq<Event>, e: Event)
    ensures Run(f, hash, events + [e]) == Apply(f, hash, Run(f, hash, events), e)
  {
    assert (events + [e])[..|events|] == events;
  }

  lemma LookUpOne(hash: Hash, cache: map<string, Vector>, t: string)
    ensures LookUp(hash, cache, [t]) ==
      if hash(t) in cache then Pending([cache[hash(t)]], []) else Pending([NIL], [0])
  {
    assert [t][..0] == [];
    assert [] + [NIL] == [NIL] && [] + [0] == [0];
    assert hash(t) in cache ==> [] + [cache[hash(t)]] == [cache[hash(t)]];
  }

  /** The first caller's text misses, is answered, and is in the cache under its hash. */
  lemma FirstCaller(f: string -> Vector, hash: Hash, t: string)
    ensures var s := Apply(f, hash, Apply(f, hash, System(map[], []), Enter([t])), Answer(0));
            |s.calls| == 1 && hash(t) in s.cache && s.cache[hash(t)] == f(t)
  {
    LookUpOne(hash, map[], t);
    assert [] + [Call([t], Waiting(Pending([NIL], [0])))] == [Call([t], Waiting(Pending([NIL], [0])))];
  }

  /** Whoever enters with one cached text is handed what the cache holds. */
  lemma SecondCaller(f: string -> Vector, hash: Hash, s: System, u: string)
    requires hash(u) in s.cache
    ensures var after := Apply(f, hash, s, Enter([u]));
            |after.calls| == |s.calls| + 1 && after.calls[|s.calls|] == Call([u], Returned([s.cache[hash(u)]]))
  {
    LookUpOne(hash, s.cache, u);
  }

  /** A collision that matters: the second caller is handed the first one's vector. */
  lemma CollisionAnswersWrong(f: string -> Vector, hash: Hash, used: set<string>, t: string, u: string)
    requires t in used && u in used && hash(t) == hash(u) && f(t) != f(u)
    ensures exists events :: Uses(events, used) && !AnswersRight(f, Run(f, hash, events))
  {
    var events := [] + [Enter([t])] + [Answer(0)] + [Enter([u])];
    RunAppend(f, hash, [], Enter([t]));
    RunAppend(f, hash, [] + [Enter([t])], Answer(0));
    RunAppend(f, hash, [] + [Enter([t])] + [Answer(0)], Enter([u]));
    FirstCaller(f, hash, t);
    var s := Run(f, hash, [] + [Enter([t])] + [Answer(0)]);
    SecondCaller(f, hash, s, u);
    assert Run(f, hash, events).calls[1].phase.vectors[0] == f(t);
    assert MapTexts(f, [u])[0] == f(u);
    assert !AnswersRight(f, Run(f, hash, events));
    assert Elements([t]) == {t} && Elements([u]) == {u};
    assert Uses(events, used);
  }

  lemma CacheGrows(f: string -> Vector, hash: Hash, used: set<string>, events: seq<Event>, e: Event)
    requires Compatible(f, hash, used) && Uses(events + [e], used)
    ensures Uses(events, used)
    ensures Run(f, hash, events).cache.Keys <= Run(f, hash, events + [e]).cache.Keys
  {
    var all := events + [e];
    assert forall i :: 0 <= i < |events| ==> events[i] == all[i];
    assert all[..|all| - 1] == events && all[|all| - 1] == e;
    RunCorrect(f, hash, used, events);
    ApplyCorrect(f, hash, used, Run(f, hash, events), e);
  }

  /** Once a text has been answered, no later caller asks the inner embedder for it. */
  lemma {:induction false} AnsweredStaysCached(f: string -> Vector, hash: Hash, used: set<string>, events: seq<Event>,
                                               more: seq<Event>, t: string)
    requires Compatible(f, hash, used) && Uses(events + more, used)
    requires hash(t) in Run(f, hash, events).cache
    ensures hash(t) in Run(f, hash, events + more).cache
    decreases |more|
  {
    if more == [] {
      assert events + more == events;
    } else {
      var n := |more| - 1;
      LastOfConcat(events, more);
      CacheGrows(f, hash, used, events + more[..n], more[n]);
      AnsweredStaysCached(f, hash, used, events, more[..n], t);
    }
  }

  // A call that returned has its texts in the cache; one that waits has them there or on its list

  ghost predicate CachedOrListed(hash: Hash, cache: map<string, Vector>, c: Call) {
    match c.phase
    case Waiting(p) => forall i :: 0 <= i < |c.texts| ==> i in p.uncached || hash(c.texts[i]) in cache
    case Returned(_) => forall t :: t in c.texts ==> hash(t) in cache
    case Failed => true
  }

  ghost predicate AllCachedOrListed(hash: Hash, s: System) {
    forall k :: 0 <= k < |s.calls| ==> CachedOrListed(hash, s.cache, s.calls[k])
  }

  lemma EnterListed(f: string -> Vector, hash: Hash, s: System, texts: seq<string>)
    requires AllCachedOrListed(hash, s)
    ensures AllCachedOrListed(hash, Apply(f, hash, s, Enter(texts)))
  {
    LookUpHitsAndMisses(hash, s.cache, texts);
  }

  lemma AnswerListed(f: string -> Vector, hash: Hash, used: set<string>, s: System, k: nat)
    requires Compatible(f, hash, used) && SystemCorrect(f, hash, used, s) && AllCachedOrListed(hash, s)
    ensures AllCachedOrListed(hash, Apply(f, hash, s, Answer(k)))
  {
    if k < |s.calls| && s.calls[k].phase.Waiting? {
      var c, after := s.calls[k], Apply(f, hash, s, Answer(k));
      assert CallCorrect(f, used, c) && CachedOrListed(hash, s.cache, c);
      FilledIsCorrect(f, hash, used, c.texts, c.phase.pending, s.cache);
      forall j | 0 <= j < |after.calls| ensures CachedOrListed(hash, after.cache, after.calls[j]) {
        assert j != k ==> after.calls[j] == s.calls[j] && CachedOrListed(hash, s.cache, s.calls[j]);
      }
    }
  }

  lemma {:induction false} EveryCallListed(f: string -> Vector, hash: Hash, used: set<string>, events: seq<Event>)
    requires Compatible(f, hash, used) && Uses(events, used)
    ensures AllCachedOrListed(hash, Run(f, hash, events))
  {
    if events == [] {
    } else {
      var n := |events| - 1;
      var before := Run(f, hash, events[..n]);
      assert Uses(events[..n], used);
      EveryCallListed(f, hash, used, events[..n]);
      RunCorrect(f, hash, used, events[..n]);
      match events[n]
      case Enter(texts) => EnterListed(f, hash, before, texts);
      case Answer(k) => AnswerListed(f, hash, used, before, k);
      case Refuse(_) =>
    }
  }

  /** In every interleaving, every text of a call that returned is cached, and stays so. */
  lemma ReturnedIsCached(f: string -> Vector, hash: Hash, used: set<string>, events: seq<Event>, more: seq<Event>,
                         k: nat, t: string)
    requires Compatible(f, hash, used) && Uses(events + more, used)
    requires k < |Run(f, hash, events).calls| && Run(f, hash, events).calls[k].phase.Returned?
    requires t in Run(f, hash, events).calls[k].texts
    ensures hash(t) in Run(f, hash, events + more).cache
  {
    assert forall i :: 0 <= i < |events| ==> events[i] == (events + more)[i];
    EveryCallListed(f, hash, used, events);
    assert CachedOrListed(hash, Run(f, hash, events).cache, Run(f, hash, events).calls[k]);
    AnsweredStaysCached(f, hash, used, events, more, t);
  }

  /** A caller all of whose texts are cached returns at once, without the inner embedder. */
  lemma CachedTextsNeedNoCall(f: string -> Vector, hash: Hash, used: set<string>, events: seq<Event>,
                              texts: seq<string>)
    requires Compatible(f, hash, used) && Uses(events, used) && Elements(texts) <= used
    requires forall t :: t in texts ==> hash(t) in Run(f, hash, events).cache
    ensures var s := Apply(f, hash, Run(f, hash, events), Enter(texts));
            s.calls[|s.calls| - 1] == Call(texts, Returned(MapTexts(f, texts)))
  {
    var s := Run(f, hash, events);
    RunCorrect(f, hash, used, events);
    LookUpConsistent(f, hash, used, s.cache, texts);
    NothingMissing(f, texts, LookUp(hash, s.cache, texts));
  }

  // ---- The object ----------------------------------------------------------------------------

  class CachedEmbedder {
    const hash: Hash
    var cache: map<string, Vector>

    constructor (hash: Hash)
      ensures this.hash == hash && cache == map[]
    {
      this.hash := hash;
      cache := map[];
    }

    /** The read-locked section of a call. */
    method ReadCache(texts: seq<string>) returns (p: Pending)
      ensures p == LookUp(hash, cache, texts) && HitsAndMisses(hash, cache, texts, p)
    {
      var results: seq<Vector>, uncached: seq<nat> := [], [];
      for i := 0 to |texts|
        invariant Pending(results, uncached) == LookUp(hash, cache, texts[..i])
      {
        assert texts[..i + 1][..i] == texts[..i];
        var key := hash(texts[i]);
        if key in cache {
          results := results + [cache[key]];
        } else {
          results := results + [NIL];
          uncached := uncached + [i];
        }
      }
      assert texts[..|texts|] == texts;
      p := Pending(results, uncached);
      LookUpHitsAndMisses(hash, cache, texts);
    }

    /** The write-locked section of a call. */
    method WriteCache(texts: seq<string>, p: Pending, embeddings: seq<Vector>) returns (results: seq<Vector>)
      requires |p.results| == |texts| && |embeddings| == |p.uncached|
      requires InRange(p.uncached, |texts|)
      modifies this
      ensures Filling(results, cache) == Fill(hash, texts, p, embeddings, old(cache), |p.uncached|)
    {
      results := p.results;
      for j := 0 to |p.uncached|
        invariant Filling(results, cache) == Fill(hash, texts, p, embeddings, old(cache), j)
      {
        var idx := p.uncached[j];
        results := results[idx := embeddings[j]];
        cache := cache[hash(texts[idx]) := embeddings[j]];
      }
    }

    /** What other callers may do between the two sections; callers of this method see no more than its contract. */
    method OthersRun(ghost f: string -> Vector, ghost used: set<string>)
      requires Faithful(f, hash, used, cache)
      modifies this
      ensures Faithful(f, hash, used, cache) && old(cache.Keys) <= cache.Keys
    {
    }

    method Embed(inner: Embedder, texts: seq<string>, ghost f: string -> Vector, ghost used: set<string>)
      returns (r: EmbedResult)
      requires Pointwise(inner, f) && Compatible(f, hash, used)
      requires Faithful(f, hash, used, cache) && Elements(texts) <= used
      modifies this
      ensures Faithful(f, hash, used, cache) && old(cache.Keys) <= cache.Keys
      ensures r.Embedded? ==> r.vectors == MapTexts(f, texts) && forall t :: t in texts ==> hash(t) in cache
      ensures (forall t :: t in texts ==> hash(t) in old(cache)) ==> r.Embedded?
      ensures r.EmbedError? ==> inner(Pick(texts, LookUp(hash, old(cache), texts).uncached)) == r
    {
      if |texts| == 0 {
        return Embedded([]);
      }
      LookUpConsistent(f, hash, used, cache, texts);
      var p := ReadCache(texts);
      OthersRun(f, used);
      if |p.uncached| > 0 {
        var answer := inner(Pick(texts, p.uncached));
        if answer.EmbedError? {
          return answer;
        }
        FilledIsCorrect(f, hash, used, texts, p, cache);
        var results := WriteCache(texts, p, answer.vectors);
        return Embedded(results);
      }
      NothingMissing(f, texts, p);
      return Embedded(p.results);
    }
  }
}
