/** The in-memory vector store: upsert, delete and clear over named collections, and ranked search. */
module VectorStore {
  import opened Collections
  import opened Cosine

  datatype Entry = Entry(id: string, vector: Vector, metadata: string)

  datatype Hit = Hit(id: string, score: real, metadata: string)

  // ---- Collections as maps from IDs ----------------------------------------------------------

  function EntryIds(entries: seq<Entry>): (ids: seq<string>)
    ensures |ids| == |entries|
    ensures forall i :: 0 <= i < |entries| ==> ids[i] == entries[i].id
  {
    seq(|entries|, i requires 0 <= i < |entries| => entries[i].id)
  }

  ghost predicate DistinctIds(entries: seq<Entry>) {
    Distinct(EntryIds(entries))
  }

  /** A collection as what it stores: for each ID the entry last inserted under it. */
  function Index(entries: seq<Entry>): map<string, Entry> {
    if entries == [] then map[]
    else Index(entries[..|entries| - 1])[entries[|entries| - 1].id := entries[|entries| - 1]]
  }

  /** `m` stores the given entries and nothing else. */
  ghost predicate Stores(entries: seq<Entry>, m: map<string, Entry>) {
    && m.Keys == Elements(EntryIds(entries))
    && forall i :: 0 <= i < |entries| ==> entries[i].id in m && m[entries[i].id] == entries[i]
  }

  lemma StoresOneMore(entries: seq<Entry>, m: map<string, Entry>)
    requires entries != [] && DistinctIds(entries) && Stores(entries[..|entries| - 1], m)
    ensures Stores(entries, m[entries[|entries| - 1].id := entries[|entries| - 1]])
  {
    var n := |entries| - 1;
    var ids := EntryIds(entries);
    assert EntryIds(entries[..n]) == ids[..n];
    InitAndLast(ids);
    assert Elements(ids) == Elements(ids[..n]) + {ids[n]};
    forall i | 0 <= i < n
      ensures entries[i].id in m && m[entries[i].id] == entries[i] && entries[i].id != entries[n].id
    {
      assert entries[..n][i] == entries[i] && ids[i] != ids[n];
    }
  }

  lemma {:induction false} IndexStores(entries: seq<Entry>)
    requires DistinctIds(entries)
    ensures Stores(entries, Index(entries))
  {
    if entries == [] {
    } else {
      var n := |entries| - 1;
      assert EntryIds(entries[..n]) == EntryIds(entries)[..n];
      IndexStores(entries[..n]);
      StoresOneMore(entries, Index(entries[..n]));
    }
  }

  lemma StoredMapIsIndex(entries: seq<Entry>, m: map<string, Entry>)
    requires DistinctIds(entries) && Stores(entries, m)
    ensures Index(entries) == m
  {
    IndexStores(entries);
    var ids := EntryIds(entries);
    forall id | id in m ensures m[id] == Index(entries)[id] {
      assert id in Elements(ids);
      var i :| 0 <= i < |ids| && ids[i] == id;
      assert entries[i].id == id;
    }
  }

  lemma ReplacedIndex(entries: seq<Entry>, i: nat, e: Entry)
    requires DistinctIds(entries) && i < |entries| && entries[i].id == e.id
    ensures DistinctIds(entries[i := e])
    ensures Index(entries[i := e]) == Index(entries)[e.id := e]
  {
    IndexStores(entries);
    assert EntryIds(entries[i := e]) == EntryIds(entries);
    assert forall j :: 0 <= j < |entries| ==> EntryIds(entries)[j] == entries[j].id;
    StoredMapIsIndex(entries[i := e], Index(entries)[e.id := e]);
  }

  lemma IdsSplit(entries: seq<Entry>, i: nat)
    requires i < |entries|
    ensures EntryIds(entries[..i] + entries[i + 1..]) == EntryIds(entries)[..i] + EntryIds(entries)[i + 1..]
  {
  }

  lemma AppendedIndex(entries: seq<Entry>, e: Entry)
    requires DistinctIds(entries) && e.id !in EntryIds(entries)
    ensures DistinctIds(entries + [e])
    ensures Index(entries + [e]) == Index(entries)[e.id := e]
  {
  }

  lemma RemovedIndex(entries: seq<Entry>, i: nat)
    requires DistinctIds(entries) && i < |entries|
    ensures DistinctIds(entries[..i] + entries[i + 1..])
    ensures Index(entries[..i] + entries[i + 1..]) == Index(entries) - {entries[i].id}
  {
    IndexStores(entries);
    IdsSplit(entries, i);
    DistinctWithout(EntryIds(entries), i);
    var after, m := entries[..i] + entries[i + 1..], Index(entries) - {entries[i].id};
    assert m.Keys == Elements(EntryIds(after));
    forall j | 0 <= j < |after|
      ensures after[j].id in m && m[after[j].id] == after[j]
    {
      assert after[j] == entries[if j < i then j else j + 1];
      assert EntryIds(after)[j] in Elements(EntryIds(after));
    }
    StoredMapIsIndex(after, m);
  }

  // ---- Ranking -------------------------------------------------------------------------------

  ghost predicate Descending(hits: seq<Hit>) {
    forall i, j :: 0 <= i < j < |hits| ==> hits[i].score >= hits[j].score
  }

  /** `top` is the front of some ranking of `hits`, cut to `k`: ties may fall either way. */
  ghost predicate IsTop(hits: seq<Hit>, k: nat, top: seq<Hit>) {
    && |top| == (if |hits| < k then |hits| else k)
    && exists rest :: Ranking(hits, top + rest)
  }

  ghost predicate Ranking(hits: seq<Hit>, ranked: seq<Hit>) {
    multiset(ranked) == multiset(hits) && Descending(ranked)
  }

  /** sort.Slice by its contract: some descending permutation, not necessarily a stable one. */
  method SortByScore(hits: seq<Hit>) returns (ranked: seq<Hit>)
    ensures Ranking(hits, ranked)
  {
    ranked := [];
    for i := 0 to |hits|
      invariant Ranking(hits[..i], ranked)
    {
      PrefixStep([], hits, i);
      ranked := InsertByScore(ranked, hits[i]);
    }
    assert hits[..|hits|] == hits;
  }

  method InsertByScore(ranked0: seq<Hit>, x: Hit) returns (ranked: seq<Hit>)
    requires Descending(ranked0)
    ensures Descending(ranked) && multiset(ranked) == multiset(ranked0) + multiset{x}
  {
    var k := |ranked0|;
    while k > 0 && ranked0[k - 1].score < x.score
      invariant 0 <= k <= |ranked0|
      invariant forall j :: k <= j < |ranked0| ==> ranked0[j].score <= x.score
    {
      k := k - 1;
    }
    ranked := ranked0[..k] + [x] + ranked0[k..];
    InsertionRanks(ranked0, k, x);
    InsertionPermutes(ranked0, k, x);
  }

  function Insertion(ranked: seq<Hit>, k: nat, x: Hit): seq<Hit>
    requires k <= |ranked|
  {
    ranked[..k] + [x] + ranked[k..]
  }

  lemma InsertionRanks(ranked: seq<Hit>, k: nat, x: Hit)
    requires Descending(ranked) && k <= |ranked|
    requires k > 0 ==> ranked[k - 1].score >= x.score
    requires forall j :: k <= j < |ranked| ==> ranked[j].score <= x.score
    ensures Descending(Insertion(ranked, k, x))
  {
  }

  lemma InsertionPermutes(ranked: seq<Hit>, k: nat, x: Hit)
    requires k <= |ranked|
    ensures multiset(Insertion(ranked, k, x)) == multiset(ranked) + multiset{x}
  {
    SplitMultiset(ranked, k);
  }

  lemma SplitMultiset(s: seq<Hit>, k: nat)
    requires k <= |s|
    ensures multiset(s) == multiset(s[..k]) + multiset(s[k..])
  {
    assert s == s[..k] + s[k..];
  }

  function Score(e: Entry, query: Vector, sqrt: real -> real): Hit
    requires IsSqrt(sqrt)
  {
    Hit(e.id, Similarity(query, e.vector, sqrt), e.metadata)
  }

  function Scores(entries: seq<Entry>, query: Vector, sqrt: real -> real): (hits: seq<Hit>)
    requires IsSqrt(sqrt)
    ensures |hits| == |entries|
    ensures forall i :: 0 <= i < |entries| ==> hits[i] == Score(entries[i], query, sqrt)
  {
    seq(|entries|, i requires 0 <= i < |entries| => Score(entries[i], query, sqrt))
  }

  function AtLeast(hits: seq<Hit>, minScore: real): seq<Hit> {
    if hits == [] then []
    else
      var last := hits[|hits| - 1];
      AtLeast(hits[..|hits| - 1], minScore) + if last.score >= minScore then [last] else []
  }

  /** Nothing left out ranks above anything returned. */
  lemma OmittedRankLower(hits: seq<Hit>, k: nat, top: seq<Hit>)
    requires IsTop(hits, k, top)
    ensures exists omitted ::
      && multiset(hits) == multiset(top) + omitted
      && forall x, i :: x in omitted && 0 <= i < |top| ==> x.score <= top[i].score
  {
    var rest :| Ranking(hits, top + rest);
    var omitted := multiset(rest);
    assert multiset(hits) == multiset(top) + omitted;
    forall x, i | x in omitted && 0 <= i < |top|
      ensures x.score <= top[i].score
    {
      var j :| 0 <= j < |rest| && rest[j] == x;
      assert (top + rest)[i] == top[i] && (top + rest)[|top| + j] == x;
    }
  }

  /** No entry is returned twice. */
  lemma TopHasDistinctIds(entries: seq<Entry>, query: Vector, sqrt: real -> real, minScore: real, k: nat, top: seq<Hit>)
    requires IsSqrt(sqrt) && DistinctIds(entries)
    requires IsTop(AtLeast(Scores(entries, query, sqrt), minScore), k, top)
    ensures forall i, j :: 0 <= i < j < |top| ==> top[i].id != top[j].id
  {
    var hits := Scores(entries, query, sqrt);
    var rest :| Ranking(AtLeast(hits, minScore), top + rest);
    HitsDetermined(entries, query, sqrt);
    SurvivorsDistinct(hits, minScore, top + rest);
    forall i, j | 0 <= i < j < |top|
      ensures top[i].id != top[j].id
    {
      assert (top + rest)[i] == top[i] && (top + rest)[j] == top[j];
    }
  }

  ghost predicate IdDetermines(hits: seq<Hit>) {
    forall x, y :: x in hits && y in hits && x.id == y.id ==> x == y
  }

  /** Over distinct IDs, a hit is determined by its ID. */
  lemma HitsDetermined(entries: seq<Entry>, query: Vector, sqrt: real -> real)
    requires IsSqrt(sqrt) && DistinctIds(entries)
    ensures Distinct(Scores(entries, query, sqrt)) && IdDetermines(Scores(entries, query, sqrt))
  {
  }

  lemma SurvivorsDistinct(hits: seq<Hit>, minScore: real, ranked: seq<Hit>)
    requires Distinct(hits) && IdDetermines(hits) && multiset(ranked) == multiset(AtLeast(hits, minScore))
    ensures forall i, j :: 0 <= i < j < |ranked| ==> ranked[i].id != ranked[j].id
  {
    forall x ensures multiset(ranked)[x] <= multiset(hits)[x] {
      AtLeastMultiplicity(hits, minScore, x);
    }
    DistinctFromMultiset(ranked, hits);
    forall i, j | 0 <= i < j < |ranked|
      ensures ranked[i].id != ranked[j].id
    {
      assert ranked[i] in hits && ranked[j] in hits;
    }
  }

  lemma DistinctFromMultiset(s: seq<Hit>, t: seq<Hit>)
    requires Distinct(t) && forall x :: multiset(s)[x] <= multiset(t)[x]
    ensures Distinct(s)
    ensures forall x :: x in s ==> x in t
  {
    forall i, j | 0 <= i < j < |s|
      ensures s[i] != s[j]
    {
      MultiplicityOfDistinct(t, s[i]);
      if s[i] == s[j] {
        TwiceMeansTwo(s, i, j);
      }
    }
    forall x | x in s ensures x in t {
      assert multiset(s)[x] > 0;
    }
  }

  lemma TwiceMeansTwo(s: seq<Hit>, i: nat, j: nat)
    requires i < j < |s| && s[i] == s[j]
    ensures multiset(s)[s[i]] >= 2
  {
    assert s == s[..j] + ([s[j]] + s[j + 1..]);
    assert s[..j][i] == s[i];
  }

  // ---- Filtering -----------------------------------------------------------------------------

  lemma {:induction false} AtLeastMultiplicity(hits: seq<Hit>, minScore: real, x: Hit)
    ensures multiset(AtLeast(hits, minScore))[x] == if x.score >= minScore then multiset(hits)[x] else 0
  {
    if hits == [] {
    } else {
      InitAndLast(hits);
      AtLeastMultiplicity(hits[..|hits| - 1], minScore, x);
    }
  }

  lemma {:induction false} AtLeastConcat(a: seq<Hit>, b: seq<Hit>, minScore: real)
    ensures AtLeast(a + b, minScore) == AtLeast(a, minScore) + AtLeast(b, minScore)
  {
    if b == [] {
      assert a + b == a;
    } else {
      var s := a + b;
      assert s[..|s| - 1] == a + b[..|b| - 1] && s[|s| - 1] == b[|b| - 1];
      AtLeastConcat(a, b[..|b| - 1], minScore);
    }
  }

  lemma {:induction false} AtLeastShape(hits: seq<Hit>, minScore: real)
    ensures |AtLeast(hits, minScore)| <= |hits|
    ensures |AtLeast(hits, minScore)| < |hits| ==> exists i :: 0 <= i < |hits| && hits[i].score < minScore
    ensures (forall i :: 0 <= i < |hits| ==> hits[i].score < minScore) ==> AtLeast(hits, minScore) == []
  {
    if hits == [] {
    } else {
      var init := hits[..|hits| - 1];
      AtLeastShape(init, minScore);
      if |AtLeast(init, minScore)| < |init| {
        var i :| 0 <= i < |init| && init[i].score < minScore;
        assert hits[i].score < minScore;
      }
    }
  }

  lemma {:induction false} AtLeastMember(hits: seq<Hit>, minScore: real, x: Hit)
    requires x in AtLeast(hits, minScore)
    ensures x in hits
  {
    var n := |hits| - 1;
    if x in AtLeast(hits[..n], minScore) {
      AtLeastMember(hits[..n], minScore, x);
    }
  }

  lemma {:induction false} AtLeastDescends(hits: seq<Hit>, minScore: real)
    requires Descending(hits)
    ensures Descending(AtLeast(hits, minScore))
  {
    if hits == [] {
    } else {
      var init, last := hits[..|hits| - 1], hits[|hits| - 1];
      AtLeastDescends(init, minScore);
      forall x | x in AtLeast(init, minScore) ensures x.score >= last.score {
        AtLeastMember(init, minScore, x);
        var i :| 0 <= i < |init| && init[i] == x;
        assert hits[i] == x;
      }
    }
  }

  /** Filtering after the cut equals cutting after the filter. */
  lemma FilterAfterCut(hits: seq<Hit>, k: nat, top: seq<Hit>, minScore: real)
    requires IsTop(hits, k, top)
    ensures IsTop(AtLeast(hits, minScore), k, AtLeast(top, minScore))
  {
    var rest :| Ranking(hits, top + rest);
    var front, back := AtLeast(top, minScore), AtLeast(rest, minScore);
    AtLeastConcat(top, rest, minScore);
    AtLeastDescends(top + rest, minScore);
    FilteredRanking(hits, top + rest, minScore);
    SameSize(top + rest, hits);
    SameSize(front + back, AtLeast(hits, minScore));
    AtLeastShape(top, minScore);
    AtLeastShape(rest, minScore);
    if |front| < |top| {
      NothingBehind(top, rest, minScore);
    }
    assert Ranking(AtLeast(hits, minScore), front + back);
  }

  lemma FilteredRanking(hits: seq<Hit>, ranked: seq<Hit>, minScore: real)
    requires multiset(ranked) == multiset(hits)
    ensures multiset(AtLeast(ranked, minScore)) == multiset(AtLeast(hits, minScore))
  {
    forall x ensures multiset(AtLeast(ranked, minScore))[x] == multiset(AtLeast(hits, minScore))[x] {
      AtLeastMultiplicity(ranked, minScore, x);
      AtLeastMultiplicity(hits, minScore, x);
    }
  }

  /** Once one hit of the front falls short, everything behind the cut does. */
  lemma NothingBehind(top: seq<Hit>, rest: seq<Hit>, minScore: real)
    requires Descending(top + rest) && |AtLeast(top, minScore)| < |top|
    ensures AtLeast(rest, minScore) == []
  {
    AtLeastShape(top, minScore);
    var i :| 0 <= i < |top| && top[i].score < minScore;
    forall j | 0 <= j < |rest| ensures rest[j].score < minScore {
      assert (top + rest)[i] == top[i] && (top + rest)[|top| + j] == rest[j];
    }
    AtLeastShape(rest, minScore);
  }

  lemma SameSize(a: seq<Hit>, b: seq<Hit>)
    requires multiset(a) == multiset(b)
    ensures |a| == |b|
  {
    assert |multiset(a)| == |a| && |multiset(b)| == |b|;
  }

  // ---- What a search returns, in terms of the vectors ----------------------------------------

  /** The hit of an entry: its score times the two lengths is the dot product, 0 where the cosine is undefined. */
  ghost predicate Measures(hit: Hit, e: Entry, query: Vector, sqrt: real -> real) {
    && hit.id == e.id && hit.metadata == e.metadata
    && if |query| == |e.vector| && Dot(query, query) > 0.0 && Dot(e.vector, e.vector) > 0.0 then
         hit.score * (sqrt(Dot(query, query)) * sqrt(Dot(e.vector, e.vector))) == Dot(query, e.vector)
       else hit.score == 0.0
  }

  /** The entry is a positive multiple of a query that is not zero. */
  ghost predicate Parallel(query: Vector, e: Entry) {
    |query| == |e.vector| && Dot(query, query) > 0.0 && exists t :: t > 0.0 && IsMultiple(query, e.vector, t)
  }

  /** The hit of some entry, scoring enough. */
  ghost predicate Eligible(entries: seq<Entry>, query: Vector, minScore: Option<real>, sqrt: real -> real, hit: Hit) {
    && (exists e :: e in entries && Measures(hit, e, query, sqrt))
    && (minScore.Some? ==> hit.score >= minScore.value)
  }

  /** At most `k` eligible hits, best first; one that is not among them was cut, behind `k` that are no worse. */
  ghost predicate Answers(entries: seq<Entry>, query: Vector, k: nat, minScore: Option<real>, sqrt: real -> real,
                          hits: seq<Hit>)
  {
    && |hits| <= k
    && (forall i, j :: 0 <= i < j < |hits| ==> hits[i].score >= hits[j].score)
    && (forall hit :: hit in hits ==> Eligible(entries, query, minScore, sqrt, hit))
    && (forall hit :: Eligible(entries, query, minScore, sqrt, hit) && hit !in hits ==> CutBehind(hits, k, hit))
  }

  ghost predicate CutBehind(hits: seq<Hit>, k: nat, hit: Hit) {
    |hits| == k && forall i :: 0 <= i < |hits| ==> hits[i].score >= hit.score
  }

  /** There is one hit for each entry. */
  lemma MeasuresIsScore(hit: Hit, e: Entry, query: Vector, sqrt: real -> real)
    requires IsSqrt(sqrt)
    ensures Measures(hit, e, query, sqrt) <==> hit == Score(e, query, sqrt)
  {
    NormNonNegative(query);
    NormNonNegative(e.vector);
    if |query| == |e.vector| && Dot(query, query) > 0.0 && Dot(e.vector, e.vector) > 0.0 {
      ScoreTimesLengths(query, e.vector, sqrt);
      SameQuotient(hit.score, Similarity(query, e.vector, sqrt),
                   sqrt(Dot(query, query)) * sqrt(Dot(e.vector, e.vector)));
    }
  }

  lemma SameQuotient(x: real, y: real, l: real)
    requires l > 0.0
    ensures x * l == y * l <==> x == y
  {
    if x * l == y * l {
      assert (x - y) * l == x * l - y * l;
      ZeroFactor(x - y, l);
    }
  }

  lemma HitsOfEntries(entries: seq<Entry>, query: Vector, sqrt: real -> real, hit: Hit)
    requires IsSqrt(sqrt)
    ensures hit in Scores(entries, query, sqrt) <==> exists e :: e in entries && Measures(hit, e, query, sqrt)
  {
    var hits := Scores(entries, query, sqrt);
    if hit in hits {
      var i :| 0 <= i < |hits| && hits[i] == hit;
      MeasuresIsScore(hit, entries[i], query, sqrt);
      assert entries[i] in entries;
    }
    forall e | e in entries && Measures(hit, e, query, sqrt) ensures hit in hits {
      MeasuresIsScore(hit, e, query, sqrt);
      var i :| 0 <= i < |entries| && entries[i] == e;
      assert hits[i] == hit;
    }
  }

  /** Whoever is in a list is at the front of its ranking, or behind it and no better. */
  lemma TopOrBehind(hits: seq<Hit>, k: nat, top: seq<Hit>, x: Hit)
    requires IsTop(hits, k, top)
    ensures x in top ==> x in hits
    ensures x in hits && x !in top ==> CutBehind(top, k, x)
  {
    var rest :| Ranking(hits, top + rest);
    assert x in hits <==> multiset(hits)[x] > 0;
    assert x in top + rest <==> multiset(top + rest)[x] > 0;
    SameSize(top + rest, hits);
    if x in hits && x !in top {
      var j :| 0 <= j < |rest| && rest[j] == x;
      forall i | 0 <= i < |top| ensures top[i].score >= x.score {
        assert (top + rest)[i] == top[i] && (top + rest)[|top| + j] == x;
      }
    }
  }

  lemma TopDescends(hits: seq<Hit>, k: nat, top: seq<Hit>)
    requires IsTop(hits, k, top)
    ensures Descending(top) && |top| <= k
  {
    var rest :| Ranking(hits, top + rest);
    forall i, j | 0 <= i < j < |top| ensures top[i].score >= top[j].score {
      assert (top + rest)[i] == top[i] && (top + rest)[j] == top[j];
    }
  }

  /** The hits at or above the minimum score, all of them without one. */
  function Filtered(hits: seq<Hit>, minScore: Option<real>): seq<Hit> {
    if minScore.Some? then AtLeast(hits, minScore.value) else hits
  }

  lemma EligibleIff(entries: seq<Entry>, query: Vector, minScore: Option<real>, sqrt: real -> real, hit: Hit)
    requires IsSqrt(sqrt)
    ensures hit in Filtered(Scores(entries, query, sqrt), minScore)
      <==> Eligible(entries, query, minScore, sqrt, hit)
  {
    var hits := Scores(entries, query, sqrt);
    HitsOfEntries(entries, query, sqrt, hit);
    if minScore.Some? {
      AtLeastMultiplicity(hits, minScore.value, hit);
      assert hit in AtLeast(hits, minScore.value) <==> multiset(AtLeast(hits, minScore.value))[hit] > 0;
      assert hit in hits <==> multiset(hits)[hit] > 0;
    }
  }

  /** The top of the scores is what a search is meant to return. */
  lemma TopAnswers(entries: seq<Entry>, query: Vector, k: nat, minScore: Option<real>, sqrt: real -> real,
                   top: seq<Hit>)
    requires IsSqrt(sqrt) && IsTop(Filtered(Scores(entries, query, sqrt), minScore), k, top)
    ensures Answers(entries, query, k, minScore, sqrt, top)
  {
    var hits := Filtered(Scores(entries, query, sqrt), minScore);
    TopDescends(hits, k, top);
    forall hit | hit in top ensures Eligible(entries, query, minScore, sqrt, hit) {
      TopOrBehind(hits, k, top, hit);
      EligibleIff(entries, query, minScore, sqrt, hit);
    }
    forall hit | Eligible(entries, query, minScore, sqrt, hit) && hit !in top ensures CutBehind(top, k, hit) {
      TopOrBehind(hits, k, top, hit);
      EligibleIff(entries, query, minScore, sqrt, hit);
    }
  }

  lemma ParallelScoresOne(query: Vector, e: Entry, sqrt: real -> real)
    requires IsSqrt(sqrt) && Parallel(query, e)
    ensures Measures(Hit(e.id, 1.0, e.metadata), e, query, sqrt)
  {
    var t :| t > 0.0 && IsMultiple(query, e.vector, t);
    NormNonNegative(e.vector);
    DotOfMultiple(query, e.vector, query, t);
    PositiveProduct(t, Dot(query, query));
    if Dot(e.vector, e.vector) == 0.0 {
      ZeroVectorDot(e.vector, query);
    }
    MultipleHasPerfectScore(query, e.vector, t, sqrt);
    MeasuresIsScore(Hit(e.id, 1.0, e.metadata), e, query, sqrt);
  }

  lemma HitsBounded(hit: Hit, e: Entry, query: Vector, sqrt: real -> real)
    requires IsSqrt(sqrt) && Measures(hit, e, query, sqrt)
    ensures -1.0 <= hit.score <= 1.0
  {
    MeasuresIsScore(hit, e, query, sqrt);
    ScoreBounded(query, e.vector, sqrt);
  }

  /** An entry in the direction of the query is found: the first hit is a perfect one. */
  lemma ParallelRanksFirst(entries: seq<Entry>, query: Vector, k: nat, minScore: Option<real>, sqrt: real -> real,
                           hits: seq<Hit>, e: Entry)
    requires IsSqrt(sqrt) && Answers(entries, query, k, minScore, sqrt, hits) && k >= 1
    requires e in entries && Parallel(query, e) && (minScore.Some? ==> minScore.value <= 1.0)
    ensures hits != [] && hits[0].score == 1.0
  {
    var perfect := Hit(e.id, 1.0, e.metadata);
    ParallelScoresOne(query, e, sqrt);
    assert Eligible(entries, query, minScore, sqrt, perfect);
    if perfect !in hits {
      assert CutBehind(hits, k, perfect);
    }
    assert hits[0] in hits && Eligible(entries, query, minScore, sqrt, hits[0]);
    var first :| first in entries && Measures(hits[0], first, query, sqrt);
    HitsBounded(hits[0], first, query, sqrt);
  }

  // ---- The store -----------------------------------------------------------------------------

  class VectorDB {
    var collections: map<string, seq<Entry>>

    ghost predicate Valid()
      reads this
    {
      forall c :: c in collections ==> DistinctIds(collections[c])
    }

    /** Reading an absent collection yields no entries. */
    function Entries(collection: string): seq<Entry>
      reads this
    {
      if collection in collections then collections[collection] else []
    }

    constructor ()
      ensures Valid() && collections == map[]
    {
      collections := map[];
    }

    method Insert(collection: string, id: string, vector: Vector, metadata: string)
      requires Valid()
      modifies this
      ensures Valid()
      ensures Index(Entries(collection)) == old(Index(Entries(collection)))[id := Entry(id, vector, metadata)]
      ensures collections == old(collections)[collection := Entries(collection)]
    {
      var entries, e := Entries(collection), Entry(id, vector, metadata);
      for i := 0 to |entries|
        invariant collections == old(collections)
        invariant forall j :: 0 <= j < i ==> entries[j].id != id
      {
        if entries[i].id == id {
          ReplacedIndex(entries, i, e);
          collections := collections[collection := entries[i := e]];
          return;
        }
      }
      assert id !in EntryIds(entries);
      AppendedIndex(entries, e);
      collections := collections[collection := entries + [e]];
    }

    method Delete(collection: string, id: string)
      requires Valid()
      modifies this
      ensures Valid()
      ensures Index(Entries(collection)) == old(Index(Entries(collection))) - {id}
      ensures collections.Keys == old(collections.Keys)
      ensures forall c :: c in collections && c != collection ==> collections[c] == old(collections)[c]
    {
      var entries := Entries(collection);
      for i := 0 to |entries|
        invariant collections == old(collections)
        invariant forall j :: 0 <= j < i ==> entries[j].id != id
      {
        if entries[i].id == id {
          RemovedIndex(entries, i);
          collections := collections[collection := entries[..i] + entries[i + 1..]];
          return;
        }
      }
      IndexStores(entries);
      assert id !in Elements(EntryIds(entries));
      assert Index(entries) - {id} == Index(entries);
    }

    method Clear(collection: string)
      requires Valid()
      modifies this
      ensures Valid()
      ensures collections == old(collections) - {collection}
      ensures Index(Entries(collection)) == map[]
    {
      collections := collections - {collection};
    }

    method Search(collection: string, query: Vector, topK: int, sqrt: real -> real) returns (out: seq<Hit>)
      requires IsSqrt(sqrt)
      requires collection in collections ==> topK >= 0
      ensures collection !in collections ==> out == []
      ensures collection in collections ==> IsTop(Scores(collections[collection], query, sqrt), topK, out)
      ensures collection in collections ==> Answers(collections[collection], query, topK, None, sqrt, out)
    {
      if collection !in collections {
        return [];
      }
      var entries := collections[collection];
      var results: seq<Hit> := [];
      for i := 0 to |entries|
        invariant results == Scores(entries, query, sqrt)[..i]
      {
        var score := CosineSimilarity(query, entries[i].vector, sqrt);
        results := results + [Hit(entries[i].id, score, entries[i].metadata)];
      }
      var ranked := SortByScore(results);
      SameSize(ranked, results);
      out := ranked;
      if |out| > topK {
        out := out[..topK];
      }
      assert out + ranked[|out|..] == ranked;
      assert results == Scores(entries, query, sqrt);
      TopAnswers(entries, query, topK, None, sqrt, out);
    }

    method SearchWithMinScore(collection: string, query: Vector, topK: int, minScore: real, sqrt: real -> real)
      returns (filtered: seq<Hit>)
      requires IsSqrt(sqrt)
      requires collection in collections ==> topK >= 0
      ensures collection !in collections ==> filtered == []
      ensures collection in collections ==>
        IsTop(AtLeast(Scores(collections[collection], query, sqrt), minScore), topK, filtered)
      ensures collection in collections ==>
        Answers(collections[collection], query, topK, Some(minScore), sqrt, filtered)
    {
      var results := Search(collection, query, topK, sqrt);
      filtered := [];
      for i := 0 to |results|
        invariant filtered == AtLeast(results[..i], minScore)
      {
        PrefixStep([], results, i);
        assert results[..i + 1][..i] == results[..i];
        if results[i].score >= minScore {
          filtered := filtered + [results[i]];
        }
      }
      assert results[..|results|] == results;
      if collection in collections {
        FilterAfterCut(Scores(collections[collection], query, sqrt), topK, results, minScore);
        TopAnswers(collections[collection], query, topK, Some(minScore), sqrt, filtered);
      }
    }
  }
}
