/** Facts about sequences and finite sets that several components rely on. */
module Collections {

  datatype Option<+T> = None | Some(value: T)

  /** An embedding, in exact arithmetic. */
  type Vector = seq<real>

  ghost predicate Distinct<T(!new)>(s: seq<T>) {
    forall i, j :: 0 <= i < j < |s| ==> s[i] != s[j]
  }

  function Elements<T>(s: seq<T>): set<T> {
    set x | x in s
  }

  /** What holds at first and is kept by every step holds after `n` steps. */
  lemma {:induction false} AfterSteps(holds: nat -> bool, n: nat)
    requires holds(0)
    requires forall k: nat :: k < n && holds(k) ==> holds(k + 1)
    ensures holds(n)
  {
    if n == 0 {
    } else {
      AfterSteps(holds, n - 1);
      assert holds(n - 1 + 1);
    }
  }

  /** A sequence never has fewer positions than elements, and has as many exactly when nothing repeats. */
  lemma {:induction false} CardinalityOfElements<T(!new)>(s: seq<T>)
    ensures |Elements(s)| <= |s|
    ensures |Elements(s)| == |s| <==> Distinct(s)
  {
    if s == [] {
    } else {
      var init, last := s[..|s| - 1], s[|s| - 1];
      assert s == init + [last];
      CardinalityOfElements(init);
      assert Elements(s) == Elements(init) + {last};
      if last in init {
        assert Elements(s) == Elements(init);
        var i :| 0 <= i < |init| && init[i] == last;
        assert s[i] == s[|s| - 1];
      } else {
        assert Distinct(s) <==> Distinct(init) by {
          if Distinct(s) {
            forall i, j | 0 <= i < j < |init| ensures init[i] != init[j] {
              assert s[i] != s[j];
            }
          }
        }
      }
    }
  }

  lemma PrefixStep<T>(a: seq<T>, b: seq<T>, k: nat)
    requires k < |b|
    ensures b[..k + 1] == b[..k] + [b[k]]
    ensures a + b[..k + 1] == a + b[..k] + [b[k]]
  {
  }

  lemma LastOfConcat<T>(a: seq<T>, b: seq<T>)
    requires b != []
    ensures a + b == a + b[..|b| - 1] + [b[|b| - 1]]
  {
  }

  lemma InitAndLast<T>(s: seq<T>)
    requires s != []
    ensures s[..|s| - 1] + [s[|s| - 1]] == s
  {
  }

  lemma DistinctWithout<T(!new)>(s: seq<T>, k: nat)
    requires Distinct(s) && k < |s|
    ensures Distinct(s[..k] + s[k + 1..])
    ensures Elements(s[..k] + s[k + 1..]) == Elements(s) - {s[k]}
  {
  }

  lemma SubsetCardinality<T>(a: set<T>, b: set<T>)
    requires a <= b
    ensures |a| <= |b|
    ensures |a| == |b| ==> a == b
  {
    assert b == a + (b - a);
  }

  /** Two repetition-free sequences over the same elements are permutations of each other. */
  lemma {:induction false} SameElementsPermute<T(!new)>(s: seq<T>, t: seq<T>)
    requires Distinct(s) && Distinct(t) && Elements(s) == Elements(t)
    ensures multiset(s) == multiset(t)
  {
    forall x ensures multiset(s)[x] == multiset(t)[x] {
      MultiplicityOfDistinct(s, x);
      MultiplicityOfDistinct(t, x);
      assert x in s <==> x in Elements(s);
      assert x in t <==> x in Elements(t);
    }
  }

  lemma {:induction false} MultiplicityOfDistinct<T(!new)>(s: seq<T>, x: T)
    requires Distinct(s)
    ensures multiset(s)[x] == if x in s then 1 else 0
  {
    if s == [] {
    } else {
      assert s == [s[0]] + s[1..];
      assert Distinct(s[1..]);
      MultiplicityOfDistinct(s[1..], x);
      assert forall i :: 0 <= i < |s[1..]| ==> s[1..][i] == s[i + 1];
    }
  }

  lemma SameMultisetDistinct<T(!new)>(s: seq<T>, t: seq<T>)
    requires Distinct(s) && multiset(s) == multiset(t)
    ensures Distinct(t)
  {
    assert forall x :: x in s <==> x in multiset(s);
    assert forall x :: x in t <==> x in multiset(t);
    assert Elements(s) == Elements(t);
    assert |s| == |multiset(s)| == |multiset(t)| == |t|;
    CardinalityOfElements(s);
    CardinalityOfElements(t);
  }
}
