/** Unique slugs for agents: probing base, base-1, base-2, ... against the table. */
module SlugAllocator {
  import opened Collections
  import Text

  // ---- Decimal numerals ----------------------------------------------------------------------

  function Digit(d: nat): char
    requires d < 10
  {
    ('0' as int + d) as char
  }

  function Decimal(n: nat): string {
    if n < 10 then [Digit(n)] else Decimal(n / 10) + [Digit(n % 10)]
  }

  /** The number a numeral denotes. */
  function Value(s: string): int {
    if s == "" then 0 else 10 * Value(s[..|s| - 1]) + (s[|s| - 1] as int - '0' as int)
  }

  lemma {:induction false} DecimalRoundTrip(n: nat)
    ensures Value(Decimal(n)) == n
    ensures Decimal(n) != "" && forall i :: 0 <= i < |Decimal(n)| ==> '0' <= Decimal(n)[i] <= '9'
    ensures n > 0 ==> Decimal(n)[0] != '0'
  {
    var s := Decimal(n);
    if n >= 10 {
      DecimalRoundTrip(n / 10);
      assert s[..|s| - 1] == Decimal(n / 10);
    } else {
      assert s[..|s| - 1] == "";
    }
  }

  // ---- Candidates ----------------------------------------------------------------------------

  /** What the loop tries at its `i`-th probe, counting from 0. */
  function Candidate(base: string, i: nat): string {
    if i == 0 then base else base + "-" + Decimal(i)
  }

  lemma CandidatesDistinct(base: string, i: nat, j: nat)
    requires i != j
    ensures Candidate(base, i) != Candidate(base, j)
  {
    if i > 0 && j > 0 {
      DecimalRoundTrip(i);
      DecimalRoundTrip(j);
      assert Candidate(base, i)[|base| + 1..] == Decimal(i);
      assert Candidate(base, j)[|base| + 1..] == Decimal(j);
    } else {
      assert |Candidate(base, i)| != |Candidate(base, j)|;
    }
  }

  function FirstCandidates(base: string, k: nat): set<string> {
    set i | 0 <= i < k :: Candidate(base, i)
  }

  lemma OneMoreCandidate(base: string, k: nat)
    ensures FirstCandidates(base, k + 1) == FirstCandidates(base, k) + {Candidate(base, k)}
    ensures Candidate(base, k) !in FirstCandidates(base, k)
  {
    forall i | 0 <= i < k ensures Candidate(base, i) != Candidate(base, k) {
      CandidatesDistinct(base, i, k);
    }
  }

  lemma {:induction false} CountCandidates(base: string, k: nat)
    ensures |FirstCandidates(base, k)| == k
  {
    if k == 0 {
    } else {
      CountCandidates(base, k - 1);
      OneMoreCandidate(base, k - 1);
    }
  }

  /** Pigeonhole: no more candidates can be taken than there are slugs. */
  lemma TakenCandidates(taken: set<string>, base: string, k: nat)
    requires forall i :: 0 <= i < k ==> Candidate(base, i) in taken
    ensures k <= |taken|
  {
    CountCandidates(base, k);
    SubsetCardinality(FirstCandidates(base, k), taken);
  }

  /** `k` is the first probe whose candidate is free. */
  ghost predicate FirstFree(taken: set<string>, base: string, k: nat) {
    Candidate(base, k) !in taken && forall i :: 0 <= i < k ==> Candidate(base, i) in taken
  }

  /** `s` is `base`, a dash and the number `n` in decimal, without leading zeros. */
  ghost predicate Suffixed(s: string, base: string, n: nat) {
    exists d: string :: d != "" && s == base + "-" + d && Value(d) == n && d[0] != '0' && AllDigits(d)
  }

  predicate AllDigits(d: string) {
    forall i :: 0 <= i < |d| ==> '0' <= d[i] <= '9'
  }

  lemma CandidateIsSuffixed(base: string, i: nat)
    ensures Candidate(base, 0) == base
    ensures i > 0 ==> Suffixed(Candidate(base, i), base, i)
  {
    DecimalRoundTrip(i);
    assert AllDigits(Decimal(i));
  }

  // ---- The loop ------------------------------------------------------------------------------

  datatype SlugResult = Slug(slug: string) | QueryFailed

  /** `fails` says which probe's query, if any, returns an error. */
  method NextSlug(taken: set<string>, base: string, fails: nat -> bool) returns (r: SlugResult, probes: nat)
    ensures 1 <= probes <= |taken| + 1
    ensures r.Slug? ==> FirstFree(taken, base, probes - 1) && r.slug == Candidate(base, probes - 1)
    ensures r.Slug? ==> r.slug !in taken && if probes == 1 then r.slug == base else Suffixed(r.slug, base, probes - 1)
    ensures r.QueryFailed? <==> fails(probes - 1)
    ensures forall i :: 0 <= i < probes - 1 ==> !fails(i) && Candidate(base, i) in taken
  {
    var slug := base;
    var i := 1;
    while true
      invariant 1 <= i && slug == Candidate(base, i - 1)
      invariant forall j :: 0 <= j < i - 1 ==> !fails(j) && Candidate(base, j) in taken
      decreases |taken| + 1 - i
    {
      TakenCandidates(taken, base, i - 1);
      if fails(i - 1) {
        return QueryFailed, i;
      }
      var count := if slug in taken then 1 else 0;
      if count == 0 {
        CandidateIsSuffixed(base, i - 1);
        return Slug(slug), i;
      }
      assert Candidate(base, i - 1) in taken;
      TakenCandidates(taken, base, i);
      slug := base + "-" + Decimal(i);
      i := i + 1;
    }
  }

  // ---- Its use when an agent is created ------------------------------------------------------

  predicate Alphanumeric(c: char) {
    'a' <= c <= 'z' || '0' <= c <= '9'
  }

  /** ^[a-z0-9][a-z0-9-]{0,98}[a-z0-9]$ */
  predicate ValidSlug(s: string) {
    && 2 <= |s| <= 100
    && Alphanumeric(s[0]) && Alphanumeric(s[|s| - 1])
    && forall i :: 0 <= i < |s| ==> Alphanumeric(s[i]) || s[i] == '-'
  }

  /** A suffixed candidate is a valid slug exactly as long as it is not too long. */
  lemma CandidateValidIff(base: string, k: nat)
    requires ValidSlug(base)
    ensures ValidSlug(Candidate(base, k)) <==> |Candidate(base, k)| <= 100
  {
    if k > 0 {
      DecimalRoundTrip(k);
      var s, d := Candidate(base, k), Decimal(k);
      forall i | 0 <= i < |s| ensures Alphanumeric(s[i]) || s[i] == '-' {
        assert s[i] == if i < |base| then base[i] else if i == |base| then '-' else d[i - |base| - 1];
      }
    }
  }

  /** The fields of an agent that Create fills in and Validate looks at. */
  class Agent {
    const name: string
    var slug: string
    var temperature: real
    var topP: real
    var timeoutMS: int
    var maxRetries: int

    constructor (name: string, slug: string, temperature: real, topP: real, timeoutMS: int, maxRetries: int)
      ensures this.name == name && this.slug == slug && Settings() == Knobs(temperature, topP, timeoutMS, maxRetries)
    {
      this.name, this.slug := name, slug;
      this.temperature, this.topP, this.timeoutMS, this.maxRetries := temperature, topP, timeoutMS, maxRetries;
    }

    function Settings(): Knobs
      reads this
    {
      Knobs(temperature, topP, timeoutMS, maxRetries)
    }

    /** The slug to start from: the one given, else the derived one, and a fresh one where that is not valid. */
    method FillInSlug(derived: string, fallback: string)
      requires |fallback| == 8 && forall i :: 0 <= i < 8 ==> Alphanumeric(fallback[i])
      modifies this`slug
      ensures ValidSlug(slug)
      ensures var given := if old(slug) == "" then derived else old(slug);
              slug == if ValidSlug(given) then given else "agent-" + fallback
    {
      if slug == "" {
        slug := derived;
      }
      if !ValidSlug(slug) {
        slug := "agent-" + fallback;
        FallbackValid(fallback);
      }
    }

    method FillIn()
      modifies this
      ensures Settings() == Filled(old(Settings())) && slug == old(slug)
    {
      if temperature == 0.0 {
        temperature := 0.7;
      }
      if topP == 0.0 {
        topP := 0.9;
      }
      if timeoutMS == 0 {
        timeoutMS := 300000;
      }
      if maxRetries == 0 {
        maxRetries := 3;
      }
    }

    method Validate() returns (ok: bool)
      ensures ok <==> ValidName(name) && ValidSlug(slug) && InRange(Settings())
    {
      if name == "" || Text.ByteLen(name) > 100 {
        return false;
      }
      if !ValidSlug(slug) {
        return false;
      }
      if temperature < 0.0 || temperature > 2.0 {
        return false;
      }
      if topP < 0.0 || topP > 1.0 {
        return false;
      }
      if timeoutMS < 1000 || timeoutMS > 600000 {
        return false;
      }
      return 0 <= maxRetries <= 10;
    }
  }

  datatype Knobs = Knobs(temperature: real, topP: real, timeoutMS: int, maxRetries: int)

  predicate ValidName(name: string) {
    name != "" && Text.ByteLen(name) <= 100
  }

  predicate InRange(k: Knobs) {
    0.0 <= k.temperature <= 2.0 && 0.0 <= k.topP <= 1.0 && 1000 <= k.timeoutMS <= 600000 && 0 <= k.maxRetries <= 10
  }

  /** Zero stands for a default. */
  function Filled(k: Knobs): Knobs {
    Knobs(if k.temperature == 0.0 then 0.7 else k.temperature, if k.topP == 0.0 then 0.9 else k.topP,
          if k.timeoutMS == 0 then 300000 else k.timeoutMS, if k.maxRetries == 0 then 3 else k.maxRetries)
  }

  /** The defaults are themselves in range: what Validate objects to, the caller has set. */
  lemma FilledInRangeIff(k: Knobs)
    ensures InRange(Filled(k)) <==>
      && 0.0 <= k.temperature <= 2.0 && 0.0 <= k.topP <= 1.0
      && (k.timeoutMS == 0 || 1000 <= k.timeoutMS <= 600000) && 0 <= k.maxRetries <= 10
  {
  }

  datatype CreateResult = Created | SlugFailed | Rejected | InsertFailed

  class AgentTable {
    var slugs: set<string>

    constructor ()
      ensures slugs == {}
    {
      slugs := {};
    }

    /**
     `derived` is the lower-cased, dashed name, `fallback` eight characters of a fresh UUID; `fails` says which
     query returns an error and `inserts` whether the row can be stored.
     */
    method Create(a: Agent, derived: string, fallback: string, fails: nat -> bool, inserts: bool)
      returns (r: CreateResult)
      requires |fallback| == 8 && forall i :: 0 <= i < 8 ==> Alphanumeric(fallback[i])
      modifies this, a
      ensures r.Created? ==> ValidSlug(a.slug) && a.slug !in old(slugs) && slugs == old(slugs) + {a.slug}
      ensures !r.Created? ==> slugs == old(slugs)
      ensures (forall i :: !fails(i)) ==>
        var given := if old(a.slug) == "" then derived else old(a.slug);
        var base := if ValidSlug(given) then given else "agent-" + fallback;
        exists k ::
          && FirstFree(old(slugs), base, k) && a.slug == Candidate(base, k)
          && (r.Rejected? <==> |a.slug| > 100 || !ValidName(a.name) || !InRange(Filled(old(a.Settings()))))
          && (r.Created? <==> !r.Rejected? && inserts)
      ensures r.Created? ==>
        && a.temperature == (if old(a.temperature) == 0.0 then 0.7 else old(a.temperature))
        && a.topP == (if old(a.topP) == 0.0 then 0.9 else old(a.topP))
        && a.timeoutMS == (if old(a.timeoutMS) == 0 then 300000 else old(a.timeoutMS))
        && a.maxRetries == (if old(a.maxRetries) == 0 then 3 else old(a.maxRetries))
      ensures ValidSlug(old(a.slug)) && old(a.slug) !in old(slugs) && !fails(0) ==> a.slug == old(a.slug)
    {
      a.FillInSlug(derived, fallback);
      ghost var base := a.slug;
      var found, probes := NextSlug(slugs, a.slug, fails);
      if found.QueryFailed? {
        return SlugFailed;
      }
      a.slug := found.slug;
      CandidateValidIff(base, probes - 1);
      assert FirstFree(old(slugs), base, probes - 1);
      a.FillIn();
      var ok := a.Validate();
      if !ok {
        return Rejected;
      }
      if !inserts {
        return InsertFailed;
      }
      slugs := slugs + {a.slug};
      return Created;
    }
  }

  lemma FallbackValid(fallback: string)
    requires |fallback| == 8 && forall i :: 0 <= i < 8 ==> Alphanumeric(fallback[i])
    ensures ValidSlug("agent-" + fallback)
  {
  }

  /** A taken slug of 99 or 100 characters leaves no valid candidate: creation is rejected, not renamed. */
  lemma LongSlugCannotBeRenamed(taken: set<string>, base: string, k: nat)
    requires ValidSlug(base) && base in taken && |base| >= 99
    requires FirstFree(taken, base, k)
    ensures !ValidSlug(Candidate(base, k))
  {
  }
}
