/**
 The per-agent sliding-window limiter. Each call carries its own limit and window; the clock is read
 under the lock, so the instants of successive calls never decrease.
 */
module SlidingWindow {
  import opened Collections

  datatype Request = Request(limit: int, window: int, now: int) {
    function Cutoff(): int {
      now - window
    }
  }

  /** The instants strictly after the cutoff. */
  function Recent(ts: seq<int>, cutoff: int): seq<int> {
    if ts == [] then []
    else
      var n := |ts| - 1;
      Recent(ts[..n], cutoff) + if ts[n] > cutoff then [ts[n]] else []
  }

  /** What the limiter keeps for an agent, and everything it ever admitted for it. */
  datatype Ledger = Ledger(kept: seq<int>, admitted: seq<int>)

  predicate Admits(kept: seq<int>, r: Request) {
    |Recent(kept, r.Cutoff())| < r.limit
  }

  function Step(l: Ledger, r: Request): Ledger {
    if Admits(l.kept, r) then Ledger(Recent(l.kept, r.Cutoff()) + [r.now], l.admitted + [r.now])
    else Ledger(Recent(l.kept, r.Cutoff()), l.admitted)
  }

  /** One agent's ledger after its calls so far. */
  function After(calls: seq<Request>): Ledger {
    if calls == [] then Ledger([], [])
    else
      var n := |calls| - 1;
      Step(After(calls[..n]), calls[n])
  }

  // ---- When the pruned list decides as the whole history would -------------------------------

  /** No call prunes an earlier instant that lies beyond `c`. */
  ghost predicate NothingForgotten(calls: seq<Request>, c: int) {
    forall i, j :: 0 <= i < j < |calls| && calls[i].now > c ==> calls[i].now > calls[j].Cutoff()
  }

  /** The same instants and windows, under any limits. */
  ghost predicate SameTimes(a: seq<Request>, b: seq<Request>) {
    |a| == |b| && forall i :: 0 <= i < |a| ==> a[i].now == b[i].now && a[i].window == b[i].window
  }

  lemma RecentAppend(ts: seq<int>, t: int, c: int)
    ensures Recent(ts + [t], c) == Recent(ts, c) + if t > c then [t] else []
  {
  }

  lemma {:induction false} RecentMembers(ts: seq<int>, c: int, t: int)
    ensures t in Recent(ts, c) <==> t in ts && t > c
  {
    if ts == [] {
    } else {
      var n := |ts| - 1;
      RecentMembers(ts[..n], c, t);
      InitAndLast(ts);
    }
  }

  /** One of the instants lies beyond `c` and is pruned at `d`. */
  ghost predicate Lost(ts: seq<int>, d: int, c: int) {
    exists i :: 0 <= i < |ts| && d >= ts[i] > c
  }

  lemma LostSplits(ts: seq<int>, d: int, c: int)
    requires ts != []
    ensures Lost(ts, d, c) <==> Lost(ts[..|ts| - 1], d, c) || d >= ts[|ts| - 1] > c
  {
  }

  /** Pruning at `d` costs what lies beyond `c` nothing, unless something lies in between. */
  lemma {:induction false} PruneBetween(ts: seq<int>, d: int, c: int)
    ensures if Lost(ts, d, c) then |Recent(Recent(ts, d), c)| < |Recent(ts, c)|
            else Recent(Recent(ts, d), c) == Recent(ts, c)
  {
    if ts == [] {
    } else {
      var n := |ts| - 1;
      LostSplits(ts, d, c);
      PruneBetween(ts[..n], d, c);
      RecentAppend(Recent(ts[..n], d), ts[n], c);
      assert ts[n] <= d ==> Recent(ts, d) == Recent(ts[..n], d);
    }
  }

  /** Nothing is kept or admitted but instants of calls. */
  lemma {:induction false} InstantsOnly(calls: seq<Request>, t: int)
    ensures t in After(calls).kept || t in After(calls).admitted ==> exists i :: 0 <= i < |calls| && calls[i].now == t
  {
    if calls == [] {
    } else {
      var n := |calls| - 1;
      InstantsOnly(calls[..n], t);
      RecentMembers(After(calls[..n]).kept, calls[n].Cutoff(), t);
      if exists i :: 0 <= i < n && calls[..n][i].now == t {
        var i :| 0 <= i < n && calls[..n][i].now == t;
        assert calls[i].now == t;
      }
    }
  }

  lemma ForgottenSplits(calls: seq<Request>, c: int)
    requires calls != []
    ensures NothingForgotten(calls, c) <==>
      && NothingForgotten(calls[..|calls| - 1], c)
      && forall i :: 0 <= i < |calls| - 1 && calls[i].now > c ==> calls[i].now > calls[|calls| - 1].Cutoff()
  {
  }

  lemma KeptNotLost(calls: seq<Request>, c: int)
    requires calls != [] && NothingForgotten(calls, c)
    ensures !Lost(After(calls[..|calls| - 1]).kept, calls[|calls| - 1].Cutoff(), c)
  {
    var n := |calls| - 1;
    var kept := After(calls[..n]).kept;
    ForgottenSplits(calls, c);
    forall k | 0 <= k < |kept| && kept[k] > c ensures kept[k] > calls[n].Cutoff() {
      InstantsOnly(calls[..n], kept[k]);
      var i :| 0 <= i < n && calls[..n][i].now == kept[k];
      assert calls[i].now == kept[k];
    }
  }

  lemma StepBeyond(l: Ledger, r: Request, c: int)
    ensures var pruned := Recent(Recent(l.kept, r.Cutoff()), c);
            var admission := if Admits(l.kept, r) && r.now > c then [r.now] else [];
            && Recent(Step(l, r).kept, c) == pruned + admission
            && Recent(Step(l, r).admitted, c) == Recent(l.admitted, c) + admission
  {
  }

  /** With nothing forgotten, what is kept and what was ever admitted look the same beyond `c`. */
  lemma {:induction false} KeptAgrees(calls: seq<Request>, c: int)
    requires NothingForgotten(calls, c)
    ensures Recent(After(calls).kept, c) == Recent(After(calls).admitted, c)
  {
    if calls == [] {
    } else {
      var n := |calls| - 1;
      ForgottenSplits(calls, c);
      KeptAgrees(calls[..n], c);
      KeptNotLost(calls, c);
      PruneBetween(After(calls[..n]).kept, calls[n].Cutoff(), c);
      StepBeyond(After(calls[..n]), calls[n], c);
    }
  }

  /** The calls with a limit that refuses none of them. */
  function Generous(calls: seq<Request>, limit: int): (o: seq<Request>)
    ensures |o| == |calls|
    ensures forall i :: 0 <= i < |calls| ==> o[i] == calls[i].(limit := limit)
  {
    seq(|calls|, i requires 0 <= i < |calls| => calls[i].(limit := limit))
  }

  lemma {:induction false} RecentShrinks(ts: seq<int>, c: int)
    ensures |Recent(ts, c)| <= |ts|
  {
    if ts == [] {
    } else {
      RecentShrinks(ts[..|ts| - 1], c);
    }
  }

  lemma GenerousSplits(calls: seq<Request>, limit: int)
    requires calls != []
    ensures Generous(calls, limit)[..|calls| - 1] == Generous(calls[..|calls| - 1], limit)
  {
  }

  lemma GenerousStep(calls: seq<Request>, limit: int)
    requires calls != []
    ensures After(Generous(calls, limit))
         == Step(After(Generous(calls[..|calls| - 1], limit)), calls[|calls| - 1].(limit := limit))
  {
    GenerousSplits(calls, limit);
  }

  lemma StepKeepsFew(l: Ledger, r: Request)
    ensures |Step(l, r).kept| <= |l.kept| + 1
  {
    RecentShrinks(l.kept, r.Cutoff());
  }

  lemma {:induction false} GenerousKeepsFew(calls: seq<Request>, limit: int)
    ensures |After(Generous(calls, limit)).kept| <= |calls|
  {
    if calls == [] {
    } else {
      var n := |calls| - 1;
      GenerousStep(calls, limit);
      GenerousKeepsFew(calls[..n], limit);
      StepKeepsFew(After(Generous(calls[..n], limit)), calls[n].(limit := limit));
    }
  }

  lemma FewAreAdmitted(kept: seq<int>, r: Request)
    requires |kept| < r.limit
    ensures Admits(kept, r)
  {
    RecentShrinks(kept, r.Cutoff());
  }

  lemma GenerousAdmits(calls: seq<Request>, limit: int)
    requires calls != [] && |calls| <= limit
    ensures Admits(After(Generous(calls[..|calls| - 1], limit)).kept, calls[|calls| - 1].(limit := limit))
  {
    var n := |calls| - 1;
    GenerousKeepsFew(calls[..n], limit);
    FewAreAdmitted(After(Generous(calls[..n], limit)).kept, calls[n].(limit := limit));
  }

  /** Under that limit every instant is admitted. */
  lemma {:induction false} GenerousAdmitsAll(calls: seq<Request>, limit: int, i: nat)
    requires |calls| <= limit && i < |calls|
    ensures calls[i].now in After(Generous(calls, limit)).admitted
  {
    var n := |calls| - 1;
    GenerousStep(calls, limit);
    GenerousAdmits(calls, limit);
    if i == n {
    } else {
      GenerousAdmitsAll(calls[..n], limit, i);
    }
  }

  /** A forgotten instant makes the kept list shorter than the history. */
  lemma {:induction false} ForgettingShows(calls: seq<Request>, c: int, limit: int)
    requires |calls| <= limit
    ensures Shows(After(Generous(calls, limit)), c, !NothingForgotten(calls, c))
  {
    if calls == [] {
    } else {
      var n := |calls| - 1;
      var before := After(Generous(calls[..n], limit));
      ForgettingShows(calls[..n], c, limit);
      ForgottenSplits(calls, c);
      GenerousStep(calls, limit);
      GenerousAdmits(calls, limit);
      if NothingForgotten(calls[..n], c) && !NothingForgotten(calls, c) {
        LastCallForgets(calls, c, limit);
      }
      ShowsAfter(before, calls[n].(limit := limit), c, !NothingForgotten(calls[..n], c), !NothingForgotten(calls, c));
    }
  }

  ghost predicate Shows(l: Ledger, c: int, forgot: bool) {
    && |Recent(l.kept, c)| <= |Recent(l.admitted, c)|
    && (forgot ==> |Recent(l.kept, c)| < |Recent(l.admitted, c)|)
  }

  lemma ShowsAfter(l: Ledger, r: Request, c: int, forgot: bool, forgets: bool)
    requires Shows(l, c, forgot) && (forgets ==> forgot || Lost(l.kept, r.Cutoff(), c))
    ensures Shows(Step(l, r), c, forgets)
  {
    PruneBetween(l.kept, r.Cutoff(), c);
    StepBeyond(l, r, c);
  }

  /** The last call prunes an instant beyond `c` that was still kept. */
  lemma LastCallForgets(calls: seq<Request>, c: int, limit: int)
    requires calls != [] && |calls| <= limit
    requires NothingForgotten(calls[..|calls| - 1], c) && !NothingForgotten(calls, c)
    ensures Lost(After(Generous(calls[..|calls| - 1], limit)).kept, calls[|calls| - 1].Cutoff(), c)
  {
    var n := |calls| - 1;
    var earlier := calls[..n];
    ForgottenSplits(calls, c);
    var i :| 0 <= i < n && calls[n].Cutoff() >= calls[i].now > c;
    var t, l := calls[i].now, After(Generous(earlier, limit));
    GenerousAdmitsAll(earlier, limit, i);
    GenerousForgetsAlike(earlier, c, limit);
    KeptAgrees(Generous(earlier, limit), c);
    RecentMembers(l.kept, c, t);
    RecentMembers(l.admitted, c, t);
    var k :| 0 <= k < |l.kept| && l.kept[k] == t;
  }

  lemma GenerousForgetsAlike(calls: seq<Request>, c: int, limit: int)
    ensures NothingForgotten(calls, c) <==> NothingForgotten(Generous(calls, limit), c)
  {
  }

  /** Calls at these times may come under any limits; the next one looks back from `now` over `window`. */
  ghost predicate AlwaysExact(calls: seq<Request>, window: int, now: int) {
    forall o, limit :: SameTimes(calls, o) ==> Exact(o, Request(limit, window, now))
  }

  /** The pruned list decides `r` as the whole history of admissions would. */
  ghost predicate Exact(calls: seq<Request>, r: Request) {
    Admits(After(calls).kept, r) <==> |Recent(After(calls).admitted, r.Cutoff())| < r.limit
  }

  lemma NotForgettingIsExact(calls: seq<Request>, window: int, now: int)
    requires NothingForgotten(calls, now - window)
    ensures AlwaysExact(calls, window, now)
  {
    forall o, limit | SameTimes(calls, o) ensures Exact(o, Request(limit, window, now)) {
      SameTimesForgetAlike(calls, o, now - window);
      KeptIsExact(o, Request(limit, window, now));
    }
  }

  lemma SameTimesForgetAlike(calls: seq<Request>, o: seq<Request>, c: int)
    requires SameTimes(calls, o) && NothingForgotten(calls, c)
    ensures NothingForgotten(o, c)
  {
  }

  lemma KeptIsExact(calls: seq<Request>, r: Request)
    requires NothingForgotten(calls, r.Cutoff())
    ensures Exact(calls, r)
  {
    KeptAgrees(calls, r.Cutoff());
  }

  lemma ForgettingIsInexact(calls: seq<Request>, window: int, now: int)
    requires !NothingForgotten(calls, now - window)
    ensures !AlwaysExact(calls, window, now)
  {
    var c := now - window;
    var o := Generous(calls, |calls|);
    ForgettingShows(calls, c, |calls|);
    assert Shows(After(o), c, true);
    var r := Request(|Recent(After(o).admitted, c)|, window, now);
    assert SameTimes(calls, o) && !Exact(o, r);
  }

  /** The limiter is exact under all limits if and only if no call has pruned an instant that is asked for again. */
  lemma DecisionExactIff(calls: seq<Request>, window: int, now: int)
    ensures AlwaysExact(calls, window, now) <==> NothingForgotten(calls, now - window)
  {
    if NothingForgotten(calls, now - window) {
      NotForgettingIsExact(calls, window, now);
    } else {
      ForgettingIsInexact(calls, window, now);
    }
  }

  ghost predicate CutoffsAdvance(calls: seq<Request>) {
    forall i, j :: 0 <= i < j < |calls| ==> calls[i].Cutoff() <= calls[j].Cutoff()
  }

  /** With one window and a clock that does not run backwards, cutoffs advance. */
  lemma FixedWindowAdvances(calls: seq<Request>, window: int)
    requires forall i :: 0 <= i < |calls| ==> calls[i].window == window
    requires forall i, j :: 0 <= i < j < |calls| ==> calls[i].now <= calls[j].now
    ensures CutoffsAdvance(calls)
  {
  }

  /** In particular a call is decided exactly as long as cutoffs advance. */
  lemma DecisionIsExact(calls: seq<Request>, r: Request)
    requires CutoffsAdvance(calls + [r])
    ensures NothingForgotten(calls, r.Cutoff()) && Exact(calls, r)
  {
    var all := calls + [r];
    forall i, j | 0 <= i < j < |calls| && calls[i].now > r.Cutoff()
      ensures calls[i].now > calls[j].Cutoff()
    {
      assert all[j].Cutoff() <= all[|calls|].Cutoff();
    }
    DecisionExactIff(calls, r.window, r.now);
    assert SameTimes(calls, calls);
    assert r == Request(r.limit, r.window, r.now);
  }

  lemma FirstCall(a: Request)
    requires a.limit >= 1
    ensures After([a]) == Ledger([a.now], [a.now])
  {
  }

  lemma PruningCall(a: Request, b: Request)
    requires a.limit >= 1 && b.limit >= 1 && a.now <= b.Cutoff()
    ensures After([a] + [b]) == Ledger([b.now], [a.now] + [b.now])
  {
    FirstCall(a);
    CallAppended([a], b);
    OneInstant(a.now, b.Cutoff());
    assert [] + [b.now] == [b.now];
  }

  /**
   A window that grows later asks for admissions that were already pruned: `a` was pruned by `b` and lies in
   the window of `r`, which is let through as the second one although it is the third.
   */
  lemma GrowingWindowForgets(a: Request, b: Request, r: Request)
    requires a.limit >= 1 && b.limit >= 1 && r.limit == 2
    requires r.Cutoff() < a.now <= b.Cutoff() && r.Cutoff() < b.now
    ensures !NothingForgotten([a] + [b], r.Cutoff())
    ensures Admits(After([a] + [b]).kept, r) && |Recent(After([a] + [b]).admitted, r.Cutoff())| == 2
  {
    var calls := [a] + [b];
    assert calls[0].now > r.Cutoff() && calls[0].now <= calls[1].Cutoff();
    PruningCall(a, b);
    OneInstant(b.now, r.Cutoff());
    OneInstant(a.now, r.Cutoff());
    RecentAppend([a.now], b.now, r.Cutoff());
  }

  /** The conversation loop's own limit and window, made longer for one call. */
  lemma GrowingWindowExample()
    ensures !NothingForgotten([Request(30, 60, 0)] + [Request(30, 60, 60)], Request(2, 120, 61).Cutoff())
  {
    GrowingWindowForgets(Request(30, 60, 0), Request(30, 60, 60), Request(2, 120, 61));
  }

  lemma CallAppended(calls: seq<Request>, r: Request)
    ensures After(calls + [r]) == Step(After(calls), r)
  {
  }

  lemma OneInstant(t: int, c: int)
    ensures Recent([t], c) == if t > c then [t] else []
  {
  }

  // ---- No window is ever overfull ------------------------------------------------------------

  /** How many of the instants lie in (lo, hi]. */
  function Within(ts: seq<int>, lo: int, hi: int): nat {
    if ts == [] then 0
    else
      var n := |ts| - 1;
      Within(ts[..n], lo, hi) + if lo < ts[n] <= hi then 1 else 0
  }

  lemma {:induction false} WithinAtMostRecent(ts: seq<int>, lo: int, hi: int, c: int)
    requires c <= lo
    ensures Within(ts, lo, hi) <= |Recent(ts, c)|
  {
    if ts == [] {
    } else {
      WithinAtMostRecent(ts[..|ts| - 1], lo, hi, c);
    }
  }

  ghost predicate AllUpTo(ts: seq<int>, hi: int) {
    forall i :: 0 <= i < |ts| ==> ts[i] <= hi
  }

  lemma {:induction false} RecentIsWithin(ts: seq<int>, c: int, hi: int)
    requires AllUpTo(ts, hi)
    ensures |Recent(ts, c)| == Within(ts, c, hi)
  {
    if ts == [] {
    } else {
      RecentIsWithin(ts[..|ts| - 1], c, hi);
    }
  }

  lemma AdmittedBefore(calls: seq<Request>, now: int)
    requires forall i :: 0 <= i < |calls| ==> calls[i].now <= now
    ensures AllUpTo(After(calls).admitted, now)
  {
    var admitted := After(calls).admitted;
    forall i | 0 <= i < |admitted| ensures admitted[i] <= now {
      InstantsOnly(calls, admitted[i]);
    }
  }

  lemma ExactIsCount(calls: seq<Request>, r: Request)
    requires Exact(calls, r) && AllUpTo(After(calls).admitted, r.now)
    ensures Admits(After(calls).kept, r) <==> Within(After(calls).admitted, r.now - r.window, r.now) < r.limit
  {
    RecentIsWithin(After(calls).admitted, r.Cutoff(), r.now);
  }

  /** As long as cutoffs advance, a call is let through exactly if fewer than `limit` were in (now - window, now]. */
  lemma AdmittedIffRoom(calls: seq<Request>, r: Request)
    requires CutoffsAdvance(calls + [r]) && forall i :: 0 <= i < |calls| ==> calls[i].now <= r.now
    ensures Admits(After(calls).kept, r) <==> Within(After(calls).admitted, r.now - r.window, r.now) < r.limit
  {
    DecisionIsExact(calls, r);
    AdmittedBefore(calls, r.now);
    ExactIsCount(calls, r);
  }

  lemma WithinAppend(ts: seq<int>, t: int, lo: int, hi: int)
    ensures Within(ts + [t], lo, hi) == Within(ts, lo, hi) + if lo < t <= hi then 1 else 0
  {
  }

  lemma StepFits(l: Ledger, r: Request, t: int)
    requires Within(l.admitted, t - r.window, t) <= r.limit
    requires Admits(l.kept, r) ==> |Recent(l.admitted, r.Cutoff())| < r.limit
    ensures Within(Step(l, r).admitted, t - r.window, t) <= r.limit
  {
    WithinAppend(l.admitted, r.now, t - r.window, t);
    if r.now <= t {
      WithinAtMostRecent(l.admitted, t - r.window, t, r.Cutoff());
    }
  }

  lemma RegularCallIsExact(calls: seq<Request>, window: int)
    requires calls != []
    requires forall i :: 0 <= i < |calls| ==> calls[i].window == window
    requires forall i, j :: 0 <= i < j < |calls| ==> calls[i].now <= calls[j].now
    ensures Exact(calls[..|calls| - 1], calls[|calls| - 1])
  {
    InitAndLast(calls);
    FixedWindowAdvances(calls, window);
    DecisionIsExact(calls[..|calls| - 1], calls[|calls| - 1]);
  }

  /** For every instant t, at most `limit` calls were admitted in (t - window, t]. */
  lemma {:induction false} WindowNeverOverfull(calls: seq<Request>, limit: nat, window: int, t: int)
    requires forall i :: 0 <= i < |calls| ==> calls[i].limit == limit && calls[i].window == window
    requires forall i, j :: 0 <= i < j < |calls| ==> calls[i].now <= calls[j].now
    ensures Within(After(calls).admitted, t - window, t) <= limit
  {
    if calls == [] {
    } else {
      var n := |calls| - 1;
      WindowNeverOverfull(calls[..n], limit, window, t);
      RegularCallIsExact(calls, window);
      StepFits(After(calls[..n]), calls[n], t);
    }
  }

  // ---- The limiter ---------------------------------------------------------------------------

  datatype Window = Window(timestamps: seq<int>, limit: int, window: int)

  class RateLimiter {
    var windows: map<string, Window>

    constructor ()
      ensures windows == map[]
    {
      windows := map[];
    }

    function Kept(key: string): seq<int>
      reads this
    {
      if key in windows then windows[key].timestamps else []
    }

    method Allow(key: string, limit: int, window: int, now: int) returns (ok: bool)
      modifies this
      ensures ok == Admits(old(Kept(key)), Request(limit, window, now))
      ensures Kept(key) == Step(Ledger(old(Kept(key)), []), Request(limit, window, now)).kept
      ensures forall k :: k != key ==> Kept(k) == old(Kept(k))
    {
      var w := if key in windows then windows[key] else Window([], limit, window);
      var cutoff := now - window;
      var filtered: seq<int> := [];
      for i := 0 to |w.timestamps|
        invariant filtered == Recent(w.timestamps[..i], cutoff)
      {
        assert w.timestamps[..i + 1][..i] == w.timestamps[..i];
        if w.timestamps[i] > cutoff {
          filtered := filtered + [w.timestamps[i]];
        }
      }
      assert w.timestamps[..|w.timestamps|] == w.timestamps;
      if |filtered| >= limit {
        windows := windows[key := w.(timestamps := filtered)];
        return false;
      }
      windows := windows[key := w.(timestamps := filtered + [now])];
      return true;
    }
  }

  /** The calls of one agent, in order, out of an interleaved log. */
  function CallsOf(log: seq<(string, Request)>, agent: string): seq<Request> {
    if log == [] then []
    else
      var n := |log| - 1;
      CallsOf(log[..n], agent) + if log[n].0 == agent then [log[n].1] else []
  }

  /** The session manager's limiters: one limiter object per agent, made on first use. */
  class SessionManager {
    var rateLimiters: map<string, RateLimiter>
    ghost var log: seq<(string, Request)>

    /** Every agent's limiter is where its own calls alone would have brought it. */
    ghost predicate Valid()
      reads this, rateLimiters.Values
    {
      && (forall a, b :: a in rateLimiters && b in rateLimiters && a != b ==> rateLimiters[a] != rateLimiters[b])
      && (forall a :: Kept(a) == After(CallsOf(log, a)).kept)
    }

    function Kept(agent: string): seq<int>
      reads this, rateLimiters.Values
    {
      if agent in rateLimiters then rateLimiters[agent].Kept(agent) else []
    }

    constructor ()
      ensures Valid() && log == []
    {
      rateLimiters := map[];
      log := [];
    }

    method RateLimitAllow(agentID: string, limit: int, window: int, now: int) returns (ok: bool)
      requires Valid()
      modifies this, rateLimiters.Values
      ensures Valid()
      ensures log == old(log) + [(agentID, Request(limit, window, now))]
      ensures ok == Admits(After(CallsOf(old(log), agentID)).kept, Request(limit, window, now))
      ensures fresh(rateLimiters.Values - old(rateLimiters.Values))
    {
      var rl := LimiterFor(agentID);
      ok := rl.Allow(agentID, limit, window, now);
      log := log + [(agentID, Request(limit, window, now))];
      forall a ensures Kept(a) == After(CallsOf(log, a)).kept {
        LogAppend(old(log), agentID, Request(limit, window, now), a);
        if a == agentID {
          OneMoreCall(CallsOf(old(log), a), Request(limit, window, now));
        } else if a in rateLimiters {
          assert rateLimiters[a] != rl;
        }
      }
    }

    /** The lookup under the manager's lock. */
    method LimiterFor(agentID: string) returns (rl: RateLimiter)
      requires Valid()
      modifies this`rateLimiters
      ensures Valid() && agentID in rateLimiters && rateLimiters[agentID] == rl
      ensures fresh(rateLimiters.Values - old(rateLimiters.Values))
      ensures rl in old(rateLimiters.Values) || fresh(rl)
      ensures rl.Kept(agentID) == old(Kept(agentID))
    {
      if agentID !in rateLimiters {
        var added := new RateLimiter();
        rateLimiters := rateLimiters[agentID := added];
      }
      rl := rateLimiters[agentID];
    }
  }

  lemma LogAppend(log: seq<(string, Request)>, agent: string, r: Request, other: string)
    ensures CallsOf(log + [(agent, r)], other) == if other == agent then CallsOf(log, other) + [r]
      else CallsOf(log, other)
  {
  }

  lemma OneMoreCall(calls: seq<Request>, r: Request)
    ensures After(calls + [r]).kept == Step(Ledger(After(calls).kept, []), r).kept
  {
  }
}
