/** The per-key fixed-window limiter of the tool handlers. Instants come from a clock read under the lock. */
module FixedWindow {
  import opened Collections

  datatype RateWindow = RateWindow(count: int, resetAt: int)

  /** The window recorded for a key, and every instant at which the key was admitted. */
  datatype Ledger = Ledger(window: Option<RateWindow>, admitted: seq<int>)

  /** Whether a call at `now` starts a new window. */
  predicate Expired(w: Option<RateWindow>, now: int) {
    w.None? || now > w.value.resetAt
  }

  predicate Admits(w: Option<RateWindow>, max: int, now: int) {
    Expired(w, now) || w.value.count < max
  }

  function Next(w: Option<RateWindow>, max: int, interval: int, now: int): Option<RateWindow> {
    if Expired(w, now) then Some(RateWindow(1, now + interval))
    else if w.value.count >= max then w
    else Some(RateWindow(w.value.count + 1, w.value.resetAt))
  }

  function Step(l: Ledger, max: int, interval: int, now: int): Ledger {
    Ledger(Next(l.window, max, interval, now), if Admits(l.window, max, now) then l.admitted + [now] else l.admitted)
  }

  /** One key's ledger after calls at the given instants. */
  function After(times: seq<int>, max: int, interval: int): Ledger {
    if times == [] then Ledger(None, [])
    else
      var n := |times| - 1;
      Step(After(times[..n], max, interval), max, interval, times[n])
  }

  ghost predicate NonDecreasing(times: seq<int>) {
    forall i, j :: 0 <= i < j < |times| ==> times[i] <= times[j]
  }

  /** How many of the instants lie in [lo, hi]. */
  function Within(ts: seq<int>, lo: int, hi: int): nat {
    if ts == [] then 0
    else
      var n := |ts| - 1;
      Within(ts[..n], lo, hi) + if lo <= ts[n] <= hi then 1 else 0
  }

  /** How many of the instants lie at or after `lo`. */
  function From(ts: seq<int>, lo: int): nat {
    if ts == [] then 0
    else
      var n := |ts| - 1;
      From(ts[..n], lo) + if lo <= ts[n] then 1 else 0
  }

  lemma {:induction false} WithinAtMostFrom(ts: seq<int>, lo: int, hi: int)
    ensures Within(ts, lo, hi) <= From(ts, lo)
  {
    if ts == [] {
    } else {
      WithinAtMostFrom(ts[..|ts| - 1], lo, hi);
    }
  }

  lemma Appended(ts: seq<int>, t: int)
    ensures forall lo, hi :: Within(ts + [t], lo, hi) == Within(ts, lo, hi) + if lo <= t <= hi then 1 else 0
    ensures forall lo :: From(ts + [t], lo) == From(ts, lo) + if lo <= t then 1 else 0
  {
  }

  // ---- The bound -----------------------------------------------------------------------------

  /** The largest count a window can reach: its opening call is admitted whatever `max` says. */
  function Peak(max: int): int {
    if max < 1 then 1 else max
  }

  /** Where the current window's call stands in the admissions so far. */
  ghost predicate Counted(l: Ledger, max: int, interval: int) {
    if l.window.None? then l.admitted == []
    else
      var count, start := l.window.value.count, l.window.value.resetAt - interval;
      && 1 <= count <= Peak(max)
      && From(l.admitted, start) >= count
      && (forall x :: x > start ==> From(l.admitted, x) <= count - 1)
      && (forall x :: x + interval >= start ==> From(l.admitted, x) <= Peak(max) - 1 + count)
  }

  /** Neither an admission nor the start of the window lies after the latest instant. */
  ghost predicate UpTo(l: Ledger, interval: int, now: int) {
    && (forall x :: x > now ==> From(l.admitted, x) == 0)
    && (l.window.Some? ==> l.window.value.resetAt - interval <= now)
  }

  lemma StepCounted(l: Ledger, max: int, interval: int, now: int)
    requires Counted(l, max, interval) && UpTo(l, interval, now)
    ensures Counted(Step(l, max, interval, now), max, interval)
    ensures UpTo(Step(l, max, interval, now), interval, now)
  {
    Appended(l.admitted, now);
  }

  lemma {:induction false} EveryLedgerCounted(times: seq<int>, max: int, interval: int)
    requires NonDecreasing(times)
    ensures Counted(After(times, max, interval), max, interval)
    ensures forall now :: (times != [] ==> now >= times[|times| - 1]) ==>
      UpTo(After(times, max, interval), interval, now)
  {
    if times == [] {
    } else {
      var n := |times| - 1;
      assert NonDecreasing(times[..n]);
      EveryLedgerCounted(times[..n], max, interval);
      StepCounted(After(times[..n], max, interval), max, interval, times[n]);
    }
  }

  lemma StepKeepsSpan(l: Ledger, max: int, interval: int, now: int, x: int)
    requires Counted(l, max, interval) && UpTo(l, interval, now)
    requires Within(l.admitted, x, x + interval) <= 2 * Peak(max) - 1
    ensures Within(Step(l, max, interval, now).admitted, x, x + interval) <= 2 * Peak(max) - 1
  {
    var after := Step(l, max, interval, now);
    StepCounted(l, max, interval, now);
    if Admits(l.window, max, now) && x <= now <= x + interval {
      WithinAtMostFrom(after.admitted, x, x + interval);
    } else {
      Appended(l.admitted, now);
    }
  }

  /** At most 2*max - 1 calls are admitted in any closed span of length `interval` (for max >= 1; one for less). */
  lemma {:induction false} SpanBound(times: seq<int>, max: int, interval: int, x: int)
    requires NonDecreasing(times)
    ensures Within(After(times, max, interval).admitted, x, x + interval) <= 2 * Peak(max) - 1
  {
    if times == [] {
    } else {
      var n := |times| - 1;
      assert NonDecreasing(times[..n]);
      SpanBound(times[..n], max, interval, x);
      EveryLedgerCounted(times[..n], max, interval);
      StepKeepsSpan(After(times[..n], max, interval), max, interval, times[n], x);
    }
  }

  lemma {:induction false} SplitAt(ts: seq<int>, lo: int, hi: int)
    requires lo <= hi + 1
    ensures From(ts, lo) == Within(ts, lo, hi) + From(ts, hi + 1)
  {
    if ts == [] {
    } else {
      SplitAt(ts[..|ts| - 1], lo, hi);
    }
  }

  /** A call is refused only when a full window's worth was admitted within the last `interval`. */
  lemma RefusalIsEarned(times: seq<int>, max: int, interval: int, now: int)
    requires NonDecreasing(times + [now])
    requires !Admits(After(times, max, interval).window, max, now)
    ensures exists start ::
      now - interval <= start <= now && Within(After(times, max, interval).admitted, start, now) >= Peak(max)
  {
    var l := After(times, max, interval);
    var start := l.window.value.resetAt - interval;
    forall i, j | 0 <= i < j < |times| ensures times[i] <= times[j] {
      assert (times + [now])[i] <= (times + [now])[j];
    }
    if times != [] {
      assert (times + [now])[|times| - 1] <= (times + [now])[|times|];
    }
    EveryLedgerCounted(times, max, interval);
    assert UpTo(l, interval, now);
    SplitAt(l.admitted, start, now);
    assert Within(l.admitted, start, now) >= Peak(max);
  }

  // ---- The bound is met ----------------------------------------------------------------------

  function Repeat(t: int, n: nat): (s: seq<int>)
    ensures |s| == n && forall i :: 0 <= i < n ==> s[i] == t
  {
    seq(n, _ => t)
  }

  /** One call at 0, max-1 at the last instant of its window, and max right after it. */
  function Burst(max: nat, interval: int): seq<int>
    requires max >= 1
  {
    [0] + Repeat(interval, max - 1) + Repeat(interval + 1, max)
  }

  lemma CallAppended(times: seq<int>, max: int, interval: int, now: int)
    ensures After(times + [now], max, interval) == Step(After(times, max, interval), max, interval, now)
  {
  }

  lemma RepeatGrows(prefix: seq<int>, t: int, n: nat)
    requires n > 0
    ensures prefix + Repeat(t, n) == prefix + Repeat(t, n - 1) + [t]
  {
  }

  /** Calls inside an open window, up to its limit, are all admitted. */
  lemma {:induction false} FillsWindow(times: seq<int>, max: int, interval: int, t: int, k: nat)
    requires After(times, max, interval).window.Some?
    requires t <= After(times, max, interval).window.value.resetAt
    requires After(times, max, interval).window.value.count + k <= max
    ensures var l := After(times, max, interval);
            After(times + Repeat(t, k), max, interval)
            == Ledger(Some(RateWindow(l.window.value.count + k, l.window.value.resetAt)), l.admitted + Repeat(t, k))
  {
    if k == 0 {
      assert times + Repeat(t, 0) == times;
      assert After(times, max, interval).admitted + Repeat(t, 0) == After(times, max, interval).admitted;
    } else {
      FillsWindow(times, max, interval, t, k - 1);
      RepeatGrows(times, t, k);
      RepeatGrows(After(times, max, interval).admitted, t, k);
      CallAppended(times + Repeat(t, k - 1), max, interval, t);
    }
  }

  lemma {:induction false} WithinRepeat(ts: seq<int>, t: int, n: nat, lo: int, hi: int)
    requires lo <= t <= hi
    ensures Within(ts + Repeat(t, n), lo, hi) == Within(ts, lo, hi) + n
  {
    if n == 0 {
      assert ts + Repeat(t, 0) == ts;
    } else {
      WithinRepeat(ts, t, n - 1, lo, hi);
      RepeatGrows(ts, t, n);
      Appended(ts + Repeat(t, n - 1), t);
    }
  }

  /** Every call of the burst is admitted. */
  lemma BurstAdmitted(max: nat, interval: int)
    requires max >= 1 && interval >= 1
    ensures After(Burst(max, interval), max, interval).admitted == Burst(max, interval)
  {
    var opening, first := [0], [0] + Repeat(interval, max - 1);
    CallAppended([], max, interval, 0);
    assert [] + [0] == opening;
    assert After(opening, max, interval) == Ledger(Some(RateWindow(1, interval)), opening);
    FillsWindow(opening, max, interval, interval, max - 1);
    assert After(first, max, interval) == Ledger(Some(RateWindow(max, interval)), first);
    SecondWindow(first, max, interval);
  }

  lemma SecondWindow(first: seq<int>, max: nat, interval: int)
    requires max >= 1 && interval >= 1
    requires After(first, max, interval) == Ledger(Some(RateWindow(max, interval)), first)
    ensures After(first + Repeat(interval + 1, max), max, interval).admitted == first + Repeat(interval + 1, max)
  {
    var t := interval + 1;
    var second := first + [t];
    CallAppended(first, max, interval, t);
    FillsWindow(second, max, interval, t, max - 1);
    assert second + Repeat(t, max - 1) == first + Repeat(t, max);
  }

  lemma SpanBoundAttained(max: nat, interval: int)
    requires max >= 1 && interval >= 1
    ensures NonDecreasing(Burst(max, interval))
    ensures Within(After(Burst(max, interval), max, interval).admitted, 1, 1 + interval) == 2 * max - 1
  {
    BurstAdmitted(max, interval);
    WithinRepeat([0], interval, max - 1, 1, 1 + interval);
    WithinRepeat([0] + Repeat(interval, max - 1), interval + 1, max, 1, 1 + interval);
    assert Within([0], 1, 1 + interval) == 0;
  }

  predicate SpanKept(admitted: seq<int>, x: int, interval: int, max: int) {
    Within(admitted, x, x + interval) <= max
  }

  /** Every run keeps to `max` admissions in every closed span of length `interval`. */
  ghost predicate KeepsLimit(max: int, interval: int) {
    forall times, x :: NonDecreasing(times) ==> SpanKept(After(times, max, interval).admitted, x, interval, max)
  }

  /** The limit itself is kept, and not just less than twice of it, only by a limiter of one. */
  lemma LimitKeptIff(max: int, interval: int)
    requires interval >= 1
    ensures KeepsLimit(max, interval) <==> max == 1
  {
    if max == 1 {
      forall times, x | NonDecreasing(times)
        ensures SpanKept(After(times, max, interval).admitted, x, interval, max)
      {
        SpanBound(times, max, interval, x);
      }
    } else if max > 1 {
      SpanBoundAttained(max, interval);
      assert !SpanKept(After(Burst(max, interval), max, interval).admitted, 1, interval, max);
      assert !KeepsLimit(max, interval);
    } else {
      CallAppended([], max, interval, 0);
      Appended([], 0);
      assert [] + [0] == [0];
      assert NonDecreasing([0]) && !SpanKept(After([0], max, interval).admitted, 0, interval, max);
      assert !KeepsLimit(max, interval);
    }
  }

  // ---- The limiter ---------------------------------------------------------------------------

  function CallsOf(log: seq<(string, int)>, key: string): seq<int> {
    if log == [] then []
    else
      var n := |log| - 1;
      CallsOf(log[..n], key) + if log[n].0 == key then [log[n].1] else []
  }

  class RateLimiter {
    const max: int
    const interval: int
    var windows: map<string, RateWindow>
    ghost var log: seq<(string, int)>

    /** Every key's window is where its own calls alone would have brought it. */
    ghost predicate Valid()
      reads this
    {
      forall k :: Recorded(k) == After(CallsOf(log, k), max, interval).window
    }

    function Recorded(key: string): Option<RateWindow>
      reads this
    {
      if key in windows then Some(windows[key]) else None
    }

    constructor (max: int, interval: int)
      ensures Valid() && log == [] && this.max == max && this.interval == interval
    {
      this.max, this.interval := max, interval;
      windows, log := map[], [];
    }

    method Allow(key: string, now: int) returns (ok: bool)
      requires Valid()
      modifies this
      ensures Valid()
      ensures log == old(log) + [(key, now)]
      ensures ok == Admits(After(CallsOf(old(log), key), max, interval).window, max, now)
    {
      LogAppend(log, key, now, max, interval);
      ghost var w0 := Recorded(key);
      assert w0 == After(CallsOf(log, key), max, interval).window;
      ok := Decide(key, now);
      log := log + [(key, now)];
      forall k ensures Recorded(k) == After(CallsOf(log, k), max, interval).window {
        assert k != key ==> Recorded(k) == old(Recorded(k));
      }
    }

    method Decide(key: string, now: int) returns (ok: bool)
      modifies this`windows
      ensures ok == Admits(old(Recorded(key)), max, now)
      ensures Recorded(key) == Next(old(Recorded(key)), max, interval, now)
      ensures forall k :: k != key ==> Recorded(k) == old(Recorded(k))
    {
      if key !in windows || now > windows[key].resetAt {
        windows := windows[key := RateWindow(1, now + interval)];
        return true;
      }
      var w := windows[key];
      if w.count >= max {
        return false;
      }
      windows := windows[key := w.(count := w.count + 1)];
      return true;
    }
  }

  lemma LogAppend(log: seq<(string, int)>, key: string, now: int, max: int, interval: int)
    ensures forall k :: k != key ==> CallsOf(log + [(key, now)], k) == CallsOf(log, k)
    ensures After(CallsOf(log + [(key, now)], key), max, interval)
         == Step(After(CallsOf(log, key), max, interval), max, interval, now)
  {
  }
}
