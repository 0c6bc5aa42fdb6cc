/**
 The phi accrual failure detector, over the reals. The transcendental functions are parameters of which
 only sign, monotonicity and limits are used. Times are in milliseconds.
 */
module PhiDetector {
  import opened Document

  datatype Analysis = Analysis(exp: real -> real, log10: real -> real, sqrt: real -> real)

  /** The floor under 1 - P, ten to the minus one hundred. */
  const TINY: real :=
    0.0000000000000000000000000000000000000000000000000000000000000000000000000000000000000000000000000001

  const LOGISTIC: real := 1.5976

  ghost predicate Reaches(f: Analysis, e: real) {
    exists x: real :: f.exp(x) < e
  }

  ghost predicate Lawful(f: Analysis) {
    && (forall x: real :: f.exp(x) > 0.0)
    && (forall x: real, y: real :: x <= y ==> f.exp(x) <= f.exp(y))
    && (forall e: real :: e > 0.0 ==> Reaches(f, e))
    && (forall x: real, y: real :: 0.0 < x <= y ==> f.log10(x) <= f.log10(y))
    && f.log10(1.0) == 0.0 && f.log10(TINY) == -100.0
    && (forall x: real :: x >= 0.0 ==> f.sqrt(x) >= 0.0 && f.sqrt(x) * f.sqrt(x) == x)
  }

  function Max(a: real, b: real): real {
    if a < b then b else a
  }

  /** `duration_since`, which is zero for an earlier instant. */
  function Since(now: real, last: real): real {
    Max(now - last, 0.0)
  }

  function Sum(s: seq<real>): real {
    if s == [] then 0.0 else s[0] + Sum(s[1..])
  }

  function Mean(s: seq<real>): real {
    if s == [] then 0.0 else Sum(s) / (|s| as real)
  }

  function Deviations(s: seq<real>, mean: real): (d: seq<real>)
    ensures |d| == |s| && forall i :: 0 <= i < |s| ==> d[i] == (s[i] - mean) * (s[i] - mean)
  {
    seq(|s|, i requires 0 <= i < |s| => (s[i] - mean) * (s[i] - mean))
  }

  function StdDeviation(f: Analysis, s: seq<real>): real {
    if |s| < 2 then 0.0 else f.sqrt(Mean(Deviations(s, Mean(s))))
  }

  /** The logistic approximation of the normal distribution function. */
  function NormalCdf(f: Analysis, x: real): real
    requires 1.0 + f.exp(-LOGISTIC * x) != 0.0
  {
    1.0 / (1.0 + f.exp(-LOGISTIC * x))
  }

  /** The suspicion level at `y` deviations beyond the mean. */
  function Curve(f: Analysis, y: real): real
    requires 1.0 + f.exp(-LOGISTIC * y) != 0.0
  {
    -f.log10(Max(1.0 - NormalCdf(f, y), TINY))
  }

  /**
   The suspicion level of a silence. A zero deviation makes `y` infinite, or not a number when the silence
   equals the mean; the floor then turns both that and plus infinity into the greatest level.
   */
  function Suspicion(f: Analysis, intervals: seq<real>, minStd: real, elapsed: real): real
    requires forall x: real :: 1.0 + f.exp(x) != 0.0
  {
    var mean, sd := Mean(intervals), Max(StdDeviation(f, intervals), minStd);
    if sd > 0.0 then Curve(f, (elapsed - mean) / sd)
    else if elapsed >= mean then -f.log10(TINY)
    else -f.log10(1.0)
  }

  /** A window after one more interval. */
  function Push(window: seq<real>, limit: nat, interval: real): seq<real> {
    (if |window| >= limit && window != [] then window[1..] else window) + [interval]
  }

  class PhiAccrualDetector {
    const maxWindowSize: nat
    const minStd: real
    var intervals: seq<real>
    var lastHeartbeat: Option<real>
    var lastHeartbeatEpoch: Option<nat>

    constructor (maxWindowSize: nat, minStd: real)
      ensures this.maxWindowSize == maxWindowSize && this.minStd == minStd
      ensures intervals == [] && lastHeartbeat == None && lastHeartbeatEpoch == None
    {
      this.maxWindowSize, this.minStd := maxWindowSize, minStd;
      intervals, lastHeartbeat, lastHeartbeatEpoch := [], None, None;
    }

    method HeartbeatAt(now: real)
      modifies this`intervals, this`lastHeartbeat
      ensures (intervals, lastHeartbeat) == AfterBeat(old(intervals), old(lastHeartbeat), maxWindowSize, now)
    {
      if lastHeartbeat.Some? {
        var interval := Since(now, lastHeartbeat.value);
        if |intervals| >= maxWindowSize && intervals != [] {
          intervals := intervals[1..];
        }
        intervals := intervals + [interval];
      }
      lastHeartbeat := Some(now);
    }

    method Heartbeat(now: real, epoch: Option<nat>)
      modifies this
      ensures (intervals, lastHeartbeat) == AfterBeat(old(intervals), old(lastHeartbeat), maxWindowSize, now)
      ensures lastHeartbeatEpoch == epoch
    {
      lastHeartbeatEpoch := epoch;
      HeartbeatAt(now);
    }

    function PhiAt(f: Analysis, now: real): real
      requires forall x: real :: 1.0 + f.exp(x) != 0.0
      reads this
    {
      Phi(f, intervals, minStd, lastHeartbeat, now)
    }
  }

  function AfterBeat(window: seq<real>, last: Option<real>, limit: nat, now: real): (seq<real>, Option<real>) {
    (if last.Some? then Push(window, limit, Since(now, last.value)) else window, Some(now))
  }

  function Phi(f: Analysis, window: seq<real>, minStd: real, last: Option<real>, now: real): real
    requires forall x: real :: 1.0 + f.exp(x) != 0.0
  {
    if last.None? || |window| < 2 then 0.0 else Suspicion(f, window, minStd, Since(now, last.value))
  }

  // -- The window ---------------------------------------------------------------------------------

  /** The detector after a history of heartbeats. */
  function After(ts: seq<real>, limit: nat): (seq<real>, Option<real>)
    decreases |ts|
  {
    if ts == [] then ([], None)
    else
      var (window, last) := After(ts[..|ts| - 1], limit);
      AfterBeat(window, last, limit, ts[|ts| - 1])
  }

  function Gaps(ts: seq<real>): (g: seq<real>)
    ensures |g| == if ts == [] then 0 else |ts| - 1
    ensures forall i {:trigger g[i]} :: 0 <= i < |g| ==> g[i] == Since(ts[i + 1], ts[i])
  {
    if ts == [] then [] else seq(|ts| - 1, i requires 0 <= i < |ts| - 1 => Since(ts[i + 1], ts[i]))
  }

  /** How many gaps the window keeps after `n` of them; a limit of 0 still keeps one. */
  function Kept(n: nat, limit: nat): nat {
    var most := if limit == 0 then 1 else limit;
    if n < most then n else most
  }

  lemma PushKeeps(gaps: seq<real>, limit: nat, x: real)
    ensures Push(gaps[|gaps| - Kept(|gaps|, limit)..], limit, x)
         == (gaps + [x])[|gaps| + 1 - Kept(|gaps| + 1, limit)..]
  {
    var k, more := Kept(|gaps|, limit), gaps + [x];
    var window := gaps[|gaps| - k..];
    if k >= limit && k > 0 {
      assert window[1..] == gaps[|gaps| - k + 1..];
      assert more[|gaps| + 1 - k..] == gaps[|gaps| - k + 1..] + [x];
    } else {
      assert window == gaps;
    }
  }

  lemma GapsStep(ts: seq<real>)
    requires |ts| >= 2
    ensures Gaps(ts) == Gaps(ts[..|ts| - 1]) + [Since(ts[|ts| - 1], ts[|ts| - 2])]
  {
  }

  /** Window refinement: the window is the last gaps of the history, in order. */
  lemma {:induction false} WindowIsLastGaps(ts: seq<real>, limit: nat)
    requires ts != []
    ensures var gaps := Gaps(ts);
      After(ts, limit) == (gaps[|gaps| - Kept(|gaps|, limit)..], Some(ts[|ts| - 1]))
    decreases |ts|
  {
    var before, now := ts[..|ts| - 1], ts[|ts| - 1];
    if |ts| == 1 {
      assert After(before, limit) == ([], None);
    } else {
      WindowIsLastGaps(before, limit);
      GapsStep(ts);
      PushKeeps(Gaps(before), limit, Since(now, ts[|ts| - 2]));
    }
  }

  /**
   The window gap by gap: it holds as many of the last gaps as there are, up to the limit and at least up to one, the
   latest at its end, and a heartbeat that is earlier than the one before counts as no gap.
   */
  lemma WindowExact(ts: seq<real>, limit: nat)
    requires ts != []
    ensures After(ts, limit).1 == Some(ts[|ts| - 1])
    ensures var window, n, most := After(ts, limit).0, |ts| - 1, if limit >= 1 then limit else 1;
      && |window| <= n && |window| <= most && (|window| == n || |window| == most)
      && forall i :: 0 <= i < |window| ==>
           var k := n - |window| + i;
           window[i] == if ts[k + 1] >= ts[k] then ts[k + 1] - ts[k] else 0.0
  {
    WindowIsLastGaps(ts, limit);
  }

  ghost predicate Nondecreasing(ts: seq<real>) {
    forall i, j :: 0 <= i <= j < |ts| ==> ts[i] <= ts[j]
  }

  lemma {:induction false} GapsTelescope(ts: seq<real>, i: nat)
    requires i < |ts| && Nondecreasing(ts)
    ensures Sum(Gaps(ts)[i..]) == ts[|ts| - 1] - ts[i]
    decreases |ts| - i
  {
    var gaps := Gaps(ts);
    if i < |ts| - 1 {
      assert gaps[i..][0] == gaps[i] && gaps[i..][1..] == gaps[i + 1..];
      GapsTelescope(ts, i + 1);
    }
  }

  lemma MeanOf(s: seq<real>, k: nat, d: real)
    requires |s| == k > 0 && Sum(s) == d
    ensures Mean(s) == d / (k as real)
  {
  }

  /** For heartbeats in order, the mean over the window is the time they span divided by their number. */
  lemma MeanTelescopes(ts: seq<real>, limit: nat)
    requires |ts| >= 2 && Nondecreasing(ts)
    ensures var n := |ts| - 1;
      var k := Kept(n, limit);
      k > 0 && Mean(After(ts, limit).0) == (ts[n] - ts[n - k]) / (k as real)
  {
    var n := |ts| - 1;
    var k := Kept(n, limit);
    WindowSpans(ts, limit);
    MeanOf(After(ts, limit).0, k, ts[n] - ts[n - k]);
  }

  lemma WindowSpans(ts: seq<real>, limit: nat)
    requires |ts| >= 2 && Nondecreasing(ts)
    ensures var n := |ts| - 1;
      var k := Kept(n, limit);
      k > 0 && |After(ts, limit).0| == k && Sum(After(ts, limit).0) == ts[n] - ts[n - k]
  {
    WindowIsLastGaps(ts, limit);
    GapsTelescope(ts, |ts| - 1 - Kept(|ts| - 1, limit));
  }

  /** No suspicion before the third heartbeat, and none ever with a window of at most one. */
  lemma NoEarlySuspicion(f: Analysis, ts: seq<real>, limit: nat, minStd: real, now: real)
    requires Lawful(f) && (|ts| <= 2 || limit <= 1)
    ensures Phi(f, After(ts, limit).0, minStd, After(ts, limit).1, now) == 0.0
  {
    if ts != [] {
      WindowIsLastGaps(ts, limit);
    }
  }

  // -- The curve ----------------------------------------------------------------------------------

  lemma DivideMonotone(a: real, b: real, d: real)
    requires a <= b && d > 0.0
    ensures a / d <= b / d
  {
  }

  lemma ReciprocalAntitone(a: real, b: real)
    requires 0.0 < a <= b
    ensures 1.0 / b <= 1.0 / a
  {
    var r := 1.0 / b;
    assert r * b == 1.0 && r > 0.0;
    assert r * a <= r * b;
    DivideMonotone(r * a, 1.0, a);
    assert r * a / a == r;
  }

  lemma CdfMonotone(f: Analysis, x: real, y: real)
    requires Lawful(f) && x <= y
    ensures 0.0 < NormalCdf(f, x) <= NormalCdf(f, y)
  {
    var u, v := f.exp(-LOGISTIC * x), f.exp(-LOGISTIC * y);
    assert -LOGISTIC * y <= -LOGISTIC * x;
    assert 0.0 < v <= u;
    ReciprocalAntitone(1.0 + v, 1.0 + u);
  }

  /** The curve rises with the silence and stays between 0 and 100. */
  lemma CurveShape(f: Analysis, x: real, y: real)
    requires Lawful(f) && x <= y
    ensures 0.0 <= Curve(f, x) <= Curve(f, y) <= 100.0
  {
    CdfMonotone(f, x, y);
    var a, b := Max(1.0 - NormalCdf(f, x), TINY), Max(1.0 - NormalCdf(f, y), TINY);
    assert TINY <= b <= a <= 1.0;
    assert f.log10(TINY) <= f.log10(b) <= f.log10(a) <= f.log10(1.0);
  }

  /** With no new heartbeat the level never falls, and it stays between 0 and 100, whatever the settings. */
  lemma PhiMonotoneAndBounded(f: Analysis, window: seq<real>, minStd: real, last: Option<real>, t: real, u: real)
    requires Lawful(f) && t <= u
    ensures 0.0 <= Phi(f, window, minStd, last, t) <= Phi(f, window, minStd, last, u) <= 100.0
  {
    if last.Some? && |window| >= 2 {
      var mean, sd := Mean(window), Max(StdDeviation(f, window), minStd);
      if sd > 0.0 {
        var d, e := Since(t, last.value) - mean, Since(u, last.value) - mean;
        DivideMonotone(d, e, sd);
        CurveShape(f, d / sd, e / sd);
      }
    }
  }

  /** The session loop declares a peer dead when the level exceeds the threshold; from 100 up it never does. */
  lemma HighThresholdNeverFires(f: Analysis, window: seq<real>, minStd: real, last: Option<real>, t: real,
                                threshold: real)
    requires Lawful(f) && threshold >= 100.0
    ensures !(Phi(f, window, minStd, last, t) > threshold)
  {
    PhiMonotoneAndBounded(f, window, minStd, last, t, t);
  }

  /** Far enough out, the floor under 1 - P takes over. */
  lemma SteepCurve(f: Analysis) returns (y: real)
    requires Lawful(f)
    ensures Curve(f, y) == 100.0
  {
    var b := 1.0 / (1.0 - TINY);
    assert b > 1.0 && 1.0 / b == 1.0 - TINY;
    assert Reaches(f, b - 1.0);
    var x: real :| f.exp(x) < b - 1.0;
    y := -x / LOGISTIC;
    assert -LOGISTIC * y == x;
    ReciprocalAntitone(1.0 + f.exp(x), b);
  }

  ghost predicate Beyond(elapsed: real, mean: real, sd: real, y: real)
    requires sd > 0.0
  {
    y <= (elapsed - mean) / sd
  }

  lemma BeyondFrom(elapsed: real, mean: real, sd: real, y: real)
    requires sd > 0.0 && mean + sd * y <= elapsed
    ensures Beyond(elapsed, mean, sd, y)
  {
    DivideMonotone(sd * y, elapsed - mean, sd);
  }

  /** The silence from which a window's level is `y` deviations out. */
  lemma BeyondSomewhere(mean: real, sd: real, y: real) returns (b: real)
    requires sd > 0.0
    ensures forall e: real :: b <= e ==> Beyond(e, mean, sd, y)
  {
    b := mean + sd * y;
    forall e: real | b <= e ensures Beyond(e, mean, sd, y) {
      BeyondFrom(e, mean, sd, y);
    }
  }

  lemma SuspectedFrom(f: Analysis, window: seq<real>, minStd: real) returns (b: real)
    requires Lawful(f)
    ensures forall e: real :: b <= e ==> Suspicion(f, window, minStd, e) == 100.0
  {
    var mean, sd := Mean(window), Max(StdDeviation(f, window), minStd);
    if sd > 0.0 {
      var y := SteepCurve(f);
      b := BeyondSomewhere(mean, sd, y);
      forall e: real | b <= e ensures Suspicion(f, window, minStd, e) == 100.0 {
        assert Beyond(e, mean, sd, y);
        CurveShape(f, y, (e - mean) / sd);
      }
    } else {
      b := mean;
    }
  }

  /** With two samples, silence goes on to exceed every threshold below 100, and then stays above it. */
  lemma SilenceIsSuspected(f: Analysis, window: seq<real>, minStd: real, last: real, threshold: real) returns (t: real)
    requires Lawful(f) && |window| >= 2 && threshold < 100.0
    ensures forall u: real :: t <= u ==> Phi(f, window, minStd, Some(last), u) > threshold
  {
    var b := SuspectedFrom(f, window, minStd);
    t := last + b;
    forall u: real | t <= u ensures Phi(f, window, minStd, Some(last), u) > threshold {
      assert b <= Since(u, last);
    }
  }

  // -- A band of jitter ---------------------------------------------------------------------------

  lemma {:induction false} SumAtLeast(s: seq<real>, low: real)
    requires forall i :: 0 <= i < |s| ==> low <= s[i]
    ensures low * (|s| as real) <= Sum(s)
    decreases |s|
  {
    if s != [] {
      SumAtLeast(s[1..], low);
      assert low * (|s| as real) == low + low * (|s[1..]| as real);
    }
  }

  lemma MeanAtLeast(s: seq<real>, low: real)
    requires s != [] && forall i :: 0 <= i < |s| ==> low <= s[i]
    ensures low <= Mean(s)
  {
    var n := |s| as real;
    SumAtLeast(s, low);
    DivideMonotone(low * n, Sum(s), n);
    assert low * n / n == low;
  }

  lemma {:induction false} SumAtMost(s: seq<real>, high: real)
    requires forall i :: 0 <= i < |s| ==> s[i] <= high
    ensures Sum(s) <= high * (|s| as real)
    decreases |s|
  {
    if s != [] {
      SumAtMost(s[1..], high);
      assert high * (|s| as real) == high + high * (|s[1..]| as real);
    }
  }

  lemma MeanAtMost(s: seq<real>, high: real)
    requires s != [] && forall i :: 0 <= i < |s| ==> s[i] <= high
    ensures Mean(s) <= high
  {
    var n := |s| as real;
    SumAtMost(s, high);
    DivideMonotone(Sum(s), high * n, n);
    assert high * n / n == high;
  }

  lemma SquareBound(x: real, w: real)
    requires -w <= x <= w
    ensures 0.0 <= x * x <= w * w
  {
    var y := if x >= 0.0 then x else -x;
    SquareMonotone(y, w);
    assert y * y == x * x;
  }

  lemma SquareMonotone(a: real, b: real)
    requires 0.0 <= a <= b
    ensures 0.0 <= a * a <= b * b
  {
    Scale(0.0, a, a);
    Scale(a, b, a);
    Scale(a, b, b);
  }

  lemma Scale(a: real, b: real, c: real)
    requires a <= b && c >= 0.0
    ensures a * c <= b * c && c * a <= c * b
  {
  }

  lemma RootBound(r: real, w: real)
    requires 0.0 <= r && 0.0 <= w && r * r <= w * w
    ensures r <= w
  {
    if w < r {
      SquareLess(w, r);
    }
  }

  lemma SquareLess(a: real, b: real)
    requires 0.0 <= a < b
    ensures a * a < b * b
  {
    SquareOfSum(a, b - a);
  }

  lemma SquareOfSum(a: real, d: real)
    requires 0.0 <= a && 0.0 < d
    ensures a * a < (a + d) * (a + d)
  {
    Scale(0.0, a, d);
    PositiveProduct(d, d);
    assert (a + d) * (a + d) == a * a + 2.0 * (a * d) + d * d;
  }

  lemma PositiveProduct(a: real, b: real)
    requires 0.0 < a && 0.0 < b
    ensures 0.0 < a * b
  {
  }

  /** Intervals within a band of width `w` deviate by at most `w`; perfectly uniform ones not at all. */
  lemma DeviationInBand(f: Analysis, s: seq<real>, low: real, w: real)
    requires Lawful(f) && w >= 0.0 && forall i :: 0 <= i < |s| ==> low <= s[i] <= low + w
    ensures 0.0 <= StdDeviation(f, s) <= w
  {
    if |s| >= 2 {
      var mean := Mean(s);
      var d := Deviations(s, mean);
      MeanAtLeast(s, low);
      MeanAtMost(s, low + w);
      forall i | 0 <= i < |d| ensures 0.0 <= d[i] <= w * w {
        SquareBound(s[i] - mean, w);
      }
      MeanAtLeast(d, 0.0);
      MeanAtMost(d, w * w);
      RootBound(f.sqrt(Mean(d)), w);
    }
  }

  lemma RatioAtLeast(d: real, sd: real, m: real, y: real)
    requires 0.0 < sd <= m && y >= 0.0 && y * m <= d
    ensures y <= d / sd
  {
    Scale(sd, m, y);
    DivideMonotone(y * sd, d, sd);
    Cancelled(y, sd);
  }

  lemma Cancelled(y: real, n: real)
    requires n > 0.0
    ensures y * n / n == y
  {
  }

  /**
   Silence well beyond the band is noticed: if all gaps of a history lie in a band of width `w` and the
   silence exceeds the band by `y` times the band's width or the floor, whichever is greater, then the level
   is at least the curve's value at `y`.
   */
  lemma SilenceIsNoticed(f: Analysis, ts: seq<real>, limit: nat, minStd: real, now: real, low: real, w: real, y: real)
    requires Lawful(f) && minStd > 0.0 && w >= 0.0 && y >= 0.0 && |ts| >= 3 && limit >= 2
    requires forall i :: 0 <= i < |Gaps(ts)| ==> low <= Gaps(ts)[i] <= low + w
    requires Since(now, ts[|ts| - 1]) >= low + w + y * Max(w, minStd)
    ensures Curve(f, y) <= Phi(f, After(ts, limit).0, minStd, After(ts, limit).1, now)
  {
    var gaps := Gaps(ts);
    var window := gaps[|gaps| - Kept(|gaps|, limit)..];
    WindowIsLastGaps(ts, limit);
    NoticedBeyondBand(f, window, minStd, Since(now, ts[|ts| - 1]), low, w, y);
  }

  lemma NoticedBeyondBand(f: Analysis, window: seq<real>, minStd: real, elapsed: real, low: real, w: real, y: real)
    requires Lawful(f) && minStd > 0.0 && w >= 0.0 && y >= 0.0 && |window| >= 2
    requires forall i :: 0 <= i < |window| ==> low <= window[i] <= low + w
    requires elapsed >= low + w + y * Max(w, minStd)
    ensures Curve(f, y) <= Suspicion(f, window, minStd, elapsed)
  {
    MeanAtMost(window, low + w);
    DeviationInBand(f, window, low, w);
    var mean, sd := Mean(window), Max(StdDeviation(f, window), minStd);
    RatioAtLeast(elapsed - mean, sd, Max(w, minStd), y);
    CurveShape(f, y, (elapsed - mean) / sd);
  }

  /**
   No false suspicion within a jitter band: if all gaps of a heartbeat history lie in a band of width `w` and
   the present silence does not go beyond it, the level is at most the curve's value at `w` over the floor of
   the deviation.
   */
  lemma JitterIsTolerated(f: Analysis, ts: seq<real>, limit: nat, minStd: real, now: real, low: real, w: real)
    requires Lawful(f) && minStd > 0.0 && w >= 0.0 && ts != []
    requires forall i :: 0 <= i < |Gaps(ts)| ==> low <= Gaps(ts)[i] <= low + w
    requires Since(now, ts[|ts| - 1]) <= low + w
    ensures Phi(f, After(ts, limit).0, minStd, After(ts, limit).1, now) <= Curve(f, w / minStd)
  {
    var gaps := Gaps(ts);
    var window := gaps[|gaps| - Kept(|gaps|, limit)..];
    WindowIsLastGaps(ts, limit);
    if |window| >= 2 {
      SuspicionInBand(f, window, minStd, Since(now, ts[|ts| - 1]), low, w);
    } else {
      CurveAboveZero(f, w, minStd);
    }
  }

  lemma CurveAboveZero(f: Analysis, w: real, minStd: real)
    requires Lawful(f) && minStd > 0.0
    ensures 0.0 <= Curve(f, w / minStd)
  {
    CurveShape(f, w / minStd, w / minStd);
  }

  lemma SuspicionInBand(f: Analysis, window: seq<real>, minStd: real, elapsed: real, low: real, w: real)
    requires Lawful(f) && minStd > 0.0 && w >= 0.0 && |window| >= 2 && elapsed <= low + w
    requires forall i :: 0 <= i < |window| ==> low <= window[i]
    ensures Suspicion(f, window, minStd, elapsed) <= Curve(f, w / minStd)
  {
    MeanAtLeast(window, low);
    var mean, sd := Mean(window), Max(StdDeviation(f, window), minStd);
    DivideMonotone(elapsed - mean, w, sd);
    WiderIsLess(w, minStd, sd);
    CurveShape(f, (elapsed - mean) / sd, w / minStd);
  }

  lemma WiderIsLess(w: real, a: real, b: real)
    requires w >= 0.0 && 0.0 < a <= b
    ensures w / b <= w / a
  {
    ReciprocalAntitone(a, b);
    assert w / b == w * (1.0 / b) && w / a == w * (1.0 / a);
  }

  // -- The deviation, exactly -----------------------------------------------------------------------

  function SumOfSquares(s: seq<real>): real {
    if s == [] then 0.0 else s[0] * s[0] + SumOfSquares(s[1..])
  }

  function Squares(s: seq<real>): (q: seq<real>)
    ensures |q| == |s| && forall i :: 0 <= i < |s| ==> q[i] == s[i] * s[i]
  {
    seq(|s|, i requires 0 <= i < |s| => s[i] * s[i])
  }

  function Scaled(s: seq<real>, m: real): (q: seq<real>)
    ensures |q| == |s| && forall i :: 0 <= i < |s| ==> q[i] == m * s[i]
  {
    seq(|s|, i requires 0 <= i < |s| => m * s[i])
  }

  function Repeated(n: nat, c: real): (q: seq<real>)
    ensures |q| == n && forall i :: 0 <= i < n ==> q[i] == c
  {
    seq(n, i => c)
  }

  lemma {:induction false} SquaresSum(s: seq<real>)
    ensures Sum(Squares(s)) == SumOfSquares(s)
    decreases |s|
  {
    if s != [] {
      SquaresSum(s[1..]);
      forall i | 0 <= i < |s| - 1 ensures Squares(s)[1..][i] == Squares(s[1..])[i] {
        assert s[1..][i] == s[i + 1];
      }
      assert Squares(s)[1..] == Squares(s[1..]);
    }
  }

  lemma ScaledTail(s: seq<real>, m: real)
    requires s != []
    ensures Sum(Scaled(s, m)) == m * s[0] + Sum(Scaled(s[1..], m))
  {
    forall i | 0 <= i < |s| - 1 ensures Scaled(s, m)[1..][i] == Scaled(s[1..], m)[i] {
      assert s[1..][i] == s[i + 1];
    }
    assert Scaled(s, m)[1..] == Scaled(s[1..], m);
  }

  lemma {:induction false} ScaledSum(s: seq<real>, m: real)
    ensures Sum(Scaled(s, m)) == m * Sum(s)
    decreases |s|
  {
    if s != [] {
      ScaledTail(s, m);
      ScaledSum(s[1..], m);
      Distribute(s[0], Sum(s[1..]), Sum(s), m);
    }
  }

  lemma {:induction false} RepeatedSum(n: nat, c: real)
    ensures Sum(Repeated(n, c)) == c * (n as real)
    decreases n
  {
    if n > 0 {
      RepeatedSum(n - 1, c);
      assert Repeated(n, c)[1..] == Repeated(n - 1, c);
      Distribute(1.0, (n - 1) as real, n as real, c);
    }
  }

  lemma Distribute(x: real, y: real, z: real, m: real)
    requires z == x + y
    ensures m * z == m * x + m * y
  {
  }

  lemma {:induction false} SumsAddUp(d: seq<real>, q: seq<real>, l: seq<real>, c: seq<real>)
    requires |d| == |q| == |l| == |c| && forall i :: 0 <= i < |d| ==> d[i] == q[i] - 2.0 * l[i] + c[i]
    ensures Sum(d) == Sum(q) - 2.0 * Sum(l) + Sum(c)
    decreases |d|
  {
    if d != [] {
      SumsAddUp(d[1..], q[1..], l[1..], c[1..]);
    }
  }

  lemma SquareOfDifference(x: real, m: real)
    ensures (x - m) * (x - m) == x * x - 2.0 * (m * x) + m * m
  {
  }

  lemma Quotient(a: real, n: real)
    requires n != 0.0
    ensures a / n * n == a
  {
  }

  /** Sums of squared differences, where `d`, `q` and `l` are the differences, the squares and `m` times the samples. */
  lemma SumsAround(d: seq<real>, q: seq<real>, l: seq<real>, mm: real, ms: real)
    requires |d| == |q| == |l| && forall i :: 0 <= i < |d| ==> d[i] == q[i] - 2.0 * l[i] + mm
    requires Sum(l) == ms && Sum(Repeated(|d|, mm)) == ms
    ensures Sum(d) == Sum(q) - ms
  {
    SumsAddUp(d, q, l, Repeated(|d|, mm));
  }

  lemma Differences(s: seq<real>, m: real, mm: real)
    requires mm == m * m
    ensures forall i :: 0 <= i < |s| ==> Deviations(s, m)[i] == Squares(s)[i] - 2.0 * Scaled(s, m)[i] + mm
  {
    forall i | 0 <= i < |s|
      ensures Deviations(s, m)[i] == Squares(s)[i] - 2.0 * Scaled(s, m)[i] + mm
    {
      SquareOfDifference(s[i], m);
    }
  }

  /** The sum of the squared differences from the mean. */
  lemma SumAround(s: seq<real>, m: real, mm: real, ms: real)
    requires Sum(Scaled(s, m)) == ms && Sum(Repeated(|s|, mm)) == ms && mm == m * m
    ensures Sum(Deviations(s, m)) == Sum(Squares(s)) - ms
  {
    Differences(s, m, mm);
    SumsAround(Deviations(s, m), Squares(s), Scaled(s, m), mm, ms);
  }

  lemma MeanDeviationPositive(s: seq<real>, m: real)
    requires s != []
    ensures Mean(Deviations(s, m)) >= 0.0
  {
    var d := Deviations(s, m);
    forall i | 0 <= i < |d| ensures d[i] >= 0.0 {
      SquareIsPositive(s[i] - m);
    }
    MeanAtLeast(d, 0.0);
  }

  lemma SquareIsPositive(x: real)
    ensures x * x >= 0.0
  {
    if x >= 0.0 {
      Scale(0.0, x, x);
    } else {
      Scale(0.0, -x, -x);
      assert (-x) * (-x) == x * x;
    }
  }

  lemma RootTimes(sd: real, v: real, n: real, d: real)
    requires n > 0.0 && sd * sd == v && v == d / n
    ensures sd * sd * n == d
  {
    Quotient(d, n);
  }

  lemma StdSquared(f: Analysis, s: seq<real>)
    requires Lawful(f) && |s| >= 2
    ensures StdDeviation(f, s) >= 0.0
    ensures StdDeviation(f, s) * StdDeviation(f, s) == Mean(Deviations(s, Mean(s)))
  {
    MeanDeviationPositive(s, Mean(s));
  }

  lemma ScaledIs(s: seq<real>, m: real, ms: real)
    requires ms == m * Sum(s)
    ensures Sum(Scaled(s, m)) == ms
  {
    ScaledSum(s, m);
  }

  lemma SumAroundMean(s: seq<real>, m: real, ms: real)
    requires Sum(Repeated(|s|, m)) == Sum(s) && ms == m * Sum(s)
    ensures Sum(Deviations(s, m)) == SumOfSquares(s) - ms
  {
    ScaledIs(s, m, ms);
    RepeatedPart(s, m, m * m, ms);
    SumAroundSquares(s, m, m * m, ms);
  }

  lemma RepeatedPart(s: seq<real>, m: real, mm: real, ms: real)
    requires Sum(Repeated(|s|, m)) == Sum(s) && mm == m * m && ms == m * Sum(s)
    ensures Sum(Repeated(|s|, mm)) == ms
  {
    RepeatedScales(Repeated(|s|, m), m, mm, ms, Sum(s));
  }

  /** The mean in place of every sample gives the same sum. */
  lemma MeanRepeats(s: seq<real>, m: real)
    requires m * (|s| as real) == Sum(s)
    ensures Sum(Repeated(|s|, m)) == Sum(s)
  {
    RepeatedSum(|s|, m);
  }

  lemma RepeatedScales(r: seq<real>, m: real, mm: real, ms: real, sum: real)
    requires (forall i :: 0 <= i < |r| ==> r[i] == m) && mm == m * m && Sum(r) == sum && ms == m * sum
    ensures Sum(Repeated(|r|, mm)) == ms
  {
    ScaledSum(r, m);
    forall i | 0 <= i < |r| ensures Scaled(r, m)[i] == Repeated(|r|, mm)[i] {
      assert r[i] == m;
    }
    SameSamples(Scaled(r, m), Repeated(|r|, mm));
  }

  lemma SameSamples(a: seq<real>, b: seq<real>)
    requires |a| == |b| && forall i :: 0 <= i < |a| ==> a[i] == b[i]
    ensures a == b
  {
  }

  lemma SumAroundSquares(s: seq<real>, m: real, mm: real, ms: real)
    requires Sum(Scaled(s, m)) == ms && Sum(Repeated(|s|, mm)) == ms && mm == m * m
    ensures Sum(Deviations(s, m)) == SumOfSquares(s) - ms
  {
    SumAround(s, m, mm, ms);
    SquaresSum(s);
  }

  lemma RootOfMean(d: seq<real>, sd: real)
    requires d != [] && sd * sd == Mean(d)
    ensures sd * sd * (|d| as real) == Sum(d)
  {
    RootTimes(sd, Mean(d), |d| as real, Sum(d));
  }

  lemma DeviationFrom(s: seq<real>, m: real, sd: real, total: real)
    requires s != [] && sd * sd == Mean(Deviations(s, m)) && Sum(Deviations(s, m)) == total
    ensures sd * sd * (|s| as real) == total
  {
    RootOfMean(Deviations(s, m), sd);
  }

  lemma MeanUnique(s: seq<real>, m: real)
    requires s != [] && m * (|s| as real) == Sum(s)
    ensures m == Mean(s)
  {
    QuotientUnique(m, Sum(s), |s| as real);
  }

  lemma QuotientUnique(m: real, sum: real, n: real)
    requires n != 0.0 && m * n == sum
    ensures m == sum / n
  {
  }

  lemma StdAround(f: Analysis, s: seq<real>, m: real)
    requires Lawful(f) && |s| >= 2 && m * (|s| as real) == Sum(s)
    ensures StdDeviation(f, s) * StdDeviation(f, s) == Mean(Deviations(s, m))
  {
    MeanUnique(s, m);
    StdSquared(f, s);
  }

  /**
   The deviation of the whole population: where `m` times the number of samples is their sum, the squared deviation
   times the number of samples, `x`, is the sum of their squares less `m` times their sum, `ms`.
   */
  lemma DeviationExact(f: Analysis, s: seq<real>, m: real, ms: real, x: real)
    requires Lawful(f) && |s| >= 2 && m * (|s| as real) == Sum(s) && ms == m * Sum(s)
    requires x == StdDeviation(f, s) * StdDeviation(f, s) * (|s| as real)
    ensures x == SumOfSquares(s) - ms
  {
    MeanRepeats(s, m);
    StdAround(f, s, m);
    DeviationTotal(f, s, m, Sum(Deviations(s, m)));
    SpreadIs(s, m, ms, x);
  }

  lemma SpreadIs(s: seq<real>, m: real, ms: real, x: real)
    requires Sum(Repeated(|s|, m)) == Sum(s) && x == Sum(Deviations(s, m)) && ms == m * Sum(s)
    ensures x == SumOfSquares(s) - ms
  {
    SumAroundMean(s, m, ms);
  }

  lemma DeviationTotal(f: Analysis, s: seq<real>, m: real, total: real)
    requires s != [] && Sum(Deviations(s, m)) == total
    requires StdDeviation(f, s) * StdDeviation(f, s) == Mean(Deviations(s, m))
    ensures StdDeviation(f, s) * StdDeviation(f, s) * (|s| as real) == total
  {
    DeviationFrom(s, m, StdDeviation(f, s), total);
  }

  lemma {:induction false} SumIsZero(s: seq<real>)
    requires forall i :: 0 <= i < |s| ==> s[i] >= 0.0
    ensures Sum(s) >= 0.0 && (Sum(s) == 0.0 <==> forall i :: 0 <= i < |s| ==> s[i] == 0.0)
    decreases |s|
  {
    if s != [] {
      SumIsZero(s[1..]);
      assert forall i :: 1 <= i < |s| ==> s[i] == s[1..][i - 1];
    }
  }

  lemma SquareIsZero(x: real)
    ensures x * x == 0.0 <==> x == 0.0
  {
    if x * x == 0.0 {
      RootBound(if x >= 0.0 then x else -x, 0.0);
    }
  }

  lemma QuotientIsZero(a: real, n: real)
    requires n > 0.0
    ensures a / n == 0.0 <==> a == 0.0
  {
    Quotient(a, n);
  }

  lemma DeviationsZero(s: seq<real>, m: real)
    requires s != []
    ensures Mean(Deviations(s, m)) == 0.0 <==> forall i :: 0 <= i < |s| ==> s[i] == m
  {
    var d := Deviations(s, m);
    forall i | 0 <= i < |d| ensures d[i] >= 0.0 && (d[i] == 0.0 <==> s[i] == m) {
      SquareIsPositive(s[i] - m);
      SquareIsZero(s[i] - m);
    }
    SumIsZero(d);
    QuotientIsZero(Sum(d), |d| as real);
  }

  /** There is no deviation exactly where all samples are equal. */
  lemma NoDeviationIff(f: Analysis, s: seq<real>)
    requires Lawful(f) && |s| >= 2
    ensures StdDeviation(f, s) == 0.0 <==> forall i, j :: 0 <= i < j < |s| ==> s[i] == s[j]
  {
    var v := Mean(Deviations(s, Mean(s)));
    MeanDeviationPositive(s, Mean(s));
    SquareIsZero(f.sqrt(v));
    DeviationsZero(s, Mean(s));
    if forall i, j :: 0 <= i < j < |s| ==> s[i] == s[j] {
      assert forall i :: 0 <= i < |s| ==> s[i] == s[0];
      MeanAtLeast(s, s[0]);
      MeanAtMost(s, s[0]);
    }
  }

  lemma RootUnique(x: real, y: real)
    requires x >= 0.0 && y >= 0.0 && x * x == y * y
    ensures x == y
  {
    RootBound(x, y);
    RootBound(y, x);
  }

  lemma HalfDistance(a: real, b: real, m: real, ms: real, h: real, sd: real, x: real)
    requires h == (a - b) / 2.0 || h == (b - a) / 2.0
    requires m == (a + b) / 2.0 && ms == m * (a + b) && x == sd * sd * 2.0 && x == a * a + b * b - ms
    ensures sd * sd == h * h
  {
    assert ms == (a * a + 2.0 * (b * a) + b * b) / 2.0;
    HalfSquare(a, b, h);
  }

  lemma HalfSquare(a: real, b: real, h: real)
    requires h == (a - b) / 2.0 || h == (b - a) / 2.0
    ensures h * h * 4.0 == a * a - 2.0 * (b * a) + b * b
  {
  }

  lemma SumsOfTwo(a: real, b: real)
    ensures Sum([a, b]) == a + b && SumOfSquares([a, b]) == a * a + b * b
  {
    assert [a, b][1..] == [b] && [b][1..] == [];
    assert Sum([b]) == b && SumOfSquares([b]) == b * b;
  }

  lemma DeviationOfTwo(f: Analysis, a: real, b: real, s: seq<real>, m: real, ms: real, x: real)
    requires Lawful(f) && s == [a, b] && m == (a + b) / 2.0 && ms == m * (a + b)
    requires x == StdDeviation(f, s) * StdDeviation(f, s) * 2.0
    ensures x == a * a + b * b - ms
  {
    SumsOfTwo(a, b);
    DeviationExact(f, s, m, ms, x);
  }

  /** Two samples deviate by half their distance. */
  lemma TwoSamples(f: Analysis, a: real, b: real)
    requires Lawful(f)
    ensures StdDeviation(f, [a, b]) == (if a <= b then b - a else a - b) / 2.0
  {
    TwoSamplesNamed(f, a, b, (if a <= b then b - a else a - b) / 2.0, StdDeviation(f, [a, b]));
  }

  lemma TwoSamplesNamed(f: Analysis, a: real, b: real, half: real, sd: real)
    requires Lawful(f) && sd == StdDeviation(f, [a, b]) && half == (if a <= b then b - a else a - b) / 2.0
    ensures sd == half
  {
    var m := (a + b) / 2.0;
    var ms, x := m * (a + b), sd * sd * 2.0;
    StdSquared(f, [a, b]);
    DeviationOfTwo(f, a, b, [a, b], m, ms, x);
    HalfDistance(a, b, m, ms, half, sd, x);
    RootUnique(sd, half);
  }

  // -- The level, exactly ---------------------------------------------------------------------------

  /** The floor under 1 - P is ten to the minus one hundred. */
  lemma TinyExact()
    ensures TINY
      * 10000000000000000000000000000000000000000000000000000000000000000000000000000000000000000000000000000.0 == 1.0
  {
  }

  /**
   The level spelled out: `y` is how many deviations, but no less than the floor, the silence is beyond the mean of the
   gaps, `p` the logistic probability at `y`, and the level the negative logarithm of the rest, down to the least.
   */
  lemma LevelExact(f: Analysis, window: seq<real>, minStd: real, last: real, now: real) returns (y: real, p: real)
    requires Lawful(f) && |window| >= 2 && (minStd > 0.0 || StdDeviation(f, window) > 0.0)
    ensures var sd := if StdDeviation(f, window) < minStd then minStd else StdDeviation(f, window);
      y * sd == (if now >= last then now - last else 0.0) - Mean(window)
    ensures p * (1.0 + f.exp(-1.5976 * y)) == 1.0
    ensures Phi(f, window, minStd, Some(last), now) == -f.log10(if 1.0 - p < TINY then TINY else 1.0 - p)
  {
    var sd := Max(StdDeviation(f, window), minStd);
    y := (Since(now, last) - Mean(window)) / sd;
    p := NormalCdf(f, y);
    Quotient(Since(now, last) - Mean(window), sd);
    Quotient(1.0, 1.0 + f.exp(-1.5976 * y));
  }

  /** The same for the detector itself, at any instant after its last heartbeat. */
  lemma DetectorLevel(f: Analysis, d: PhiAccrualDetector, now: real) returns (y: real, p: real)
    requires Lawful(f) && d.lastHeartbeat.Some? && |d.intervals| >= 2
    requires d.minStd > 0.0 || StdDeviation(f, d.intervals) > 0.0
    ensures var last, sd := d.lastHeartbeat.value, StdDeviation(f, d.intervals);
      y * (if sd < d.minStd then d.minStd else sd) == (if now >= last then now - last else 0.0) - Mean(d.intervals)
    ensures p * (1.0 + f.exp(-1.5976 * y)) == 1.0
    ensures d.PhiAt(f, now) == -f.log10(if 1.0 - p < TINY then TINY else 1.0 - p)
  {
    y, p := LevelExact(f, d.intervals, d.minStd, d.lastHeartbeat.value, now);
  }

  /** Without any deviation, neither measured nor set, the level is all or nothing. */
  lemma LevelWithoutDeviation(f: Analysis, window: seq<real>, minStd: real, last: real, now: real)
    requires Lawful(f) && |window| >= 2 && minStd <= 0.0 && StdDeviation(f, window) == 0.0
    ensures Phi(f, window, minStd, Some(last), now)
         == if (if now >= last then now - last else 0.0) >= Mean(window) then 100.0 else 0.0
  {
  }
}
