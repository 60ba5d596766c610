/** Disk trend: the bounded ring of readings that stands in for the whole usage history,
    the moving average over it, and the verdict drawn from level and trend. Rates are
    exact reals. */
module Disk {
  import opened Types

  const RING_MAX: nat := 64

  /** A reading: nanoseconds and bytes. */
  datatype DiskPoint = DiskPoint(ts: int, used: int)

  /** One filesystem of a sample. */
  datatype DiskInfo = DiskInfo(path: string, health: Health, total: int, used: int, usedPct: real)

  // ---- the ring ----

  function AddPoint(points: seq<DiskPoint>, p: DiskPoint): seq<DiskPoint> {
    var all := points + [p];
    if |all| > RING_MAX then all[|all| - RING_MAX..] else all
  }

  /** The ring after every reading of a history was added in order. */
  function RingOf(history: seq<DiskPoint>): seq<DiskPoint> {
    if history == [] then []
    else AddPoint(RingOf(history[..|history| - 1]), history[|history| - 1])
  }

  function Dropped(history: seq<DiskPoint>): nat {
    if |history| > RING_MAX then |history| - RING_MAX else 0
  }

  /** The ring is exactly the last 64 readings, or all of them if fewer. */
  lemma {:induction false} RingKeepsLast(history: seq<DiskPoint>)
    ensures RingOf(history) == history[Dropped(history)..]
  {
    if history != [] {
      var n := |history| - 1;
      var p := history[..n];
      RingKeepsLast(p);
      assert history == p + [history[n]];
      assert p[Dropped(p)..] + [history[n]] == history[Dropped(p)..];
    }
  }

  /** Adding to the ring of a history gives the ring of the longer history. */
  lemma {:induction false} AddToRing(history: seq<DiskPoint>, p: DiskPoint)
    ensures AddPoint(history[Dropped(history)..], p) == (history + [p])[Dropped(history + [p])..]
  {
    RingKeepsLast(history);
    RingKeepsLast(history + [p]);
    assert (history + [p])[..|history|] == history;
  }

  class DiskRing {
    var points: seq<DiskPoint>
    /** Every reading ever added, those of earlier runs included. */
    ghost var history: seq<DiskPoint>

    /** The ring is the last 64 readings of its history, or all of them if fewer. */
    ghost predicate Valid()
      reads this
    {
      points == history[Dropped(history)..]
    }

    /** Reads a stored ring back, with the history it stands for. */
    constructor (stored: seq<DiskPoint>, ghost past: seq<DiskPoint>)
      requires stored == past[Dropped(past)..]
      ensures Valid() && points == stored && history == past
    {
      points, history := stored, past;
    }

    method Add(p: DiskPoint)
      requires Valid()
      modifies this
      ensures Valid() && history == old(history) + [p]
    {
      points := points + [p];
      if |points| > RING_MAX {
        points := points[|points| - RING_MAX..];
      }
      history := history + [p];
    }
  }

  // ---- the moving average ----

  function Seconds(a: DiskPoint, b: DiskPoint): real { (b.ts - a.ts) as real / 1_000_000_000.0 }

  /** Bytes per second between two readings of a clock that went forward. */
  function Slope(a: DiskPoint, b: DiskPoint): real
    requires b.ts > a.ts
  {
    (b.used - a.used) as real / Seconds(a, b)
  }

  /** The slopes of consecutive readings, skipping those where the clock did not advance. */
  function Slopes(pts: seq<DiskPoint>): seq<real> {
    if |pts| < 2 then []
    else
      var n := |pts| - 1;
      Slopes(pts[..n]) + if pts[n].ts > pts[n - 1].ts then [Slope(pts[n - 1], pts[n])] else []
  }

  /** Start from the first slope; average each later one in at weight one half. */
  function Ewma(s: seq<real>): real
    requires s != []
  {
    if |s| == 1 then s[0] else 0.5 * s[|s| - 1] + 0.5 * Ewma(s[..|s| - 1])
  }

  predicate Forward(pts: seq<DiskPoint>) {
    forall i :: 0 <= i < |pts| - 1 ==> pts[i].ts < pts[i + 1].ts
  }

  /** On a clock that goes forward each slope is that between two readings in a row. */
  lemma {:induction false} SlopesExactly(pts: seq<DiskPoint>)
    requires Forward(pts) && pts != []
    ensures |Slopes(pts)| == |pts| - 1
    ensures forall i :: 0 <= i < |pts| - 1 ==> Slopes(pts)[i] == Slope(pts[i], pts[i + 1])
  {
    if |pts| >= 2 {
      SlopesExactly(pts[..|pts| - 1]);
    }
  }

  method EwmaSlope(pts: seq<DiskPoint>) returns (ewma: real, have: bool)
    ensures have <==> Slopes(pts) != []
    ensures have ==> ewma == Ewma(Slopes(pts))
  {
    ewma, have := 0.0, false;
    var i := 1;
    while i < |pts|
      invariant i >= 1 && (|pts| >= 1 ==> i <= |pts|)
      invariant |pts| >= 1 ==> (have <==> Slopes(pts[..i]) != [])
      invariant |pts| >= 1 && have ==> ewma == Ewma(Slopes(pts[..i]))
      invariant |pts| == 0 ==> !have
    {
      assert pts[..i + 1][..i] == pts[..i];
      var dt := Seconds(pts[i - 1], pts[i]);
      ghost var before := Slopes(pts[..i]);
      if dt <= 0.0 {
        assert Slopes(pts[..i + 1]) == before + [] == before;
        i := i + 1;
        continue;
      }
      var slope := (pts[i].used - pts[i - 1].used) as real / dt;
      assert Slopes(pts[..i + 1]) == before + [slope];
      assert (before + [slope])[..|before|] == before;
      if !have {
        ewma := slope;
        have := true;
      } else {
        ewma := 0.5 * slope + (1.0 - 0.5) * ewma;
      }
      i := i + 1;
    }
    assert |pts| >= 1 ==> pts[..i] == pts;
  }

  /** The rate a run reports: none without a stored reading or a forward step. */
  function FillRate(ring: seq<DiskPoint>, cur: DiskPoint): Option<real> {
    if ring == [] || Slopes(ring + [cur]) == [] then None else Some(Ewma(Slopes(ring + [cur])))
  }

  method ComputeFillRate(ring: seq<DiskPoint>, cur: DiskPoint) returns (rate: real, have: bool)
    ensures FillRate(ring, cur) == if have then Some(rate) else None
  {
    if |ring| == 0 {
      return 0.0, false;
    }
    var series := ring + [cur];
    rate, have := EwmaSlope(series);
  }

  // ---- truncation error ----

  /** x / 2^n. */
  function Halved(x: real, n: nat): real {
    if n == 0 then x else Halved(x, n - 1) / 2.0
  }

  lemma {:induction false} HalvedBound(x: real, y: real, n: nat)
    requires -y <= x <= y
    ensures -Halved(y, n) <= Halved(x, n) <= Halved(y, n)
  {
    if n > 0 {
      HalvedBound(x, y, n - 1);
    }
  }

  /** Averaging a sequence into a starting value. */
  function Blend(start: real, w: seq<real>): real {
    if w == [] then start else 0.5 * w[|w| - 1] + 0.5 * Blend(start, w[..|w| - 1])
  }

  lemma {:induction false} EwmaIsBlend(p: seq<real>, w: seq<real>)
    requires p + w != []
    ensures Ewma(p + w) == Blend(if p == [] then w[0] else Ewma(p), w)
  {
    if w == [] {
      assert p + w == p;
    } else {
      var n := |w| - 1;
      assert (p + w)[..|p + w| - 1] == p + w[..n];
      if p + w[..n] != [] {
        EwmaIsBlend(p, w[..n]);
      }
    }
  }

  /** Averaging in v values shrinks a difference in the start by 2^v, exactly. */
  lemma {:induction false} BlendContracts(a: real, b: real, w: seq<real>)
    ensures Blend(a, w) - Blend(b, w) == Halved(a - b, |w|)
  {
    if w != [] {
      BlendContracts(a, b, w[..|w| - 1]);
    }
  }

  ghost predicate Within(s: seq<real>, lo: real, hi: real) {
    forall i :: 0 <= i < |s| ==> lo <= s[i] <= hi
  }

  lemma {:induction false} EwmaWithin(s: seq<real>, lo: real, hi: real)
    requires s != [] && Within(s, lo, hi)
    ensures lo <= Ewma(s) <= hi
  {
    if |s| > 1 {
      EwmaWithin(s[..|s| - 1], lo, hi);
    }
  }

  /** Slopes of a history split at any shared reading. */
  lemma {:induction false} SlopesSplit(pts: seq<DiskPoint>, k: nat)
    requires k < |pts|
    ensures Slopes(pts) == Slopes(pts[..k + 1]) + Slopes(pts[k..])
  {
    var n := |pts| - 1;
    if k == n {
      assert pts[..k + 1] == pts && Slopes(pts) + [] == Slopes(pts);
    } else {
      SlopesSplit(pts[..n], k);
      var tail := pts[k..];
      assert pts[..n][..k + 1] == pts[..k + 1] && pts[..n][k..] == tail[..n - k];
      assert |tail| - 1 == n - k && tail[n - k] == pts[n] && tail[n - k - 1] == pts[n - 1];
      var last := if pts[n].ts > pts[n - 1].ts then [Slope(pts[n - 1], pts[n])] else [];
      assert Slopes(tail) == Slopes(tail[..n - k]) + last;
      var a, b := Slopes(pts[..k + 1]), Slopes(tail[..n - k]);
      assert (a + b) + last == a + (b + last);
    }
  }

  lemma {:induction false} WithinConcat(a: seq<real>, b: seq<real>, lo: real, hi: real)
    requires Within(a + b, lo, hi)
    ensures Within(a, lo, hi) && Within(b, lo, hi)
  {
    assert forall i :: 0 <= i < |a| ==> a[i] == (a + b)[i];
    assert forall i :: 0 <= i < |b| ==> b[i] == (a + b)[|a| + i];
  }

  /** How far an average over the last |w| slopes may be from the average over all, when
      the slopes before them were `gone`. */
  ghost predicate ErrorBounded(full: real, recent: real, gone: seq<real>, w: seq<real>, lo: real, hi: real)
    requires w != []
  {
    && lo <= recent <= hi && lo <= full <= hi
    && full - recent == (if gone == [] then 0.0 else Halved(Ewma(gone) - w[0], |w|))
    && -Halved(hi - lo, |w|) <= full - recent <= Halved(hi - lo, |w|)
  }

  lemma {:induction false} SuffixGap(start: real, w: seq<real>, lo: real, hi: real)
    requires w != [] && lo <= start <= hi && lo <= w[0] <= hi
    ensures Blend(start, w) - Ewma(w) == Halved(start - w[0], |w|)
    ensures -Halved(hi - lo, |w|) <= Blend(start, w) - Ewma(w) <= Halved(hi - lo, |w|)
  {
    EwmaIsBlend([], w);
    assert [] + w == w;
    BlendContracts(start, w[0], w);
    HalvedBound(start - w[0], hi - lo, |w|);
  }

  /** The average over a suffix against the average over everything. */
  lemma {:induction false} TruncationError(gone: seq<real>, w: seq<real>, lo: real, hi: real)
    requires w != [] && Within(gone + w, lo, hi)
    ensures ErrorBounded(Ewma(gone + w), Ewma(w), gone, w, lo, hi)
  {
    WithinConcat(gone, w, lo, hi);
    EwmaWithin(w, lo, hi);
    if gone == [] {
      assert gone + w == w;
      HalvedBound(0.0, hi - lo, |w|);
      SuffixGap(w[0], w, lo, hi);
      EwmaIsBlend(gone, w);
    } else {
      EwmaWithin(gone + w, lo, hi);
      EwmaWithin(gone, lo, hi);
      EwmaIsBlend(gone, w);
      SuffixGap(Ewma(gone), w, lo, hi);
    }
  }

  /** The slopes of the whole history are those dropped, then those of the ring. */
  lemma {:induction false} RingSplits(history: seq<DiskPoint>, cur: DiskPoint)
    requires history != []
    ensures Slopes(history + [cur]) == Slopes(history[..Dropped(history) + 1]) + Slopes(RingOf(history) + [cur])
    ensures RingOf(history) != []
  {
    var k := Dropped(history);
    var all := history + [cur];
    RingKeepsLast(history);
    assert all[k..] == RingOf(history) + [cur] && all[..k + 1] == history[..k + 1];
    SlopesSplit(all, k);
  }

  /** With v forward steps in the window, the rate from the ring differs from the rate
      over the whole history by the dropped average's distance from the window's first
      slope, over 2^v: never more than (hi - lo) / 2^v, nothing at all when no forward
      step was dropped, and both rates stay between the least and the greatest slope. */
  lemma {:induction false} RingErrorBound(history: seq<DiskPoint>, cur: DiskPoint, lo: real, hi: real)
    requires history != [] && Slopes(RingOf(history) + [cur]) != []
    requires Within(Slopes(history + [cur]), lo, hi)
    ensures Slopes(history + [cur]) != [] && FillRate(RingOf(history), cur).Some?
    ensures ErrorBounded(Ewma(Slopes(history + [cur])), FillRate(RingOf(history), cur).value,
                         Slopes(history[..Dropped(history) + 1]), Slopes(RingOf(history) + [cur]), lo, hi)
  {
    RingSplits(history, cur);
    TruncationError(Slopes(history[..Dropped(history) + 1]), Slopes(RingOf(history) + [cur]), lo, hi);
  }

  /** A full ring on a clock that always advances has 64 steps in the window. */
  lemma {:induction false} SlopesOfForwardClock(pts: seq<DiskPoint>)
    requires pts != [] && forall i :: 0 <= i < |pts| - 1 ==> pts[i].ts < pts[i + 1].ts
    ensures |Slopes(pts)| == |pts| - 1
  {
    if |pts| > 1 {
      var n := |pts| - 1;
      SlopesOfForwardClock(pts[..n]);
      assert pts[n - 1].ts < pts[n - 1 + 1].ts;
    }
  }

  lemma {:induction false} FullRingHas64Steps(history: seq<DiskPoint>, cur: DiskPoint)
    requires |history| >= RING_MAX
    requires var all := history + [cur]; forall i :: 0 <= i < |all| - 1 ==> all[i].ts < all[i + 1].ts
    ensures |Slopes(RingOf(history) + [cur])| == 64
  {
    var all, k := history + [cur], Dropped(history);
    RingKeepsLast(history);
    var w := RingOf(history) + [cur];
    assert w == all[k..];
    forall i | 0 <= i < |w| - 1
      ensures w[i].ts < w[i + 1].ts
    {
      assert all[k + i].ts < all[k + i + 1].ts;
    }
    SlopesOfForwardClock(w);
  }

  // ---- the verdict ----

  datatype DiskConfig = DiskConfig(warn: real, alert: real, daysToFullAlert: real)
  {
    /** What config validation guarantees of the thresholds. */
    predicate Valid() { 0.0 < warn < alert <= 100.0 && daysToFullAlert >= 0.0 }
  }

  /** Projected time to full; None stands for never. */
  function DaysToFull(free: int, rate: Option<real>): Option<real> {
    if rate.Some? && rate.value > 0.0 then Some(free as real / (rate.value * 86400.0)) else None
  }

  predicate FullSoon(cfg: DiskConfig, d: DiskInfo, rate: Option<real>) {
    var days := DaysToFull(d.total - d.used, rate);
    days.Some? && days.value <= cfg.daysToFullAlert
  }

  datatype Verdict = Verdict(health: Health, tier: Tier)
  {
    /** 0 = OK, 1 = WARN, 2 = ALERT. */
    function Severity(): int
    {
      if health != BAD then 0 else 1 + tier
    }
  }

  /** Worst of level and trajectory. */
  function Judge(cfg: DiskConfig, d: DiskInfo, rate: Option<real>): Verdict {
    var soon := FullSoon(cfg, d, rate);
    if !(d.usedPct >= cfg.warn || soon) then Verdict(OK, WARN)
    else Verdict(BAD, if d.usedPct >= cfg.alert || soon then ALERT else WARN)
  }

  method EvalOne(cfg: DiskConfig, d: DiskInfo, ring: seq<DiskPoint>, now: int) returns (v: Verdict)
    ensures d.health != OK ==> v.health == UNKNOWN
    ensures d.health == OK ==> v == Judge(cfg, d, FillRate(ring, DiskPoint(now, d.used)))
  {
    if d.health != OK {
      return Verdict(UNKNOWN, WARN);
    }
    var bytesPerSec, haveRate := ComputeFillRate(ring, DiskPoint(now, d.used));
    var freeBytes := d.total - d.used;
    var daysToFull: Option<real> := None;
    if haveRate && bytesPerSec > 0.0 {
      daysToFull := Some(freeBytes as real / (bytesPerSec * 86400.0));
    }
    var tier, bad := WARN, false;
    if d.usedPct >= cfg.warn {
      bad := true;
    }
    if d.usedPct >= cfg.alert {
      tier := ALERT;
    }
    if daysToFull.Some? && daysToFull.value <= cfg.daysToFullAlert {
      bad := true;
      tier := ALERT;
    }
    if !bad {
      return Verdict(OK, WARN);
    }
    return Verdict(BAD, tier);
  }

  lemma {:induction false} QuotientRises(a: real, b: real, d: real)
    requires a <= b && d > 0.0
    ensures a / d <= b / d
  {
    assert b / d - a / d == (b - a) / d;
    assert (b - a) / d >= 0.0;
  }

  /** Raising the current reading, the ring fixed, never lowers the rate. */
  lemma {:induction false} RateRises(ring: seq<DiskPoint>, now: int, u: int, v: int)
    requires u <= v
    ensures var a, b := FillRate(ring, DiskPoint(now, u)), FillRate(ring, DiskPoint(now, v));
            a.Some? == b.Some? && (a.Some? ==> a.value <= b.value)
  {
    if ring != [] {
      var p, q := DiskPoint(now, u), DiskPoint(now, v);
      var n := |ring|;
      assert (ring + [p])[..n] == ring && (ring + [q])[..n] == ring;
      var before, last := Slopes(ring), ring[n - 1];
      if now > last.ts {
        var sp, sq := Slope(last, p), Slope(last, q);
        QuotientRises((u - last.used) as real, (v - last.used) as real, Seconds(last, p));
        assert Slopes(ring + [p]) == before + [sp] && Slopes(ring + [q]) == before + [sq];
        assert (before + [sp])[..|before|] == before && (before + [sq])[..|before|] == before;
      } else {
        assert Slopes(ring + [p]) == before + [] && Slopes(ring + [q]) == before + [];
      }
    }
  }

  /** With less free space and a faster fill, a disk that was soon full still is. */
  lemma {:induction false} SoonStaysSoon(f: real, g: real, r: real, s: real, days: real)
    requires g <= f && 0.0 < r <= s && days >= 0.0 && f / (r * 86400.0) <= days
    ensures g / (s * 86400.0) <= days
  {
    var a, b := r * 86400.0, s * 86400.0;
    assert f / a * a == f && g / b * b == g;
    assert (days - f / a) * a >= 0.0;
    assert (days - f / a) * a == days * a - f;
    assert days * (b - a) >= 0.0;
    assert days * (b - a) == days * b - days * a;
    QuotientRises(g, days * b, b);
    assert days * b / b == days;
  }

  /** With validated thresholds and a fixed ring, a fuller disk is never judged milder. */
  lemma {:induction false} VerdictIsMonotone(cfg: DiskConfig, d: DiskInfo, e: DiskInfo, ring: seq<DiskPoint>, now: int)
    requires cfg.Valid() && d.total == e.total && d.used <= e.used && d.usedPct <= e.usedPct
    ensures Judge(cfg, d, FillRate(ring, DiskPoint(now, d.used))).Severity()
            <= Judge(cfg, e, FillRate(ring, DiskPoint(now, e.used))).Severity()
  {
    RateRises(ring, now, d.used, e.used);
    var a, b := FillRate(ring, DiskPoint(now, d.used)), FillRate(ring, DiskPoint(now, e.used));
    if FullSoon(cfg, d, a) {
      SoonStaysSoon((d.total - d.used) as real, (e.total - e.used) as real, a.value, b.value, cfg.daysToFullAlert);
    }
  }

  /** Validation's ordering is what makes the top level always alert: with it a disk at
      or above `alert` is BAD at ALERT whatever the trend; with the thresholds the other
      way round a disk between them is not even BAD. */
  lemma {:induction false} AlertLevelAlwaysAlerts(cfg: DiskConfig, d: DiskInfo, rate: Option<real>)
    ensures cfg.Valid() && d.usedPct >= cfg.alert ==> Judge(cfg, d, rate) == Verdict(BAD, ALERT)
    ensures cfg.alert <= d.usedPct < cfg.warn && rate.None? ==> Judge(cfg, d, rate).health == OK
  {
  }

  /** A slope is bytes per second. */
  lemma {:induction false} SlopeExact(a: DiskPoint, b: DiskPoint)
    requires b.ts > a.ts
    ensures Slope(a, b) * (b.ts - a.ts) as real == (b.used - a.used) as real * 1_000_000_000.0
  {
    var d, u := (b.ts - a.ts) as real, (b.used - a.used) as real;
    var s := d / 1_000_000_000.0;
    assert s > 0.0 && s * 1_000_000_000.0 == d;
    assert u / s * s == u;
    assert u / s * d == u / s * s * 1_000_000_000.0;
  }

  lemma {:induction false} NoSlopesExactly(pts: seq<DiskPoint>)
    ensures Slopes(pts) == [] <==> forall i :: 0 <= i < |pts| - 1 ==> pts[i].ts >= pts[i + 1].ts
  {
    if |pts| >= 2 {
      var p := pts[..|pts| - 1];
      NoSlopesExactly(p);
      assert forall i :: 0 <= i < |p| ==> p[i] == pts[i];
    }
  }

  /** A rate is known exactly if something was read before and the clock went forward
      between some two readings in a row. */
  lemma {:induction false} RateKnownExactly(ring: seq<DiskPoint>, cur: DiskPoint)
    ensures FillRate(ring, cur).Some? <==>
            var pts := ring + [cur];
            ring != [] && exists i :: 0 <= i < |pts| - 1 && pts[i].ts < pts[i + 1].ts
  {
    NoSlopesExactly(ring + [cur]);
  }

  /** Every step between two readings in a row is at the rate r, in bytes per second. */
  predicate Steady(pts: seq<DiskPoint>, r: real) {
    forall i :: 0 <= i < |pts| - 1 ==>
      (pts[i + 1].used - pts[i].used) as real * 1_000_000_000.0 == r * (pts[i + 1].ts - pts[i].ts) as real
  }

  lemma {:induction false} SlopeIs(a: DiskPoint, b: DiskPoint, r: real)
    requires b.ts > a.ts && (b.used - a.used) as real * 1_000_000_000.0 == r * (b.ts - a.ts) as real
    ensures Slope(a, b) == r
  {
    SlopeExact(a, b);
    var d := (b.ts - a.ts) as real;
    assert (Slope(a, b) - r) * d == 0.0;
  }

  predicate SlopesAll(pts: seq<DiskPoint>, r: real)
    requires Forward(pts)
  {
    forall i :: 0 <= i < |pts| - 1 ==> Slope(pts[i], pts[i + 1]) == r
  }

  lemma {:induction false} SteadyMeansEqualSlopes(pts: seq<DiskPoint>, r: real)
    requires Forward(pts) && Steady(pts, r)
    ensures SlopesAll(pts, r)
  {
    forall i | 0 <= i < |pts| - 1
      ensures Slope(pts[i], pts[i + 1]) == r
    {
      SlopeIs(pts[i], pts[i + 1], r);
    }
  }

  lemma {:induction false} EqualSlopes(pts: seq<DiskPoint>, r: real)
    requires Forward(pts) && SlopesAll(pts, r) && |pts| >= 2
    ensures Slopes(pts) != [] && Within(Slopes(pts), r, r)
  {
    SlopesExactly(pts);
    forall i | 0 <= i < |Slopes(pts)|
      ensures Slopes(pts)[i] == r
    {
      assert Slopes(pts)[i] == Slope(pts[i], pts[i + 1]);
    }
  }

  /** A disk that fills at a steady rate is reported to fill at that rate, however unevenly
      it was read. */
  lemma {:induction false} SteadyFill(ring: seq<DiskPoint>, cur: DiskPoint, r: real)
    requires ring != [] && Forward(ring + [cur]) && Steady(ring + [cur], r)
    ensures FillRate(ring, cur) == Some(r)
  {
    SteadyMeansEqualSlopes(ring + [cur], r);
    EqualSlopes(ring + [cur], r);
    EwmaWithin(Slopes(ring + [cur]), r, r);
  }

  /** At the present rate the disk is full within the configured number of days. */
  predicate RunsOut(cfg: DiskConfig, d: DiskInfo, rate: Option<real>) {
    rate.Some? && rate.value > 0.0
    && (d.total - d.used) as real <= cfg.daysToFullAlert * 86400.0 * rate.value
  }

  lemma {:induction false} SoonIsRunningOut(cfg: DiskConfig, d: DiskInfo, rate: Option<real>)
    ensures FullSoon(cfg, d, rate) <==> RunsOut(cfg, d, rate)
  {
    if rate.Some? && rate.value > 0.0 {
      var free, perDay := (d.total - d.used) as real, rate.value * 86400.0;
      assert free / perDay * perDay == free;
      if free / perDay <= cfg.daysToFullAlert {
        assert (cfg.daysToFullAlert - free / perDay) * perDay >= 0.0;
      } else {
        assert (free / perDay - cfg.daysToFullAlert) * perDay > 0.0;
      }
    }
  }

  /** The verdict in the configuration's and the reading's own fields: BAD from the warning
      level on or when the disk runs out in time, and then at ALERT from the alert level on
      or when it runs out in time. */
  lemma {:induction false} JudgedExactly(cfg: DiskConfig, d: DiskInfo, rate: Option<real>)
    ensures var v := Judge(cfg, d, rate);
            && (v.health == BAD <==> d.usedPct >= cfg.warn || RunsOut(cfg, d, rate))
            && (v.health != BAD ==> v.health == OK)
            && (v.health == BAD ==> v.tier == if d.usedPct >= cfg.alert || RunsOut(cfg, d, rate) then 1 else 0)
  {
    SoonIsRunningOut(cfg, d, rate);
  }
}
