/** Scaling a package by a modulation curve (VibratorServiceClient::ModulatePackage), on values: the
    intervals the curve stands for, the search among them, and what modulation makes of each event. */
module Modulate {
  import opened Haptics
  import opened ClientStructs

  const FREQUENCY_UPPER_BOUND := 100
  const FREQUENCY_LOWER_BOUND := -100
  const INTENSITY_UPPER_BOUND := 100
  const INTENSITY_LOWER_BOUND := 0
  const CURVE_POINT_NUM_MIN := 4
  const CURVE_POINT_NUM_MAX := 16

  datatype Interval = Interval(beginTime: int, endTime: int, intensity: int, frequency: int)

  /** The curve an event carries, with where it is placed. */
  datatype Curve = Curve(time: int, duration: int, points: seq<Point>)

  // ----- intervals -----

  /** Points before the first one that is not before the end of the curve. */
  function IntervalCount(c: Curve, i: nat): (n: nat)
    requires i <= |c.points|
    ensures i <= n <= |c.points|
    ensures forall k :: i <= k < n ==> c.points[k].time < c.duration
    ensures n < |c.points| ==> c.points[n].time >= c.duration
    decreases |c.points| - i
  {
    if i < |c.points| && c.points[i].time < c.duration then IntervalCount(c, i + 1) else i
  }

  function IntervalAt(c: Curve, i: nat): Interval
    requires i < |c.points|
  {
    Interval(c.time + c.points[i].time,
             c.time + if i + 1 < |c.points| then Min(c.points[i + 1].time, c.duration) else c.duration,
             c.points[i].intensity, c.points[i].frequency)
  }

  function Intervals(c: Curve): (r: seq<Interval>)
    ensures |r| == IntervalCount(c, 0)
  {
    seq(IntervalCount(c, 0), i requires 0 <= i < IntervalCount(c, 0) => IntervalAt(c, i))
  }

  method ConvertVibratorEventsToCurveIntervals(c: Curve, patternTimeOffset: int) returns (r: seq<Interval>)
    ensures r == Intervals(c.(time := c.time + patternTimeOffset))
  {
    var fullOffset := patternTimeOffset + c.time;
    ghost var moved := c.(time := c.time + patternTimeOffset);
    r := [];
    for i := 0 to |c.points|
      invariant |r| == i && IntervalCount(moved, 0) == IntervalCount(moved, i)
      invariant forall k :: 0 <= k < i ==> r[k] == IntervalAt(moved, k)
    {
      if c.points[i].time < c.duration {
        var beginTime := fullOffset + c.points[i].time;
        var endTime := fullOffset +
          if i + 1 < |c.points| then Min(c.points[i + 1].time, c.duration) else c.duration;
        r := r + [Interval(beginTime, endTime, c.points[i].intensity, c.points[i].frequency)];
      } else {
        return;
      }
    }
  }

  /** Each interval begins where the one before it ends. */
  ghost predicate Tile(iv: seq<Interval>) {
    && iv != []
    && (forall k :: 0 <= k < |iv| ==> iv[k].beginTime <= iv[k].endTime)
    && (forall k :: 0 <= k < |iv| - 1 ==> iv[k].endTime == iv[k + 1].beginTime)
  }

  /** The curve is in time order and its first point lies before its end. */
  ghost predicate GoodCurve(c: Curve) {
    c.points != [] && TimeSorted(c.points) && c.points[0].time < c.duration
  }

  /** The intervals of a good curve tile the time from its first point to its end exactly. */
  lemma IntervalsTile(c: Curve)
    requires GoodCurve(c)
    ensures Tile(Intervals(c))
    ensures Intervals(c)[0].beginTime == c.time + c.points[0].time
    ensures Intervals(c)[|Intervals(c)| - 1].endTime == c.time + c.duration
  {
    var n := IntervalCount(c, 0);
    assert n > 0;
    forall k | 0 <= k < n - 1 ensures Intervals(c)[k].endTime == Intervals(c)[k + 1].beginTime {
      assert c.points[k + 1].time < c.duration;
    }
  }

  // ----- searching the intervals -----

  function Bisect(iv: seq<Interval>, val: int, head: nat, tail: nat): (idx: nat)
    requires head < tail < |iv|
    ensures head < idx <= tail
    decreases tail - head
  {
    if tail - head > 1 then
      var middle := (tail - head) / 2 + head;
      if iv[middle].endTime < val then Bisect(iv, val, middle, tail) else Bisect(iv, val, head, middle)
    else tail
  }

  /** The interval found for a time; -1 for a time outside all of them. */
  function Search(iv: seq<Interval>, val: int): (idx: int)
    requires iv != []
    ensures -1 <= idx < |iv|
  {
    if val < iv[0].beginTime || val > iv[|iv| - 1].endTime then -1
    else if val >= iv[0].beginTime && val <= iv[0].endTime then 0
    else if |iv| == 1 then 0
    else Bisect(iv, val, 0, |iv| - 1)
  }

  method BinarySearchInterval(interval: seq<Interval>, val: int, before: int) returns (idx: int)
    ensures idx == if interval == [] then before else Search(interval, val)
  {
    idx := before;
    if interval == [] { return; }
    if val < interval[0].beginTime || val > interval[|interval| - 1].endTime { return -1; }
    if val >= interval[0].beginTime && val <= interval[0].endTime { return 0; }
    var headIdx, tailIdx := 0, |interval| - 1;
    while tailIdx - headIdx > 1
      invariant 0 <= headIdx <= tailIdx < |interval|
      invariant |interval| > 1 ==> headIdx < tailIdx && Search(interval, val) == Bisect(interval, val, headIdx, tailIdx)
    {
      var middleIdx := (tailIdx - headIdx) / 2 + headIdx;
      if interval[middleIdx].endTime < val {
        headIdx := middleIdx;
      } else {
        tailIdx := middleIdx;
      }
    }
    idx := tailIdx;
  }

  lemma {:induction false} TileEndsSorted(iv: seq<Interval>, a: nat, b: nat)
    requires Tile(iv) && a <= b < |iv|
    ensures iv[a].endTime <= iv[b].endTime
  {
    if a < b {
      TileEndsSorted(iv, a, b - 1);
    }
  }

  lemma {:induction false} BisectFindsFirst(iv: seq<Interval>, val: int, head: nat, tail: nat)
    requires Tile(iv) && head < tail < |iv|
    requires iv[head].endTime < val <= iv[tail].endTime
    ensures var idx := Bisect(iv, val, head, tail);
            val <= iv[idx].endTime && iv[idx - 1].endTime < val
    decreases tail - head
  {
    if tail - head > 1 {
      var middle := (tail - head) / 2 + head;
      if iv[middle].endTime < val {
        BisectFindsFirst(iv, val, middle, tail);
      } else {
        BisectFindsFirst(iv, val, head, middle);
      }
    }
  }

  /** Over tiling intervals the search finds the first interval that does not end before the time, or
      reports that the time is outside. */
  lemma SearchFindsFirst(iv: seq<Interval>, val: int)
    requires Tile(iv)
    ensures var idx := Search(iv, val);
            if idx == -1 then val < iv[0].beginTime || val > iv[|iv| - 1].endTime
            else && iv[0].beginTime <= val <= iv[idx].endTime
                 && forall k :: 0 <= k < idx ==> iv[k].endTime < val
  {
    var idx := Search(iv, val);
    if idx > 0 {
      BisectFindsFirst(iv, val, 0, |iv| - 1);
      forall k | 0 <= k < idx ensures iv[k].endTime < val {
        TileEndsSorted(iv, k, idx - 1);
      }
    }
  }

  // ----- the step function a curve defines -----

  /** How many points lie strictly before a time. */
  function CountBefore(points: seq<Point>, t: int): (n: nat)
    ensures n <= |points|
  {
    if points == [] then 0
    else CountBefore(points[..|points| - 1], t) + if points[|points| - 1].time < t then 1 else 0
  }

  /** The point in force at an absolute time: the last one strictly before it, or the first one at
      its very time; none outside the span from the first point to the end of the curve. */
  function InForce(c: Curve, t: int): (k: int)
    ensures -1 <= k < |c.points|
  {
    if c.points == [] || t < c.time + c.points[0].time || t > c.time + c.duration then -1
    else if CountBefore(c.points, t - c.time) == 0 then 0
    else CountBefore(c.points, t - c.time) - 1
  }

  lemma {:induction false} CountBeforeIs(points: seq<Point>, t: int, n: nat)
    requires n <= |points|
    requires forall k :: 0 <= k < n ==> points[k].time < t
    requires forall k :: n <= k < |points| ==> points[k].time >= t
    ensures CountBefore(points, t) == n
  {
    if points != [] {
      CountBeforeIs(points[..|points| - 1], t, if n == |points| then n - 1 else n);
    }
  }

  lemma CountAt(points: seq<Point>, t: int, idx: nat)
    requires TimeSorted(points) && idx < |points| && points[idx].time < t
    requires idx + 1 < |points| ==> points[idx + 1].time >= t
    ensures CountBefore(points, t) == idx + 1
  {
    forall k | 0 <= k < idx + 1 ensures points[k].time < t {
      assert k < idx ==> points[k].time <= points[idx].time;
    }
    forall k | idx + 1 <= k < |points| ensures points[k].time >= t {
      assert k > idx + 1 ==> points[idx + 1].time <= points[k].time;
    }
    CountBeforeIs(points, t, idx + 1);
  }

  lemma CountAtFirst(points: seq<Point>, t: int)
    requires TimeSorted(points) && points != [] && points[0].time >= t
    ensures CountBefore(points, t) == 0
  {
    forall k | 0 <= k < |points| ensures points[k].time >= t {
      assert k > 0 ==> points[0].time <= points[k].time;
    }
    CountBeforeIs(points, t, 0);
  }

  /** Interval idx, found by the search, in terms of the points of the curve. */
  lemma FoundInterval(c: Curve, t: int, idx: nat)
    requires GoodCurve(c) && Search(Intervals(c), t) == idx
    ensures c.time + c.points[0].time <= t <= c.time + c.duration && idx < |c.points|
    ensures idx > 0 ==> c.points[idx].time < t - c.time
    ensures idx + 1 < |c.points| ==> c.points[idx + 1].time >= t - c.time
  {
    IntervalsTile(c);
    SearchFindsFirst(Intervals(c), t);
    TileEndsSorted(Intervals(c), idx, |Intervals(c)| - 1);
    if idx > 0 {
      assert Intervals(c)[idx - 1].endTime < t;
    }
  }

  /** Searching the intervals of a good curve is reading its step function. */
  lemma SearchIsInForce(c: Curve, t: int)
    requires GoodCurve(c)
    ensures Search(Intervals(c), t) == InForce(c, t)
  {
    IntervalsTile(c);
    var idx := Search(Intervals(c), t);
    if idx >= 0 {
      FoundInterval(c, t, idx);
      if t == c.time + c.points[0].time {
        CountAtFirst(c.points, t - c.time);
      } else {
        CountAt(c.points, t - c.time, idx);
      }
    }
  }

  // ----- what modulation does to an event -----

  function RestrictIntensityRange(intensity: int): int {
    if intensity > INTENSITY_UPPER_BOUND then INTENSITY_UPPER_BOUND
    else if intensity < INTENSITY_LOWER_BOUND then INTENSITY_LOWER_BOUND
    else intensity
  }

  function RestrictFrequencyRange(frequency: int): int {
    if frequency > FREQUENCY_UPPER_BOUND then FREQUENCY_UPPER_BOUND
    else if frequency < FREQUENCY_LOWER_BOUND then FREQUENCY_LOWER_BOUND
    else frequency
  }

  function ScaledIntensity(intensity: int, scale: int): int {
    RestrictIntensityRange(TruncDiv(intensity * scale, INTENSITY_UPPER_BOUND - INTENSITY_LOWER_BOUND))
  }

  /** A point at absolute time t, modulated by the interval found for t. */
  function ModulatedPoint(iv: seq<Interval>, t: int, p: Point): Point
    requires iv != []
  {
    var idx := Search(iv, t);
    if idx < 0 then p
    else p.(intensity := ScaledIntensity(p.intensity, iv[idx].intensity),
            frequency := RestrictFrequencyRange(p.frequency + iv[idx].frequency))
  }

  /** An event modulated as a whole, at its start. */
  function ModulatedStart(iv: seq<Interval>, t: int, e: Event): Event
    requires iv != []
  {
    var idx := Search(iv, t);
    if idx < 0 then e
    else e.(intensity := ScaledIntensity(e.intensity, iv[idx].intensity),
            frequency := RestrictFrequencyRange(e.frequency + iv[idx].frequency))
  }

  function ModulatedPoints(iv: seq<Interval>, offset: int, ps: seq<Point>): (r: seq<Point>)
    requires iv != []
    ensures |r| == |ps|
  {
    seq(|ps|, k requires 0 <= k < |ps| => ModulatedPoint(iv, offset + ps[k].time, ps[k]))
  }

  /** The event is modulated point by point. */
  predicate UsesCurve(e: VibratorEvent) {
    e.kind == Continuous && e.pointNum != 0 && e.points != NULL
  }

  /** Neither without points nor with an acceptable number of them. */
  predicate Refused(e: VibratorEvent) {
    UsesCurve(e) && !(CURVE_POINT_NUM_MIN <= e.pointNum <= CURVE_POINT_NUM_MAX)
  }

  /** What the modulated event stands for. */
  function ModulatedEvent(iv: seq<Interval>, m: Memory, patternStart: int, e: VibratorEvent): Event
    requires iv != []
  {
    var v := EventView(m, e);
    if UsesCurve(e) then v.(points := ModulatedPoints(iv, patternStart + e.time, v.points))
    else ModulatedStart(iv, e.time + patternStart, v.(points := []))
  }

  // ----- the same, read off the curve -----

  /** The strength and pitch in force at t, applied: the intensity becomes that part in a hundred of what
      it was, the frequency is raised, and both are kept within their bounds. */
  ghost predicate AppliesAt(c: Curve, t: int, intensity: int, frequency: int, intensity': int, frequency': int) {
    var k := InForce(c, t);
    if k < 0 then intensity' == intensity && frequency' == frequency
    else && IsPercent(intensity * c.points[k].intensity, intensity')
         && IsKeptWithin(frequency + c.points[k].frequency, -100, 100, frequency')
  }

  /** Scaling and shifting, over the integers. */
  lemma ScaledAndShifted(intensity: int, scale: int, frequency: int)
    ensures IsPercent(intensity * scale, ScaledIntensity(intensity, scale))
    ensures IsKeptWithin(frequency, -100, 100, RestrictFrequencyRange(frequency))
  {
    TruncDivIsQuotient(intensity * scale, 100);
    ClampedQuotientIsPercent(intensity * scale, TruncDiv(intensity * scale, 100));
  }

  /** Every point is changed by the step in force at its absolute time; its time stays. */
  ghost predicate AppliesToAll(c: Curve, offset: int, ps: seq<Point>, rs: seq<Point>) {
    |rs| == |ps| && forall k :: 0 <= k < |ps| ==> AppliesToPoint(c, offset, ps[k], rs[k])
  }

  ghost predicate AppliesToPoint(c: Curve, offset: int, p: Point, r: Point) {
    r.time == p.time && AppliesAt(c, offset + p.time, p.intensity, p.frequency, r.intensity, r.frequency)
  }

  lemma PointModulation(c: Curve, offset: int, p: Point)
    requires GoodCurve(c) && Intervals(c) != []
    ensures AppliesToPoint(c, offset, p, ModulatedPoint(Intervals(c), offset + p.time, p))
  {
    SearchIsInForce(c, offset + p.time);
    var k := InForce(c, offset + p.time);
    if k >= 0 {
      ScaledAndShifted(p.intensity, c.points[k].intensity, p.frequency + c.points[k].frequency);
    }
  }

  lemma StartModulation(c: Curve, t: int, e: Event)
    requires GoodCurve(c) && Intervals(c) != []
    ensures var r := ModulatedStart(Intervals(c), t, e);
            && AppliesAt(c, t, e.intensity, e.frequency, r.intensity, r.frequency)
            && r == e.(intensity := r.intensity, frequency := r.frequency)
  {
    SearchIsInForce(c, t);
    var k := InForce(c, t);
    if k >= 0 {
      ScaledAndShifted(e.intensity, c.points[k].intensity, e.frequency + c.points[k].frequency);
    }
  }

  lemma CurveModulation(c: Curve, offset: int, ps: seq<Point>)
    requires GoodCurve(c) && Intervals(c) != []
    ensures AppliesToAll(c, offset, ps, ModulatedPoints(Intervals(c), offset, ps))
  {
    forall k | 0 <= k < |ps|
      ensures AppliesToPoint(c, offset, ps[k], ModulatedPoints(Intervals(c), offset, ps)[k])
    {
      PointModulation(c, offset, ps[k]);
    }
  }

  /** r is the event as e stood for it, each curve point at its absolute time, or the event at its start
      when it has no usable curve, changed by the step of the curve in force there. Times, duration and
      index are as they were, and so is everything outside the span of the curve. */
  ghost predicate ModulatedPointwise(c: Curve, m: Memory, patternStart: int, e: VibratorEvent, r: Event) {
    var v := EventView(m, e);
    if UsesCurve(e) then
      && r == v.(points := r.points)
      && AppliesToAll(c, patternStart + e.time, v.points, r.points)
    else
      && r == v.(points := [], intensity := r.intensity, frequency := r.frequency)
      && AppliesAt(c, patternStart + e.time, v.intensity, v.frequency, r.intensity, r.frequency)
  }

  lemma ModulationIsPointwise(c: Curve, m: Memory, patternStart: int, e: VibratorEvent)
    requires GoodCurve(c) && Intervals(c) != []
    ensures ModulatedPointwise(c, m, patternStart, e, ModulatedEvent(Intervals(c), m, patternStart, e))
  {
    if UsesCurve(e) {
      CurveModulation(c, patternStart + e.time, EventView(m, e).points);
    } else {
      StartModulation(c, e.time + patternStart, EventView(m, e).(points := []));
    }
  }
}
