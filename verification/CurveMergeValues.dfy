/** Which intensities and frequencies a merged curve holds. */
module CurveMergeValues {
  import opened Haptics
  import opened CurveMerge
  import opened CurveMergeProofs

  // ----- interpolation is the line through its knots -----

  /** y is what the line from (x1, y1) to (x2, y2) has at x, its fraction dropped: over integers, without
      a division. */
  ghost predicate OnLine(x1: int, x2: int, y1: int, y2: int, x: int, y: int) {
    IsQuotient(y1 * (x2 - x1) + (y2 - y1) * (x - x1), x2 - x1, y)
  }

  lemma SlopeTimesWidth(dy: real, dx: real, u: real)
    requires dx != 0.0
    ensures dy / dx * u * dx == dy * u
  {
    var q := dy / dx;
    assert q * dx == dy;
    assert q * u * dx == q * dx * u;
  }

  lemma LineTimesWidth(y1: int, dy: int, dx: int, u: int)
    requires dx != 0
    ensures (y1 as real + dy as real / dx as real * u as real) * dx as real == (y1 * dx + dy * u) as real
  {
    var v := dy as real / dx as real * u as real;
    SlopeTimesWidth(dy as real, dx as real, u as real);
    assert (y1 as real + v) * dx as real == y1 as real * dx as real + v * dx as real;
    assert (y1 * dx) as real == y1 as real * dx as real;
    assert (dy * u) as real == dy as real * u as real;
  }

  lemma LineAt(y1: int, dy: int, dx: int, u: int, y: int)
    requires dx != 0 && y == Trunc(y1 as real + dy as real / dx as real * u as real)
    ensures IsQuotient(y1 * dx + dy * u, dx, y)
  {
    LineTimesWidth(y1, dy, dx, u);
    TruncIsQuotient(y1 * dx + dy * u, dx, y1 as real + dy as real / dx as real * u as real);
  }

  /** For every two knots and every time, between them or not. */
  lemma InterpolationIsOnLine(x1: int, x2: int, y1: int, y2: int, x: int)
    ensures x1 == x2 ==> Interpolation(x1, x2, y1, y2, x) == y1
    ensures x1 != x2 ==> OnLine(x1, x2, y1, y2, x, Interpolation(x1, x2, y1, y2, x))
  {
    if x1 != x2 {
      LineAt(y1, y2 - y1, x2 - x1, x - x1, Interpolation(x1, x2, y1, y2, x));
    }
  }

  // ----- interpolation stays between its knots -----

  lemma TruncBetween(x: real, lo: int, hi: int)
    requires lo as real <= x <= hi as real
    ensures lo <= Trunc(x) <= hi
  {
  }

  lemma SlopeBetween(dy: real, dx: real, u: real)
    requires dx > 0.0 && 0.0 <= u <= dx
    ensures dy >= 0.0 ==> 0.0 <= dy / dx * u <= dy
    ensures dy <= 0.0 ==> dy <= dy / dx * u <= 0.0
  {
    var q := dy / dx;
    assert q * dx == dy;
    if dy >= 0.0 {
      assert q >= 0.0;
      assert 0.0 <= q * u && q * u <= q * dx;
    } else {
      assert q <= 0.0;
      assert q * u <= 0.0 && q * u >= q * dx;
    }
  }

  lemma OffsetBetween(x1: int, x2: int, y1: int, y2: int, x: int, v: real)
    requires x1 < x2 && v == (y2 - y1) as real / (x2 - x1) as real * (x - x1) as real
    requires y2 >= y1 ==> 0.0 <= v <= (y2 - y1) as real
    requires y2 <= y1 ==> (y2 - y1) as real <= v <= 0.0
    ensures Min(y1, y2) <= Interpolation(x1, x2, y1, y2, x) <= Max(y1, y2)
  {
    var r := Interpolation(x1, x2, y1, y2, x);
    assert r == Trunc(y1 as real + v);
    TruncBetween(y1 as real + v, Min(y1, y2), Max(y1, y2));
  }

  /** Between two knots the interpolated value lies between the knots' values. */
  lemma InterpolationBetween(x1: int, x2: int, y1: int, y2: int, x: int)
    requires x1 <= x <= x2
    ensures Min(y1, y2) <= Interpolation(x1, x2, y1, y2, x) <= Max(y1, y2)
  {
    if x1 < x2 {
      var dy, dx, u := (y2 - y1) as real, (x2 - x1) as real, (x - x1) as real;
      SlopeBetween(dy, dx, u);
      OffsetBetween(x1, x2, y1, y2, x, dy / dx * u);
    }
  }

  /** The interpolation the merge makes at (i, j), if any, asks for a time between its two knots. */
  ghost predicate QueryBracketed(l: seq<Point>, r: seq<Point>, i: nat, j: nat)
    requires l != [] && r != [] && i <= |l| && j <= |r|
  {
    i < |l| && j < |r| && !Outside(l, r, l[i].time) && !Outside(l, r, r[j].time) ==>
      && (l[i].time < r[j].time && j > 0 ==> r[j - 1].time <= l[i].time)
      && (l[i].time > r[j].time && i > 0 ==> l[i - 1].time <= r[j].time)
  }

  /** No interpolation from here on extrapolates. */
  ghost predicate NeverExtrapolates(l: seq<Point>, r: seq<Point>, i: nat, j: nat)
    requires l != [] && r != [] && i <= |l| && j <= |r|
    decreases |l| - i + |r| - j
  {
    if i == |l| && j == |r| then true
    else
      var (i', j') := Next(l, r, i, j);
      QueryBracketed(l, r, i, j) && NeverExtrapolates(l, r, i', j')
  }

  /** The counterpart of Aligned for curves in which times may repeat. */
  ghost predicate Bracketing(l: seq<Point>, r: seq<Point>, i: nat, j: nat)
    requires l != [] && r != [] && i <= |l| && j <= |r|
  {
    i < |l| && j < |r| && l[i].time <= OverlapRight(l, r) && r[j].time <= OverlapRight(l, r) ==>
      && (l[i].time < OverlapLeft(l, r) ==> j == 0)
      && (r[j].time < OverlapLeft(l, r) && i > 0 ==> l[i - 1].time < OverlapLeft(l, r))
      && (l[i].time >= OverlapLeft(l, r) && j > 0 ==> r[j - 1].time <= l[i].time)
      && (r[j].time >= OverlapLeft(l, r) && i > 0 ==> l[i - 1].time <= r[j].time)
  }

  lemma BracketingGoesOn(l: seq<Point>, r: seq<Point>, i: nat, j: nat)
    requires l != [] && r != [] && i <= |l| && j <= |r| && !(i == |l| && j == |r|)
    requires TimeSorted(l) && TimeSorted(r) && Bracketing(l, r, i, j)
    ensures var (i', j') := Next(l, r, i, j);
            Bracketing(l, r, i', j')
  {
  }

  lemma {:induction false} SortedNeverExtrapolatesFrom(l: seq<Point>, r: seq<Point>, i: nat, j: nat)
    requires l != [] && r != [] && i <= |l| && j <= |r|
    requires TimeSorted(l) && TimeSorted(r) && Bracketing(l, r, i, j)
    ensures NeverExtrapolates(l, r, i, j)
    decreases |l| - i + |r| - j
  {
    if !(i == |l| && j == |r|) {
      var (i', j') := Next(l, r, i, j);
      BracketingGoesOn(l, r, i, j);
      SortedNeverExtrapolatesFrom(l, r, i', j');
    }
  }

  /** On time-sorted curves every interpolation of the merge asks for a time between its knots. */
  lemma SortedNeverExtrapolates(l: seq<Point>, r: seq<Point>)
    requires l != [] && r != [] && TimeSorted(l) && TimeSorted(r)
    ensures NeverExtrapolates(l, r, 0, 0)
  {
    SortedNeverExtrapolatesFrom(l, r, 0, 0);
  }

  lemma BlendWithInRange(p: Point, a: Point, b: Point)
    requires PointInRange(p) && PointInRange(a) && PointInRange(b)
    requires a.time <= p.time <= b.time
    ensures PointInRange(BlendWith(p, a, b))
    ensures BlendWith(p, a, b).intensity >= p.intensity
  {
    InterpolationBetween(a.time, b.time, a.intensity, b.intensity, p.time);
    InterpolationBetween(a.time, b.time, a.frequency, b.frequency, p.time);
  }

  lemma {:induction false} BracketedInRange(l: seq<Point>, r: seq<Point>, i: nat, j: nat)
    requires l != [] && r != [] && i <= |l| && j <= |r|
    requires InRange(l) && InRange(r) && NeverExtrapolates(l, r, i, j)
    ensures InRange(MergeFrom(l, r, i, j))
    decreases |l| - i + |r| - j
  {
    if !(i == |l| && j == |r|) {
      var c := MergeFrom(l, r, i, j);
      var (i', j') := Next(l, r, i, j);
      BracketedInRange(l, r, i', j');
      EmittedInRange(l, r, i, j);
      assert c == [c[0]] + c[1..];
    }
  }

  lemma EmittedInRange(l: seq<Point>, r: seq<Point>, i: nat, j: nat)
    requires l != [] && r != [] && i <= |l| && j <= |r| && !(i == |l| && j == |r|)
    requires InRange(l) && InRange(r) && QueryBracketed(l, r, i, j)
    ensures PointInRange(MergeFrom(l, r, i, j)[0])
  {
    if i < |l| && (Outside(l, r, l[i].time) || j == |r|) {
    } else if j < |r| && (Outside(l, r, r[j].time) || i == |l|) {
    } else if l[i].time < r[j].time && j > 0 {
      BlendWithInRange(l[i], r[j - 1], r[j]);
    } else if l[i].time > r[j].time && i > 0 {
      BlendWithInRange(r[j], l[i - 1], l[i]);
    } else {
      assert PointInRange(l[i]) && PointInRange(r[j]);
    }
  }

  /** Merging two time-sorted curves whose values are in range gives values in range. */
  lemma MergeStaysInRange(l: seq<Point>, r: seq<Point>)
    requires TimeSorted(l) && TimeSorted(r) && InRange(l) && InRange(r)
    ensures InRange(Merge(l, r))
  {
    if l != [] && r != [] {
      SortedNeverExtrapolates(l, r);
      BracketedInRange(l, r, 0, 0);
    }
  }

  // ----- the merged curve as a function of time -----

  /** Index of the first knot at or after t. */
  function KnotAt(c: seq<Point>, t: int): (k: nat)
    requires c != [] && t <= c[|c| - 1].time
    ensures k < |c| && c[k].time >= t
    ensures forall m :: 0 <= m < k ==> c[m].time < t
  {
    KnotFrom(c, t, 0)
  }

  function KnotFrom(c: seq<Point>, t: int, m: nat): (k: nat)
    requires m < |c| && t <= c[|c| - 1].time
    requires forall n :: 0 <= n < m ==> c[n].time < t
    ensures m <= k < |c| && c[k].time >= t
    ensures forall n :: 0 <= n < k ==> c[n].time < t
    decreases |c| - m
  {
    if c[m].time >= t then m else KnotFrom(c, t, m + 1)
  }

  /** The curve read as a function of time, piecewise linear between its knots. */
  function ValueAt(c: seq<Point>, t: int): Point
    requires c != [] && c[0].time <= t <= c[|c| - 1].time
  {
    var k := KnotAt(c, t);
    if c[k].time == t || k == 0 then c[k]
    else Point(t, Interpolation(c[k - 1].time, c[k].time, c[k - 1].intensity, c[k].intensity, t),
                  Interpolation(c[k - 1].time, c[k].time, c[k - 1].frequency, c[k].frequency, t))
  }

  /** What the curve has at t, k being its first knot at or after t: the values of that knot if it is at
      t, otherwise those of the line from the knot before. */
  ghost predicate HasAt(c: seq<Point>, k: nat, t: int, v: Point)
    requires k < |c|
  {
    && v.time == t && c[k].time >= t && (forall m :: 0 <= m < k ==> c[m].time < t)
    && if c[k].time == t then v == c[k]
       else k > 0 && OnLine(c[k - 1].time, c[k].time, c[k - 1].intensity, c[k].intensity, t, v.intensity)
                  && OnLine(c[k - 1].time, c[k].time, c[k - 1].frequency, c[k].frequency, t, v.frequency)
  }

  ghost predicate Has(c: seq<Point>, t: int, v: Point) {
    exists k :: 0 <= k < |c| && HasAt(c, k, t, v)
  }

  /** Every curve has exactly one value at each time it spans, in time order or not. */
  lemma HasExactlyOne(c: seq<Point>, t: int, v: Point)
    requires c != [] && c[0].time <= t <= c[|c| - 1].time
    ensures Has(c, t, v) <==> v == ValueAt(c, t)
  {
    var k := KnotAt(c, t);
    var w := ValueAt(c, t);
    if k > 0 {
      InterpolationIsOnLine(c[k - 1].time, c[k].time, c[k - 1].intensity, c[k].intensity, t);
      InterpolationIsOnLine(c[k - 1].time, c[k].time, c[k - 1].frequency, c[k].frequency, t);
    }
    assert HasAt(c, k, t, w);
    if Has(c, t, v) {
      var j :| 0 <= j < |c| && HasAt(c, j, t, v);
      assert j == k;
      OneValue(c, k, t, v, w);
    }
  }

  lemma OneValue(c: seq<Point>, k: nat, t: int, v: Point, w: Point)
    requires k < |c| && HasAt(c, k, t, v) && HasAt(c, k, t, w)
    ensures v == w
  {
    if c[k].time != t {
      var a, b := c[k - 1], c[k];
      var d := b.time - a.time;
      QuotientUnique(a.intensity * d + (b.intensity - a.intensity) * (t - a.time), d, v.intensity, w.intensity);
      QuotientUnique(a.frequency * d + (b.frequency - a.frequency) * (t - a.time), d, v.frequency, w.frequency);
    }
  }

  /** The stronger of the two intensities and the mean of the two frequencies. */
  ghost predicate Blends(a: Point, b: Point, p: Point) {
    && ((p.intensity == a.intensity && a.intensity >= b.intensity)
        || (p.intensity == b.intensity && b.intensity >= a.intensity))
    && IsQuotient(a.frequency + b.frequency, 2, p.frequency)
  }

  /** What the merged curve should hold at one of its times: where the curves overlap, what both have
      there, blended; elsewhere the curve that is there. */
  ghost predicate HasMergedValue(l: seq<Point>, r: seq<Point>, p: Point)
    requires l != [] && r != []
  {
    if Outside(l, r, p.time) then p in l || p in r
    else exists a, b :: Has(l, p.time, a) && Has(r, p.time, b) && Blends(a, b, p)
  }

  lemma BlendOfValues(l: seq<Point>, r: seq<Point>, p: Point)
    requires l != [] && r != [] && !Outside(l, r, p.time)
    requires var a, b := ValueAt(l, p.time), ValueAt(r, p.time);
             p == Point(p.time, Max(a.intensity, b.intensity), TruncDiv(a.frequency + b.frequency, 2))
    ensures HasMergedValue(l, r, p)
  {
    var a, b := ValueAt(l, p.time), ValueAt(r, p.time);
    HasExactlyOne(l, p.time, a);
    HasExactlyOne(r, p.time, b);
    TruncDivIsQuotient(a.frequency + b.frequency, 2);
    assert Blends(a, b, p);
  }

  lemma KnotUnique(c: seq<Point>, t: int, k: nat)
    requires TimeIncreasing(c) && k < |c| && c[k].time >= t && (k > 0 ==> c[k - 1].time < t)
    ensures t <= c[|c| - 1].time && KnotAt(c, t) == k
  {
    assert k < |c| - 1 ==> c[k].time < c[|c| - 1].time;
    assert forall n :: 0 <= n < k - 1 ==> c[n].time < c[k - 1].time;
  }

  lemma BlendedHasMergedValue(l: seq<Point>, r: seq<Point>, i: nat, j: nat, a: nat, b: nat)
    requires l != [] && r != [] && i < |l| && j < |r| && InStep(l, r, i, j, a, b)
    requires !Outside(l, r, l[i].time) && !Outside(l, r, r[j].time)
    ensures HasMergedValue(l, r, MergeFrom(l, r, i, j)[0])
  {
    if l[i].time < r[j].time && j > 0 {
      KnotUnique(l, l[i].time, i);
      KnotUnique(r, l[i].time, j);
    } else if l[i].time > r[j].time && i > 0 {
      KnotUnique(l, r[j].time, i);
      KnotUnique(r, r[j].time, j);
    } else {
      BothAdvanceOnEqualTimes(l, r, i, j);
      KnotUnique(l, l[i].time, i);
      KnotUnique(r, r[j].time, j);
    }
    BlendOfValues(l, r, MergeFrom(l, r, i, j)[0]);
  }

  lemma EmittedHasMergedValue(l: seq<Point>, r: seq<Point>, i: nat, j: nat, a: nat, b: nat)
    requires l != [] && r != [] && i <= |l| && j <= |r| && !(i == |l| && j == |r|)
    requires InStep(l, r, i, j, a, b)
    ensures HasMergedValue(l, r, MergeFrom(l, r, i, j)[0])
  {
    InStepPastEnd(l, r, i, j, a, b);
    if i < |l| && j < |r| && !Outside(l, r, l[i].time) && !Outside(l, r, r[j].time) {
      BlendedHasMergedValue(l, r, i, j, a, b);
    }
  }

  lemma {:induction false} CommonEndValues(l: seq<Point>, r: seq<Point>, i: nat, j: nat, a: nat, b: nat)
    requires l != [] && r != [] && i <= |l| && j <= |r|
    requires InStep(l, r, i, j, a, b)
    ensures forall p :: p in MergeFrom(l, r, i, j) ==> HasMergedValue(l, r, p)
    decreases |l| - i + |r| - j
  {
    if !(i == |l| && j == |r|) {
      var c := MergeFrom(l, r, i, j);
      var (i', j') := Next(l, r, i, j);
      NextInStep(l, r, i, j, a, b);
      CommonEndValues(l, r, i', j', a, b);
      EmittedHasMergedValue(l, r, i, j, a, b);
      assert c == [c[0]] + c[1..];
    }
  }

  /** Whenever the merged curve is in strict time order, it is the pointwise combination of the two
      curves, sampled at the knots of both. */
  lemma MergeIsPointwise(l: seq<Point>, r: seq<Point>)
    requires l != [] && r != [] && TimeIncreasing(l) && TimeIncreasing(r) && TimeIncreasing(Merge(l, r))
    ensures forall p :: p in Merge(l, r) ==> HasMergedValue(l, r, p)
  {
    MergeIncreasingIff(l, r);
    if EndIsCommon(l, r) {
      var a :| 0 <= a < |l| && l[a].time == OverlapRight(l, r);
      var b :| 0 <= b < |r| && r[b].time == OverlapRight(l, r);
      CommonEndValues(l, r, 0, 0, a, b);
    } else {
      DisjointMerge(l, r, 0, 0);
      assert Merge(l, r) == l + r;
    }
  }
}
