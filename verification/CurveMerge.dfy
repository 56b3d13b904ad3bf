/** Merging the intensity/frequency curves of two overlapping events
    (CustomVibrationMatcher::MergeCurve and Interpolation). */
module CurveMerge {
  import opened Haptics

  /** Linear interpolation between the knots (x1, y1) and (x2, y2), over the reals, truncated. */
  function Interpolation(x1: int, x2: int, y1: int, y2: int, x: int): int {
    if x1 == x2 then y1
    else Trunc(y1 as real + (y2 - y1) as real / (x2 - x1) as real * (x - x1) as real)
  }

  function OverlapLeft(l: seq<Point>, r: seq<Point>): int
    requires l != [] && r != []
  {
    Max(l[0].time, r[0].time)
  }

  function OverlapRight(l: seq<Point>, r: seq<Point>): int
    requires l != [] && r != []
  {
    Min(l[|l| - 1].time, r[|r| - 1].time)
  }

  /** The time lies outside the span the two curves share. */
  predicate Outside(l: seq<Point>, r: seq<Point>, t: int)
    requires l != [] && r != []
  {
    t < OverlapLeft(l, r) || t > OverlapRight(l, r)
  }

  /** The point p of one curve, blended with what the segment from a to b of the other has at p.time. */
  function BlendWith(p: Point, a: Point, b: Point): Point {
    Point(p.time,
          Max(p.intensity, Interpolation(a.time, b.time, a.intensity, b.intensity, p.time)),
          TruncDiv(p.frequency + Interpolation(a.time, b.time, a.frequency, b.frequency, p.time), 2))
  }

  /** Two points that coincide. */
  function BlendBoth(p: Point, q: Point): Point {
    Point(q.time, Max(p.intensity, q.intensity), TruncDiv(p.frequency + q.frequency, 2))
  }

  /** What the merge still has to emit when the cursors stand at i and j. */
  function MergeFrom(l: seq<Point>, r: seq<Point>, i: nat, j: nat): (c: seq<Point>)
    requires l != [] && r != [] && i <= |l| && j <= |r|
    decreases |l| - i + |r| - j
  {
    if i == |l| && j == |r| then []
    else if i < |l| && (Outside(l, r, l[i].time) || j == |r|) then [l[i]] + MergeFrom(l, r, i + 1, j)
    else if j < |r| && (Outside(l, r, r[j].time) || i == |l|) then [r[j]] + MergeFrom(l, r, i, j + 1)
    else if l[i].time < r[j].time && j > 0 then [BlendWith(l[i], r[j - 1], r[j])] + MergeFrom(l, r, i + 1, j)
    else if l[i].time > r[j].time && i > 0 then [BlendWith(r[j], l[i - 1], l[i])] + MergeFrom(l, r, i, j + 1)
    else [BlendBoth(l[i], r[j])] + MergeFrom(l, r, i + 1, j + 1)
  }

  function Merge(l: seq<Point>, r: seq<Point>): seq<Point> {
    if l == [] then r else if r == [] then l else MergeFrom(l, r, 0, 0)
  }

  /** The accumulated output together with what is still to come makes up the whole merge. */
  ghost predicate Completes(done: seq<Point>, l: seq<Point>, r: seq<Point>, i: nat, j: nat)
    requires l != [] && r != [] && i <= |l| && j <= |r|
  {
    done + MergeFrom(l, r, i, j) == MergeFrom(l, r, 0, 0)
  }

  lemma TakeLeft(done: seq<Point>, l: seq<Point>, r: seq<Point>, i: nat, j: nat)
    requires l != [] && r != [] && i < |l| && j <= |r|
    requires Outside(l, r, l[i].time) || j == |r|
    requires Completes(done, l, r, i, j)
    ensures Completes(done + [l[i]], l, r, i + 1, j)
  {
    assert done + ([l[i]] + MergeFrom(l, r, i + 1, j)) == (done + [l[i]]) + MergeFrom(l, r, i + 1, j);
  }

  lemma TakeRight(done: seq<Point>, l: seq<Point>, r: seq<Point>, i: nat, j: nat)
    requires l != [] && r != [] && i <= |l| && j < |r|
    requires i < |l| ==> !Outside(l, r, l[i].time)
    requires Outside(l, r, r[j].time) || i == |l|
    requires Completes(done, l, r, i, j)
    ensures Completes(done + [r[j]], l, r, i, j + 1)
  {
    assert done + ([r[j]] + MergeFrom(l, r, i, j + 1)) == (done + [r[j]]) + MergeFrom(l, r, i, j + 1);
  }

  lemma TakeBlended(done: seq<Point>, l: seq<Point>, r: seq<Point>, i: nat, j: nat, p: Point, i': nat, j': nat)
    requires l != [] && r != [] && i < |l| && j < |r| && i' <= |l| && j' <= |r|
    requires MergeFrom(l, r, i, j) == [p] + MergeFrom(l, r, i', j')
    requires Completes(done, l, r, i, j)
    ensures Completes(done + [p], l, r, i', j')
  {
    assert done + ([p] + MergeFrom(l, r, i', j')) == (done + [p]) + MergeFrom(l, r, i', j');
  }

  /** The next point where the curves overlap, and the cursors after it. */
  method BlendNext(curveLeft: seq<Point>, curveRight: seq<Point>, i: nat, j: nat)
    returns (newCurvePoint: Point, i': nat, j': nat)
    requires i < |curveLeft| && j < |curveRight|
    requires !Outside(curveLeft, curveRight, curveLeft[i].time) && !Outside(curveLeft, curveRight, curveRight[j].time)
    ensures i <= i' <= |curveLeft| && j <= j' <= |curveRight| && i + j < i' + j'
    ensures MergeFrom(curveLeft, curveRight, i, j) == [newCurvePoint] + MergeFrom(curveLeft, curveRight, i', j')
  {
    i', j' := i, j;
    if curveLeft[i].time < curveRight[j].time && j > 0 {
      newCurvePoint := BlendWith(curveLeft[i], curveRight[j - 1], curveRight[j]);
      i' := i + 1;
    } else if curveLeft[i].time > curveRight[j].time && i > 0 {
      newCurvePoint := BlendWith(curveRight[j], curveLeft[i - 1], curveLeft[i]);
      j' := j + 1;
    } else {
      newCurvePoint := BlendBoth(curveLeft[i], curveRight[j]);
      i' := i + 1;
      j' := j + 1;
    }
  }

  /** The two-cursor merge. It terminates for every pair of curves, sorted or not. */
  method MergeCurve(curveLeft: seq<Point>, curveRight: seq<Point>) returns (newCurve: seq<Point>)
    ensures newCurve == Merge(curveLeft, curveRight)
  {
    if curveLeft == [] { return curveRight; }
    if curveRight == [] { return curveLeft; }
    var overlapLeft := Max(curveLeft[0].time, curveRight[0].time);
    var overlapRight := Min(curveLeft[|curveLeft| - 1].time, curveRight[|curveRight| - 1].time);
    newCurve := [];
    var i, j := 0, 0;
    while i < |curveLeft| || j < |curveRight|
      invariant i <= |curveLeft| && j <= |curveRight|
      invariant Completes(newCurve, curveLeft, curveRight, i, j)
      decreases |curveLeft| - i + |curveRight| - j
    {
      ghost var left := |curveLeft| - i + |curveRight| - j;
      while i < |curveLeft| &&
            (curveLeft[i].time < overlapLeft || curveLeft[i].time > overlapRight || j == |curveRight|)
        invariant i <= |curveLeft|
        invariant |curveLeft| - i + |curveRight| - j <= left
        invariant Completes(newCurve, curveLeft, curveRight, i, j)
        decreases |curveLeft| - i
      {
        TakeLeft(newCurve, curveLeft, curveRight, i, j);
        newCurve := newCurve + [curveLeft[i]];
        i := i + 1;
      }
      while j < |curveRight| &&
            (curveRight[j].time < overlapLeft || curveRight[j].time > overlapRight || i == |curveLeft|)
        invariant j <= |curveRight|
        invariant |curveLeft| - i + |curveRight| - j <= left
        invariant Completes(newCurve, curveLeft, curveRight, i, j)
        decreases |curveRight| - j
      {
        TakeRight(newCurve, curveLeft, curveRight, i, j);
        newCurve := newCurve + [curveRight[j]];
        j := j + 1;
      }
      if i < |curveLeft| && j < |curveRight| {
        ghost var done, i0, j0 := newCurve, i, j;
        var newCurvePoint;
        newCurvePoint, i, j := BlendNext(curveLeft, curveRight, i, j);
        newCurve := newCurve + [newCurvePoint];
        TakeBlended(done, curveLeft, curveRight, i0, j0, newCurvePoint, i, j);
      }
    }
  }
}
