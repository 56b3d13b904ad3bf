/** What a merged curve is: which times it has, when it is in time order, and which values it holds. */
module CurveMergeProofs {
  import opened Haptics
  import opened CurveMerge

  function Times(c: seq<Point>): set<int> {
    set k | 0 <= k < |c| :: c[k].time
  }

  lemma TimesOfRest(c: seq<Point>, i: nat)
    requires i < |c|
    ensures Times(c[i..]) == {c[i].time} + Times(c[i + 1..])
  {
    forall t | t in Times(c[i..]) ensures t == c[i].time || t in Times(c[i + 1..]) {
      var k :| 0 <= k < |c[i..]| && c[i..][k].time == t;
      assert k > 0 ==> c[i + 1..][k - 1].time == t;
    }
    forall t | t in Times(c[i + 1..]) ensures t in Times(c[i..]) {
      var k :| 0 <= k < |c[i + 1..]| && c[i + 1..][k].time == t;
      assert c[i..][k + 1].time == t;
    }
    assert c[i..][0].time in Times(c[i..]);
  }

  lemma TimesOfCons(p: Point, c: seq<Point>)
    ensures Times([p] + c) == {p.time} + Times(c)
  {
    TimesOfRest([p] + c, 0);
    assert ([p] + c)[1..] == c && ([p] + c)[0..] == [p] + c;
  }

  /** The branch that advances both cursors is reached with equal times only. */
  lemma BothAdvanceOnEqualTimes(l: seq<Point>, r: seq<Point>, i: nat, j: nat)
    requires l != [] && r != [] && i < |l| && j < |r|
    requires !Outside(l, r, l[i].time) && !Outside(l, r, r[j].time)
    requires !(l[i].time < r[j].time && j > 0) && !(l[i].time > r[j].time && i > 0)
    ensures l[i].time == r[j].time
  {
  }

  lemma {:induction false} MergeFromTimes(l: seq<Point>, r: seq<Point>, i: nat, j: nat)
    requires l != [] && r != [] && i <= |l| && j <= |r|
    ensures Times(MergeFrom(l, r, i, j)) == Times(l[i..]) + Times(r[j..])
    ensures Max(|l| - i, |r| - j) <= |MergeFrom(l, r, i, j)| <= |l| - i + |r| - j
    decreases |l| - i + |r| - j
  {
    var c := MergeFrom(l, r, i, j);
    if c != [] {
      if i < |l| { TimesOfRest(l, i); }
      if j < |r| { TimesOfRest(r, j); }
      TimesOfCons(c[0], c[1..]);
      assert c == [c[0]] + c[1..];
    }
    if i == |l| && j == |r| {
    } else if i < |l| && (Outside(l, r, l[i].time) || j == |r|) {
      MergeFromTimes(l, r, i + 1, j);
    } else if j < |r| && (Outside(l, r, r[j].time) || i == |l|) {
      MergeFromTimes(l, r, i, j + 1);
    } else if l[i].time < r[j].time && j > 0 {
      MergeFromTimes(l, r, i + 1, j);
    } else if l[i].time > r[j].time && i > 0 {
      MergeFromTimes(l, r, i, j + 1);
    } else {
      BothAdvanceOnEqualTimes(l, r, i, j);
      MergeFromTimes(l, r, i + 1, j + 1);
    }
  }

  /** Sorted or not, the merged curve has a point at exactly the times at which either curve has one. */
  lemma MergeKeepsExactlyTheTimes(l: seq<Point>, r: seq<Point>)
    ensures Times(Merge(l, r)) == Times(l) + Times(r)
    ensures Max(|l|, |r|) <= |Merge(l, r)| <= |l| + |r|
  {
    if l != [] && r != [] {
      MergeFromTimes(l, r, 0, 0);
      assert l[0..] == l && r[0..] == r;
    }
  }

  // ----- order -----

  /** The time at which the first of the two curves ends is a knot of both. */
  ghost predicate EndIsCommon(l: seq<Point>, r: seq<Point>)
    requires l != [] && r != []
  {
    OverlapRight(l, r) in Times(l) && OverlapRight(l, r) in Times(r)
  }

  lemma ConsIncreasing(p: Point, c: seq<Point>)
    requires TimeIncreasing(c)
    requires forall t :: t in Times(c) ==> p.time < t
    ensures TimeIncreasing([p] + c)
  {
    forall k | 0 <= k < |c| ensures p.time < c[k].time {
      assert c[k].time in Times(c);
    }
  }

  lemma ConsDisordered(p: Point, c: seq<Point>, t: int)
    requires !TimeIncreasing(c) || (t in Times(c) && t <= p.time)
    ensures !TimeIncreasing([p] + c)
  {
    var pc := [p] + c;
    if TimeIncreasing(c) {
      var k :| 0 <= k < |c| && c[k].time == t;
      assert pc[k + 1].time <= pc[0].time;
    } else {
      var a, b :| 0 <= a < b < |c| && c[a].time >= c[b].time;
      assert pc[a + 1].time >= pc[b + 1].time;
    }
  }

  lemma TimesFrom(c: seq<Point>, i: nat)
    requires TimeIncreasing(c) && i <= |c|
    ensures forall t :: t in Times(c[i..]) ==> i < |c| && c[i].time <= t <= c[|c| - 1].time
    ensures forall t :: i > 0 && t in Times(c[i..]) ==> c[i - 1].time < t
  {
  }

  /** For curves in strict time order, the cursors bracket each other while both are inside the overlap. */
  ghost predicate Aligned(l: seq<Point>, r: seq<Point>, i: nat, j: nat)
    requires l != [] && r != [] && i <= |l| && j <= |r|
  {
    i < |l| && j < |r| && l[i].time <= OverlapRight(l, r) && r[j].time <= OverlapRight(l, r) ==>
      && (l[i].time < OverlapLeft(l, r) ==> j == 0)
      && (r[j].time < OverlapLeft(l, r) && i > 0 ==> l[i - 1].time < OverlapLeft(l, r))
      && (l[i].time >= OverlapLeft(l, r) && j > 0 ==> r[j - 1].time < l[i].time)
      && (r[j].time >= OverlapLeft(l, r) && i > 0 ==> l[i - 1].time < r[j].time)
  }

  /** a and b are where the common end stands in the two curves; it is consumed by both cursors at once. */
  ghost predicate InStep(l: seq<Point>, r: seq<Point>, i: nat, j: nat, a: nat, b: nat)
    requires l != [] && r != [] && i <= |l| && j <= |r|
  {
    && TimeIncreasing(l) && TimeIncreasing(r) && Aligned(l, r, i, j)
    && a < |l| && b < |r| && l[a].time == r[b].time == OverlapRight(l, r)
    && (i <= a <==> j <= b)
  }

  lemma InStepPastEnd(l: seq<Point>, r: seq<Point>, i: nat, j: nat, a: nat, b: nat)
    requires l != [] && r != [] && i <= |l| && j <= |r|
    requires InStep(l, r, i, j, a, b)
    ensures OverlapLeft(l, r) <= OverlapRight(l, r)
    ensures i < |l| && l[i].time > OverlapRight(l, r) ==> j == |r|
    ensures j < |r| && r[j].time > OverlapRight(l, r) ==> i == |l|
    ensures i < |l| && j == |r| ==> l[i].time > OverlapRight(l, r)
    ensures j < |r| && i == |l| ==> r[j].time > OverlapRight(l, r)
  {
    assert l[0].time <= l[a].time && r[0].time <= r[b].time;
    if a < |l| - 1 { assert l[a].time < l[|l| - 1].time; }
    if b < |r| - 1 { assert r[b].time < r[|r| - 1].time; }
  }

  /** Where the cursors stand after one more point is emitted. */
  function Next(l: seq<Point>, r: seq<Point>, i: nat, j: nat): (ij: (nat, nat))
    requires l != [] && r != [] && i <= |l| && j <= |r| && !(i == |l| && j == |r|)
    ensures i <= ij.0 <= |l| && j <= ij.1 <= |r| && i + j < ij.0 + ij.1
    ensures MergeFrom(l, r, i, j) != [] && MergeFrom(l, r, i, j)[1..] == MergeFrom(l, r, ij.0, ij.1)
  {
    if i < |l| && (Outside(l, r, l[i].time) || j == |r|) then (i + 1, j)
    else if j < |r| && (Outside(l, r, r[j].time) || i == |l|) then (i, j + 1)
    else if l[i].time < r[j].time && j > 0 then (i + 1, j)
    else if l[i].time > r[j].time && i > 0 then (i, j + 1)
    else (i + 1, j + 1)
  }

  lemma NextInStep(l: seq<Point>, r: seq<Point>, i: nat, j: nat, a: nat, b: nat)
    requires l != [] && r != [] && i <= |l| && j <= |r| && !(i == |l| && j == |r|)
    requires InStep(l, r, i, j, a, b)
    ensures InStep(l, r, Next(l, r, i, j).0, Next(l, r, i, j).1, a, b)
  {
    InStepPastEnd(l, r, i, j, a, b);
  }

  /** The emitted point precedes everything the cursors have still to consume. */
  lemma EmittedIsFirst(l: seq<Point>, r: seq<Point>, i: nat, j: nat, a: nat, b: nat)
    requires l != [] && r != [] && i <= |l| && j <= |r| && !(i == |l| && j == |r|)
    requires InStep(l, r, i, j, a, b)
    ensures var (i', j') := Next(l, r, i, j);
            forall t :: t in Times(l[i'..]) + Times(r[j'..]) ==> MergeFrom(l, r, i, j)[0].time < t
  {
    InStepPastEnd(l, r, i, j, a, b);
    var (i', j') := Next(l, r, i, j);
    TimesFrom(l, i');
    TimesFrom(r, j');
  }

  lemma {:induction false} CommonEndIncreasing(l: seq<Point>, r: seq<Point>, i: nat, j: nat, a: nat, b: nat)
    requires l != [] && r != [] && i <= |l| && j <= |r|
    requires InStep(l, r, i, j, a, b)
    ensures TimeIncreasing(MergeFrom(l, r, i, j))
    decreases |l| - i + |r| - j
  {
    if !(i == |l| && j == |r|) {
      var (i', j') := Next(l, r, i, j);
      NextInStep(l, r, i, j, a, b);
      CommonEndIncreasing(l, r, i', j', a, b);
      MergeFromTimes(l, r, i', j');
      EmittedIsFirst(l, r, i, j, a, b);
      var c := MergeFrom(l, r, i, j);
      ConsIncreasing(c[0], c[1..]);
      assert c == [c[0]] + c[1..];
    }
  }

  /** The left curve ends before the right one begins: nothing is blended. */
  lemma {:induction false} DisjointMerge(l: seq<Point>, r: seq<Point>, i: nat, j: nat)
    requires l != [] && r != [] && i <= |l| && j <= |r| && (j > 0 ==> i == |l|)
    requires OverlapLeft(l, r) > OverlapRight(l, r)
    ensures MergeFrom(l, r, i, j) == l[i..] + r[j..]
    decreases |l| - i + |r| - j
  {
    if i < |l| {
      DisjointMerge(l, r, i + 1, j);
      assert l[i..] == [l[i]] + l[i + 1..];
    } else if j < |r| {
      DisjointMerge(l, r, i, j + 1);
      assert r[j..] == [r[j]] + r[j + 1..];
    }
  }

  /** While both curves have points left and the common end is missing from one of them,
      a later point is emitted before an earlier one. */
  lemma {:induction false} MissingEndDisorders(l: seq<Point>, r: seq<Point>, i: nat, j: nat)
    requires TimeIncreasing(l) && TimeIncreasing(r)
    requires l != [] && r != [] && i < |l| && j < |r|
    requires OverlapLeft(l, r) <= OverlapRight(l, r) && !EndIsCommon(l, r)
    ensures !TimeIncreasing(MergeFrom(l, r, i, j))
    decreases |l| - i + |r| - j
  {
    var c := MergeFrom(l, r, i, j);
    var (i', j') := Next(l, r, i, j);
    var end := OverlapRight(l, r);
    assert l[|l| - 1].time in Times(l) && r[|r| - 1].time in Times(r);
    assert c == [c[0]] + c[1..];
    if c[0].time > end {
      MergeFromTimes(l, r, i', j');
      EndStillToCome(l, r, i', j');
      ConsDisordered(c[0], c[1..], end);
    } else {
      StillBothLeft(l, r, i, j);
      MissingEndDisorders(l, r, i', j');
      ConsDisordered(c[0], c[1..], end);
    }
  }

  lemma EndStillToCome(l: seq<Point>, r: seq<Point>, i: nat, j: nat)
    requires TimeIncreasing(l) && TimeIncreasing(r)
    requires l != [] && r != [] && i <= |l| && j <= |r|
    requires if l[|l| - 1].time < r[|r| - 1].time then i < |l| else j < |r|
    ensures OverlapRight(l, r) in Times(l[i..]) + Times(r[j..])
  {
    if l[|l| - 1].time < r[|r| - 1].time {
      assert l[i..][|l| - 1 - i] == l[|l| - 1];
    } else {
      assert r[j..][|r| - 1 - j] == r[|r| - 1];
    }
  }

  lemma NotLast(c: seq<Point>, i: nat, end: int)
    requires TimeIncreasing(c) && i < |c| && c[i].time < end <= c[|c| - 1].time
    ensures i + 1 < |c|
  {
  }

  lemma StillBothLeft(l: seq<Point>, r: seq<Point>, i: nat, j: nat)
    requires TimeIncreasing(l) && TimeIncreasing(r)
    requires l != [] && r != [] && i < |l| && j < |r|
    requires OverlapLeft(l, r) <= OverlapRight(l, r) && !EndIsCommon(l, r)
    requires MergeFrom(l, r, i, j)[0].time <= OverlapRight(l, r)
    ensures Next(l, r, i, j).0 < |l| && Next(l, r, i, j).1 < |r|
  {
    var end := OverlapRight(l, r);
    if Outside(l, r, l[i].time) {
      NotLast(l, i, end);
    } else if Outside(l, r, r[j].time) {
      NotLast(r, j, end);
    } else if l[i].time < r[j].time && j > 0 {
      NotLast(l, i, end);
    } else if l[i].time > r[j].time && i > 0 {
      NotLast(r, j, end);
    } else {
      assert l[i].time == r[j].time;
      assert l[i].time in Times(l) && r[j].time in Times(r);
      NotLast(l, i, end);
      NotLast(r, j, end);
    }
  }

  /** Two curves in strict time order merge into one in strict time order if and only if the left
      one ends before the right one begins, or the time at which the first of them ends is a
      knot of both. */
  lemma MergeIncreasingIff(l: seq<Point>, r: seq<Point>)
    requires l != [] && r != [] && TimeIncreasing(l) && TimeIncreasing(r)
    ensures TimeIncreasing(Merge(l, r)) <==> l[|l| - 1].time < r[0].time || EndIsCommon(l, r)
  {
    if EndIsCommon(l, r) {
      var a :| 0 <= a < |l| && l[a].time == OverlapRight(l, r);
      var b :| 0 <= b < |r| && r[b].time == OverlapRight(l, r);
      CommonEndIncreasing(l, r, 0, 0, a, b);
    } else if OverlapLeft(l, r) > OverlapRight(l, r) {
      DisjointMerge(l, r, 0, 0);
      var c := l[0..] + r[0..];
      assert c[|l| - 1] == l[|l| - 1] && c[|l|] == r[0];
    } else {
      MissingEndDisorders(l, r, 0, 0);
    }
  }

  // ----- disorder stays -----

  /** A step that advances the left cursor emits the time it stood at. */
  lemma LeftStepEmitsLeft(l: seq<Point>, r: seq<Point>, i: nat, j: nat)
    requires l != [] && r != [] && i < |l| && j <= |r| && Next(l, r, i, j).0 == i + 1
    ensures MergeFrom(l, r, i, j)[0].time == l[i].time
  {
    if j < |r| && !Outside(l, r, l[i].time) && !Outside(l, r, r[j].time)
       && !(l[i].time < r[j].time && j > 0) && !(l[i].time > r[j].time && i > 0) {
      BothAdvanceOnEqualTimes(l, r, i, j);
    }
  }

  /** Points of the left curve that are out of order are emitted out of order. */
  lemma {:induction false} MergeFromKeepsDisorder(l: seq<Point>, r: seq<Point>, i: nat, j: nat, a: nat, b: nat)
    requires l != [] && r != [] && j <= |r| && i <= a < b < |l| && l[a].time >= l[b].time
    ensures !TimeIncreasing(MergeFrom(l, r, i, j))
    decreases |l| - i + |r| - j
  {
    var c := MergeFrom(l, r, i, j);
    var (i', j') := Next(l, r, i, j);
    assert c == [c[0]] + c[1..];
    if i' <= a {
      MergeFromKeepsDisorder(l, r, i', j', a, b);
      ConsDisordered(c[0], c[1..], 0);
    } else {
      LeftStepEmitsLeft(l, r, i, j);
      MergeFromTimes(l, r, i', j');
      assert l[i'..][b - i'] == l[b];
      assert l[b].time in Times(l[i'..]);
      ConsDisordered(c[0], c[1..], l[b].time);
    }
  }

  /** A curve that is out of order stays so, whatever is merged into it. */
  lemma MergeKeepsDisorder(l: seq<Point>, r: seq<Point>)
    requires l != [] && r != [] && !TimeIncreasing(l)
    ensures !TimeIncreasing(Merge(l, r))
  {
    var a, b :| 0 <= a < b < |l| && l[a].time >= l[b].time;
    MergeFromKeepsDisorder(l, r, 0, 0, a, b);
  }

  /** The last point of a curve in order has the latest of its times. */
  lemma LastIsLatest(c: seq<Point>, t: int)
    requires TimeIncreasing(c) && t in Times(c)
    ensures t <= c[|c| - 1].time && c[|c| - 1].time in Times(c)
  {
    assert c[|c| - 1].time in Times(c);
  }

  /** Where two curves in order merge into one in order, it ends when the later of them does. */
  lemma MergeEndsLatest(l: seq<Point>, r: seq<Point>)
    requires l != [] && r != [] && TimeIncreasing(l) && TimeIncreasing(r) && TimeIncreasing(Merge(l, r))
    ensures Merge(l, r) != [] && Merge(l, r)[|Merge(l, r)| - 1].time == Max(l[|l| - 1].time, r[|r| - 1].time)
  {
    var c := Merge(l, r);
    MergeKeepsExactlyTheTimes(l, r);
    assert l[|l| - 1].time in Times(l) && r[|r| - 1].time in Times(r);
    LastIsLatest(c, l[|l| - 1].time);
    LastIsLatest(c, r[|r| - 1].time);
    var t := c[|c| - 1].time;
    if t in Times(l) {
      LastIsLatest(l, t);
    } else {
      LastIsLatest(r, t);
    }
  }
}
