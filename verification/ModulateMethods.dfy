/** ModulatePackage on the C heap: the result shares no block with the input, and a failure part-way
    through leaves the heap exactly as it was. */
module ModulateMethods {
  import opened Haptics
  import opened ClientStructs
  import opened Modulate

  // ----- which blocks belong to a result under construction -----

  /** The point blocks of the first n events. */
  ghost function PointsOf(es: seq<VibratorEvent>, n: nat): set<Pointer>
    requires n <= |es|
  {
    set k | 0 <= k < n && es[k].points != NULL :: es[k].points
  }

  /** No two of the first n events share a point block. */
  ghost predicate Separate(es: seq<VibratorEvent>, n: nat)
    requires n <= |es|
  {
    forall a, b :: 0 <= a < b < n && es[a].points != NULL ==> es[a].points != es[b].points
  }

  /** The blocks now has beyond before: ps, es and qs, and nothing else. */
  ghost predicate Adds(before: Memory, now: Memory, ps: set<Pointer>, es: set<Pointer>, qs: set<Pointer>) {
    && Extends(before, now)
    && now.points.Keys == before.points.Keys + ps && before.points.Keys !! ps
    && now.events.Keys == before.events.Keys + es && before.events.Keys !! es
    && now.patterns.Keys == before.patterns.Keys + qs && before.patterns.Keys !! qs
  }

  /** Freeing exactly what was added restores the heap. */
  lemma FreedAll(before: Memory, now: Memory, ps: set<Pointer>, es: set<Pointer>, qs: set<Pointer>)
    requires Adds(before, now, ps, es, qs)
    ensures Memory(now.points - ps, now.events - es, now.patterns - qs) == before
  {
    assert now.points - ps == before.points;
    assert now.events - es == before.events;
    assert now.patterns - qs == before.patterns;
  }

  // ----- one event -----

  method GetCurveListAfterModulation(heap: Heap, iv: seq<Interval>, e: VibratorEvent, patternOffset: int)
    returns (p: Pointer)
    requires heap.Valid() && EventReadable(heap.mem, e) && e.pointNum > 0 && iv != []
    modifies heap
    ensures heap.Valid() && p != NULL && !IsLive(old(heap.mem), p)
    ensures heap.mem == old(heap.mem).(points := old(heap.mem).points[p :=
              ModulatedPoints(iv, patternOffset + e.time, EventView(old(heap.mem), e).points)])
  {
    ghost var before := heap.mem;
    ghost var source := EventView(before, e).points;
    p := heap.CallocPoints(e.pointNum);
    var modIdx := 0;
    var startTimeOffset := patternOffset + e.time;
    for k := 0 to e.pointNum
      invariant heap.Valid() && p in heap.mem.points && |heap.mem.points[p]| == e.pointNum
      invariant heap.mem == before.(points := before.points[p := heap.mem.points[p]])
      invariant forall m :: 0 <= m < k ==>
                  heap.mem.points[p][m] == ModulatedPoint(iv, startTimeOffset + source[m].time, source[m])
    {
      var point := heap.mem.points[e.points][k];
      modIdx := BinarySearchInterval(iv, startTimeOffset + point.time, modIdx);
      if modIdx >= 0 {
        point := Point(point.time, ScaledIntensity(point.intensity, iv[modIdx].intensity),
                       RestrictFrequencyRange(point.frequency + iv[modIdx].frequency));
      }
      heap.PutPoint(p, k, point);
    }
    assert heap.mem.points[p] == ModulatedPoints(iv, startTimeOffset, source);
  }

  /** What a finished event owes to the event it was made from. */
  ghost predicate MadeFrom(iv: seq<Interval>, before: Memory, now: Memory, patternStart: int,
                           e: VibratorEvent, r: VibratorEvent)
    requires iv != []
  {
    && EventReadable(now, r)
    && EventView(now, r) == ModulatedEvent(iv, before, patternStart, e)
    && (r.points != NULL ==> r.points in now.points)
    && (r.points == NULL <==> !UsesCurve(e))
  }

  method ModulateEventWithoutCurvePoints(iv: seq<Interval>, patternStartTime: int, e: VibratorEvent)
    returns (ok: bool, r: VibratorEvent)
    ensures ok <==> iv != []
    ensures r.points == NULL && r.pointNum == 0
    ensures ok ==> r == (var v := ModulatedStart(iv, e.time + patternStartTime,
                                    Event(e.kind, e.time, e.duration, e.intensity, e.frequency, e.index, []));
                         e.(pointNum := 0, points := NULL, intensity := v.intensity, frequency := v.frequency))
  {
    r := e.(pointNum := 0, points := NULL);
    var startTime := e.time + patternStartTime;
    var idx := BinarySearchInterval(iv, startTime, 0);
    if iv == [] { return false, r; }
    if idx >= 0 {
      if idx >= |iv| { return false, r; }
      r := r.(intensity := ScaledIntensity(e.intensity, iv[idx].intensity),
              frequency := RestrictFrequencyRange(e.frequency + iv[idx].frequency));
    }
    ok := true;
  }

  /** Curve points with no interval to search would be read out of bounds. */
  ghost predicate SafeCurve(c: Curve, e: VibratorEvent) {
    Intervals(c) == [] ==> !UsesCurve(e) || Refused(e)
  }

  method ModulateVibratorEvent(heap: Heap, curve: Curve, patternStartTime: int, e: VibratorEvent)
    returns (ok: bool, r: VibratorEvent)
    requires heap.Valid() && SafeCurve(curve, e) && (UsesCurve(e) && !Refused(e) ==> EventReadable(heap.mem, e))
    modifies heap
    ensures heap.Valid()
    ensures ok <==> Intervals(curve) != [] && !Refused(e)
    ensures !ok ==> heap.mem == old(heap.mem) && r.points == NULL
    ensures ok ==> MadeFrom(Intervals(curve), old(heap.mem), heap.mem, patternStartTime, e, r)
    ensures ok ==> Adds(old(heap.mem), heap.mem, if r.points == NULL then {} else {r.points}, {}, {})
  {
    var iv := ConvertVibratorEventsToCurveIntervals(curve, 0);
    assert curve.(time := curve.time + 0) == curve;
    if e.kind != Continuous || e.pointNum == 0 || e.points == NULL {
      ok, r := ModulateEventWithoutCurvePoints(iv, patternStartTime, e);
      return;
    }
    if e.pointNum < CURVE_POINT_NUM_MIN || e.pointNum > CURVE_POINT_NUM_MAX {
      return false, ZeroEvent;
    }
    var p := GetCurveListAfterModulation(heap, iv, e, patternStartTime);
    r := e.(points := p);
    assert heap.mem.points[p][..e.pointNum] == heap.mem.points[p];
    ok := true;
  }

  // ----- freeing what was built -----

  method FreePartiallyAllocatedVibratorEvents(heap: Heap, events: Pointer, partialIdx: int)
    requires heap.Valid() && partialIdx >= -1
    requires events != NULL ==>
               && events in heap.mem.events && partialIdx < |heap.mem.events[events]|
               && Separate(heap.mem.events[events], partialIdx + 1)
               && PointsOf(heap.mem.events[events], partialIdx + 1) <= heap.mem.points.Keys
    modifies heap`mem
    ensures heap.Valid()
    ensures events == NULL ==> heap.mem == old(heap.mem)
    ensures events != NULL ==>
      heap.mem == old(heap.mem).(points := old(heap.mem).points - PointsOf(old(heap.mem).events[events], partialIdx + 1),
                                 events := old(heap.mem).events - {events})
  {
    if events == NULL { return; }
    ghost var before := heap.mem;
    ghost var es := before.events[events];
    var i := partialIdx;
    while i >= 0
      invariant -1 <= i <= partialIdx && heap.Valid()
      invariant events in heap.mem.events && |heap.mem.events[events]| == |es|
      invariant heap.mem.events == before.events[events := heap.mem.events[events]]
      invariant forall k :: 0 <= k <= i ==> heap.mem.events[events][k] == es[k]
      invariant heap.mem.patterns == before.patterns
      invariant heap.mem.points == before.points - (PointsOf(es, partialIdx + 1) - PointsOf(es, i + 1))
    {
      ghost var gone := PointsOf(es, partialIdx + 1) - PointsOf(es, i + 1);
      PointsOfStep(es, i, partialIdx + 1);
      heap.FreePoints(heap.mem.events[events][i].points);
      assert before.points - gone - {es[i].points} == before.points - (gone + {es[i].points});
      FreedPoints(before.points, es, i, partialIdx + 1);
      heap.PutEvent(events, i, heap.mem.events[events][i].(points := NULL));
      i := i - 1;
    }
    assert PointsOf(es, 0) == {};
    assert PointsOf(es, partialIdx + 1) - {} == PointsOf(es, partialIdx + 1);
    heap.FreeEvents(events);
    assert heap.mem.events == before.events - {events};
  }

  lemma PointsOfStep(es: seq<VibratorEvent>, i: nat, n: nat)
    requires i < n <= |es| && Separate(es, n)
    ensures es[i].points != NULL ==> es[i].points in PointsOf(es, n) && es[i].points in PointsOf(es, i + 1)
    ensures es[i].points != NULL ==> es[i].points !in PointsOf(es, i)
    ensures PointsOf(es, i + 1) == PointsOf(es, i) + if es[i].points == NULL then {} else {es[i].points}
  {
  }

  lemma FreedPoints(points: map<Pointer, seq<Point>>, es: seq<VibratorEvent>, i: nat, n: nat)
    requires i < n <= |es| && Separate(es, n) && NULL !in points
    ensures points - ((PointsOf(es, n) - PointsOf(es, i + 1)) + {es[i].points})
         == points - (PointsOf(es, n) - PointsOf(es, i))
  {
    PointsOfStep(es, i, n);
  }

  // ----- one pattern -----

  /** The pattern's event block is there, and its events can be modulated without reading amiss. */
  ghost predicate PatternGiven(m: Memory, c: Curve, p: VibratorPattern) {
    p.eventNum > 0 && p.events != NULL ==>
      && p.events in m.events && p.eventNum <= |m.events[p.events]|
      && forall k :: 0 <= k < p.eventNum ==> EventGiven(m, c, m.events[p.events][k])
  }

  ghost predicate EventGiven(m: Memory, c: Curve, e: VibratorEvent) {
    SafeCurve(c, e) && (UsesCurve(e) && !Refused(e) ==> EventReadable(m, e))
  }

  /** The pattern has events and none of them is refused. */
  predicate PatternAccepted(m: Memory, p: VibratorPattern) {
    && p.eventNum > 0 && p.events != NULL
    && p.events in m.events && p.eventNum <= |m.events[p.events]|
    && forall k :: 0 <= k < p.eventNum ==> !Refused(m.events[p.events][k])
  }

  lemma GivenKept(m: Memory, m': Memory, c: Curve, e: VibratorEvent)
    requires Extends(m, m') && EventGiven(m, c, e)
    ensures EventGiven(m', c, e)
    ensures Intervals(c) != [] && !Refused(e) ==>
      forall t :: ModulatedEvent(Intervals(c), m', t, e) == ModulatedEvent(Intervals(c), m, t, e)
  {
    if UsesCurve(e) && !Refused(e) {
      EventKept(m, m', e);
    }
  }

  lemma MadeKept(iv: seq<Interval>, before: Memory, m: Memory, m': Memory, t: int, e: VibratorEvent, r: VibratorEvent)
    requires iv != [] && MadeFrom(iv, before, m, t, e, r)
    requires forall p :: p in m.points ==> p in m'.points && m'.points[p] == m.points[p]
    ensures MadeFrom(iv, before, m', t, e, r)
  {
  }

  /** A block of len events whose first n have been filled in, and the point blocks of those: all that
      the heap has beyond before. */
  ghost predicate Built(before: Memory, now: Memory, block: Pointer, len: nat, n: nat) {
    && n <= len && block in now.events && |now.events[block]| == len
    && Separate(now.events[block], n)
    && Adds(before, now, PointsOf(now.events[block], n), {block}, {})
  }

  ghost predicate AllMade(iv: seq<Interval>, before: Memory, now: Memory, t: int, from: seq<VibratorEvent>,
                          es: seq<VibratorEvent>, n: nat)
    requires n <= |from| && n <= |es|
  {
    forall k :: 0 <= k < n ==> MadeAt(iv, before, now, t, from, es, k)
  }

  ghost predicate MadeAt(iv: seq<Interval>, before: Memory, now: Memory, t: int, from: seq<VibratorEvent>,
                         es: seq<VibratorEvent>, k: nat)
    requires k < |from| && k < |es|
  {
    iv != [] && MadeFrom(iv, before, now, t, from[k], es[k])
  }

  /** Additions accumulate; writing to a block that was added changes nothing. */
  lemma AddsMore(before: Memory, m: Memory, now: Memory, ps: set<Pointer>, es: set<Pointer>, qs: set<Pointer>,
                 ps': set<Pointer>, es': set<Pointer>, qs': set<Pointer>)
    requires Adds(before, m, ps, es, qs) && Adds(m, now, ps', es', qs')
    ensures Adds(before, now, ps + ps', es + es', qs + qs')
  {
  }

  lemma AddsWritten(before: Memory, m: Memory, ps: set<Pointer>, es: set<Pointer>, qs: set<Pointer>,
                    block: Pointer, v: seq<VibratorEvent>)
    requires Adds(before, m, ps, es, qs) && block in es
    ensures Adds(before, m.(events := m.events[block := v]), ps, es, qs)
  {
  }

  lemma BuiltOneMore(before: Memory, m: Memory, between: Memory, after: Memory, block: Pointer, len: nat, n: nat,
                     r: VibratorEvent)
    requires Built(before, m, block, len, n) && n < len
    requires Adds(m, between, if r.points == NULL then {} else {r.points}, {}, {})
    requires after == between.(events := between.events[block := between.events[block][n := r]])
    ensures Built(before, after, block, len, n + 1)
  {
    var es, es' := m.events[block], after.events[block];
    var more := if r.points == NULL then {} else {r.points};
    PointsOfPrefix(es, es', n);
    SeparateOneMore(es', n, m.points.Keys);
    PointsOfStep(es', n, n + 1);
    AddsMore(before, m, between, PointsOf(es, n), {block}, {}, more, {}, {});
    assert {block} + {} == {block};
    AddsWritten(before, between, PointsOf(es, n) + more, {block}, {}, block, es');
  }

  lemma PointsOfPrefix(es: seq<VibratorEvent>, es': seq<VibratorEvent>, n: nat)
    requires n <= |es| && n <= |es'| && Separate(es, n)
    requires forall k :: 0 <= k < n ==> es'[k] == es[k]
    ensures PointsOf(es', n) == PointsOf(es, n) && Separate(es', n)
  {
  }

  lemma SeparateOneMore(es: seq<VibratorEvent>, n: nat, live: set<Pointer>)
    requires n < |es| && Separate(es, n) && PointsOf(es, n) <= live
    requires es[n].points == NULL || es[n].points !in live
    ensures Separate(es, n + 1)
  {
    forall a | 0 <= a < n && es[a].points != NULL ensures es[a].points != es[n].points {
      assert es[a].points in PointsOf(es, n);
    }
  }

  lemma MadeOneMore(iv: seq<Interval>, before: Memory, m: Memory, between: Memory, after: Memory, t: int,
                    from: seq<VibratorEvent>, es: seq<VibratorEvent>, n: nat, r: VibratorEvent)
    requires n < |from| && n < |es| && AllMade(iv, before, m, t, from, es, n)
    requires iv != [] && MadeFrom(iv, before, between, t, from[n], r)
    requires Extends(m, between) && after.points == between.points
    ensures AllMade(iv, before, after, t, from, es[n := r], n + 1)
  {
    var es' := es[n := r];
    forall k | 0 <= k < n + 1 ensures MadeAt(iv, before, after, t, from, es', k) {
      if k < n {
        assert MadeAt(iv, before, m, t, from, es, k);
        MadeKept(iv, before, m, after, t, from[k], es[k]);
      } else {
        MadeKept(iv, before, between, after, t, from[n], r);
      }
    }
  }

  method ModulateVibratorPattern(heap: Heap, curve: Curve, p: VibratorPattern) returns (ok: bool, r: VibratorPattern)
    requires heap.Valid() && PatternGiven(heap.mem, curve, p)
    modifies heap
    ensures heap.Valid()
    ensures ok <==> PatternAccepted(old(heap.mem), p) && Intervals(curve) != []
    ensures !ok ==> heap.mem == old(heap.mem) && r.events == NULL
    ensures ok ==> r == p.(events := r.events) && r.events != NULL
    ensures ok ==> Built(old(heap.mem), heap.mem, r.events, p.eventNum, p.eventNum)
    ensures ok ==> AllMade(Intervals(curve), old(heap.mem), heap.mem, p.time, old(heap.mem).events[p.events],
                           heap.mem.events[r.events], p.eventNum)
  {
    r := ZeroPattern;
    if p.eventNum <= 0 || p.events == NULL { return false, r; }
    ghost var before := heap.mem;
    ghost var from := before.events[p.events];
    var block := heap.CallocEvents(p.eventNum);
    assert PointsOf(heap.mem.events[block], 0) == {};
    for i := 0 to p.eventNum
      invariant heap.Valid() && Built(before, heap.mem, block, p.eventNum, i)
      invariant AllMade(Intervals(curve), before, heap.mem, p.time, from, heap.mem.events[block], i)
      invariant forall k :: 0 <= k < i ==> !Refused(from[k])
      invariant i > 0 ==> Intervals(curve) != []
    {
      var good := ModulateInto(heap, curve, p, block, i, before);
      if !good {
        FreePartiallyAllocatedVibratorEvents(heap, block, i);
        return false, r;
      }
    }
    ok, r := true, p.(events := block);
  }

  /** One event of the pattern, into its place in the block. */
  method ModulateInto(heap: Heap, curve: Curve, p: VibratorPattern, block: Pointer, i: nat, ghost before: Memory)
    returns (good: bool)
    requires heap.Valid() && i < p.eventNum && p.events != NULL && PatternGiven(before, curve, p)
    requires Built(before, heap.mem, block, p.eventNum, i)
    requires AllMade(Intervals(curve), before, heap.mem, p.time, before.events[p.events], heap.mem.events[block], i)
    modifies heap
    ensures heap.Valid()
    ensures good <==> !Refused(before.events[p.events][i]) && Intervals(curve) != []
    ensures good ==> Built(before, heap.mem, block, p.eventNum, i + 1)
    ensures good ==> AllMade(Intervals(curve), before, heap.mem, p.time, before.events[p.events],
                             heap.mem.events[block], i + 1)
    ensures !good ==> GivenUp(before, heap.mem, block, i)
  {
    ghost var m := heap.mem;
    ghost var from := before.events[p.events];
    GivenKept(before, m, curve, from[i]);
    var made;
    good, made := ModulateVibratorEvent(heap, curve, p.time, heap.mem.events[p.events][i]);
    ghost var between := heap.mem;
    heap.PutEvent(block, i, made);
    if !good {
      GiveUp(before, m, heap.mem, block, i, made);
    } else {
      BuiltOneMore(before, m, between, heap.mem, block, p.eventNum, i, made);
      MadeOneMore(Intervals(curve), before, m, between, heap.mem, p.time, from, m.events[block], i, made);
    }
  }

  /** The block and the points of its first i + 1 events are all that there is to free. */
  ghost predicate GivenUp(before: Memory, now: Memory, block: Pointer, i: nat) {
    && block in now.events && i < |now.events[block]|
    && Separate(now.events[block], i + 1) && PointsOf(now.events[block], i + 1) <= now.points.Keys
    && Memory(now.points - PointsOf(now.events[block], i + 1), now.events - {block}, now.patterns) == before
  }

  /** After a refused event, everything built so far is what there is to free. */
  lemma GiveUp(before: Memory, m: Memory, now: Memory, block: Pointer, i: nat, made: VibratorEvent)
    requires made.points == NULL && block in m.events && i < |m.events[block]|
    requires Built(before, m, block, |m.events[block]|, i)
    requires now == m.(events := m.events[block := m.events[block][i := made]])
    ensures Separate(now.events[block], i + 1) && PointsOf(now.events[block], i + 1) == PointsOf(m.events[block], i)
    ensures PointsOf(now.events[block], i + 1) <= now.points.Keys
    ensures Memory(now.points - PointsOf(now.events[block], i + 1), now.events - {block}, now.patterns) == before
  {
    var es := now.events[block];
    assert forall k :: 0 <= k < i ==> es[k] == m.events[block][k];
    assert PointsOf(es, i) == PointsOf(m.events[block], i);
    assert Separate(es, i + 1);
    PointsOfStep(es, i, i + 1);
    FreedAll(before, now, PointsOf(m.events[block], i), {block}, {});
    assert now.patterns - {} == now.patterns;
  }
}
