/** Flattening a package into one list of non-overlapping events in absolute time
    (CustomVibrationMatcher::MixedWaveProcess and PreProcessEvent). */
module MixedWave {
  import opened Haptics
  import opened CurveMerge
  import opened CurveMergeValues

  const VIBRATOR_DELAY := 20
  const CONTINUOUS_VIBRATION_DURATION_MIN := 15

  function ShiftPoint(p: Point, e: Event): Point {
    Point(p.time + e.time,
          Clamp(Trunc(p.intensity as real * (e.intensity as real / 100.0)), INTENSITY_MIN, INTENSITY_MAX),
          Clamp(p.frequency + e.frequency, FREQUENCY_MIN, FREQUENCY_MAX))
  }

  function CurveOf(e: Event): seq<Point> {
    if e.points == [] then [Point(0, INTENSITY_MAX, 0), Point(e.duration, INTENSITY_MAX, 0)] else e.points
  }

  /** The event with its duration raised to the minimum and its curve made absolute. */
  function PreProcessed(e: Event): Event {
    var c := CurveOf(e);
    e.(duration := Max(e.duration, CONTINUOUS_VIBRATION_DURATION_MIN),
       points := seq(|c|, k requires 0 <= k < |c| => ShiftPoint(c[k], e)))
  }

  /** The point q is p made absolute, scaled by the strength of the event and raised by its frequency. */
  ghost predicate IsShifted(p: Point, e: Event, q: Point) {
    && q.time == p.time + e.time
    && IsPercent(p.intensity * e.intensity, q.intensity)
    && IsKeptWithin(p.frequency + e.frequency, 0, 100, q.frequency)
  }

  ghost predicate AllShifted(ps: seq<Point>, e: Event, qs: seq<Point>) {
    |qs| == |ps| && forall k :: 0 <= k < |ps| ==> IsShifted(ps[k], e, qs[k])
  }

  /** The curve is that of the event, or full strength from its start to its end if it has none. */
  ghost predicate IsCurveOf(e: Event, c: seq<Point>) {
    if e.points != [] then AllShifted(e.points, e, c)
    else AllShifted([Point(0, 100, 0), Point(e.duration, 100, 0)], e, c)
  }

  /** r is the event prepared for the flat list: it lasts 15 ms at least, has its curve in absolute terms,
      and is as it was otherwise. */
  ghost predicate IsPrepared(e: Event, r: Event) {
    && r == e.(duration := r.duration, points := r.points)
    && (e.duration >= 15 ==> r.duration == e.duration) && (e.duration < 15 ==> r.duration == 15)
    && IsCurveOf(e, r.points)
  }

  lemma ScaledIntensity(i: int, s: int)
    ensures IsPercent(i * s, Clamp(Trunc(i as real * (s as real / 100.0)), 0, 100))
  {
    var x := i as real * (s as real / 100.0);
    assert x * 100.0 == i as real * s as real;
    assert (i * s) as real == i as real * s as real;
    TruncIsQuotient(i * s, 100, x);
    ClampedQuotientIsPercent(i * s, Trunc(x));
  }

  lemma PointIsShifted(p: Point, e: Event)
    ensures IsShifted(p, e, ShiftPoint(p, e))
  {
    ScaledIntensity(p.intensity, e.intensity);
  }

  lemma EventIsPrepared(e: Event)
    ensures IsPrepared(e, PreProcessed(e))
  {
    var c := CurveOf(e);
    forall k | 0 <= k < |c| ensures IsShifted(c[k], e, PreProcessed(e).points[k]) {
      PointIsShifted(c[k], e);
    }
  }

  method PreProcessEvent(event: Event) returns (r: Event)
    ensures r == PreProcessed(event) && IsPrepared(event, r)
  {
    var points := event.points;
    if points == [] {
      points := points + [Point(0, INTENSITY_MAX, 0)];
      points := points + [Point(event.duration, INTENSITY_MAX, 0)];
    }
    var duration := Max(event.duration, CONTINUOUS_VIBRATION_DURATION_MIN);
    points := ShiftPoints(event, points);
    r := event.(duration := duration, points := points);
    EventIsPrepared(event);
  }

  method ShiftPoints(event: Event, points: seq<Point>) returns (shifted: seq<Point>)
    ensures |shifted| == |points| && forall k :: 0 <= k < |points| ==> shifted[k] == ShiftPoint(points[k], event)
  {
    shifted := [];
    for k := 0 to |points|
      invariant |shifted| == k
      invariant forall m :: 0 <= m < k ==> shifted[m] == ShiftPoint(points[m], event)
    {
      var p := points[k];
      p := p.(time := p.time + event.time);
      p := p.(intensity := Trunc(p.intensity as real * (event.intensity as real / 100.0)));
      p := p.(intensity := Max(p.intensity, INTENSITY_MIN));
      p := p.(intensity := Min(p.intensity, INTENSITY_MAX));
      p := p.(frequency := p.frequency + event.frequency);
      p := p.(frequency := Max(p.frequency, FREQUENCY_MIN));
      p := p.(frequency := Min(p.frequency, FREQUENCY_MAX));
      shifted := shifted + [p];
    }
  }

  function End(e: Event): int { e.time + e.duration }

  /** The events of a pattern, placed in absolute time. */
  function Placed(p: Pattern): (es: seq<Event>)
    ensures |es| == |p.events|
  {
    seq(|p.events|, k requires 0 <= k < |p.events| => p.events[k].(time := p.events[k].time + p.startTime))
  }

  /** All the events of some patterns, in the order they are stored. */
  function Flatten(ps: seq<Pattern>): seq<Event> {
    if ps == [] then [] else Flatten(ps[..|ps| - 1]) + Placed(ps[|ps| - 1])
  }

  /** Shortens an event so that at least VIBRATOR_DELAY separates it from one starting at t. */
  function Trimmed(e: Event, t: int): Event {
    var diff := t - e.time - e.duration;
    e.(duration := Max(e.duration + if diff < VIBRATOR_DELAY then diff - VIBRATOR_DELAY else 0, 0))
  }

  function Joined(last: Event, e: Event): Event {
    Event(Continuous, last.time, Max(End(last), End(e)) - last.time, last.intensity, last.frequency,
          last.index, Merge(last.points, e.points))
  }

  /** The output after one more (preprocessed) event. */
  function Added(output: seq<Event>, e: Event): seq<Event> {
    if output == [] || output[|output| - 1].tag == Transient then output + [e]
    else
      var last := output[|output| - 1];
      var front := output[..|output| - 1];
      if e.time >= End(last) then front + [Trimmed(last, e.time), e]
      else front + [Joined(last, e)]
  }

  function Mix(es: seq<Event>): seq<Event> {
    if es == [] then [] else Added(Mix(es[..|es| - 1]), PreProcessed(es[|es| - 1]))
  }

  lemma FlattenSnoc(ps: seq<Pattern>, i: nat)
    requires i < |ps|
    ensures Flatten(ps[..i + 1]) == Flatten(ps[..i]) + Placed(ps[i])
  {
    assert ps[..i + 1][..i] == ps[..i];
  }

  lemma MixSnoc(done: seq<Event>, es: seq<Event>, j: nat)
    requires j < |es|
    ensures Mix(done + es[..j + 1]) == Added(Mix(done + es[..j]), PreProcessed(es[j]))
  {
    var whole := done + es[..j + 1];
    assert whole[..|whole| - 1] == done + es[..j];
  }

  method MixedWaveProcess(package: Package) returns (outputPattern: Pattern)
    ensures outputPattern == Pattern(0, 0, Mix(Flatten(package.patterns)))
  {
    var outputEvents: seq<Event> := [];
    var ps := package.patterns;
    for i := 0 to |ps|
      invariant outputEvents == Mix(Flatten(ps[..i]))
    {
      outputEvents := MixPattern(outputEvents, ps[i], Flatten(ps[..i]));
      FlattenSnoc(ps, i);
    }
    assert ps[..|ps|] == ps;
    outputPattern := Pattern(0, 0, outputEvents);
  }

  /** The loop over the events of one pattern. */
  method MixPattern(outputEvents: seq<Event>, pattern: Pattern, ghost done: seq<Event>) returns (r: seq<Event>)
    requires outputEvents == Mix(done)
    ensures r == Mix(done + Placed(pattern))
  {
    r := outputEvents;
    ghost var placed := Placed(pattern);
    assert done + placed[..0] == done;
    for j := 0 to |pattern.events|
      invariant r == Mix(done + placed[..j])
    {
      r := MixEvent(r, pattern.events[j], pattern.startTime);
      MixSnoc(done, placed, j);
    }
    assert placed[..|placed|] == placed;
  }

  method MixEvent(outputEvents: seq<Event>, original: Event, startTime: int) returns (r: seq<Event>)
    ensures r == Added(outputEvents, PreProcessed(original.(time := original.time + startTime)))
  {
    var event := original;
    event := event.(time := event.time + startTime);
    event := PreProcessEvent(event);
    r := AddEvent(outputEvents, event);
  }

  method AddEvent(outputEvents: seq<Event>, event: Event) returns (r: seq<Event>)
    ensures r == Added(outputEvents, event)
  {
    if outputEvents == [] || outputEvents[|outputEvents| - 1].tag == Transient {
      return outputEvents + [event];
    }
    var front, lastEvent := outputEvents[..|outputEvents| - 1], outputEvents[|outputEvents| - 1];
    if event.time >= lastEvent.time + lastEvent.duration {
      var diffTime := event.time - lastEvent.time - lastEvent.duration;
      lastEvent := lastEvent.(duration := lastEvent.duration +
        (if diffTime < VIBRATOR_DELAY then diffTime - VIBRATOR_DELAY else 0));
      lastEvent := lastEvent.(duration := Max(lastEvent.duration, 0));
      r := front + [lastEvent] + [event];
      assert r == front + [lastEvent, event];
    } else {
      var points := MergeCurve(lastEvent.points, event.points);
      var newEvent := Event(Continuous, lastEvent.time,
                            Max(lastEvent.time + lastEvent.duration, event.time + event.duration) - lastEvent.time,
                            lastEvent.intensity, lastEvent.frequency, lastEvent.index, points);
      r := front + [newEvent];
    }
  }

  // ----- what the flat list is -----

  /** Absolute start times never decrease. */
  ghost predicate StartSorted(es: seq<Event>) {
    forall a, b :: 0 <= a < b < |es| ==> es[a].time <= es[b].time
  }

  /** Where input event k ends up: output events are only ever replaced in place or appended. */
  function Host(es: seq<Event>, k: nat): int
    requires k < |es|
  {
    |Mix(es[..k + 1])| - 1
  }

  /** The flat list is no longer than the input. */
  lemma {:induction false} MixNoLonger(es: seq<Event>)
    ensures |Mix(es)| <= |es|
    ensures es != [] ==> Mix(es) != []
  {
    if es != [] {
      MixNoLonger(es[..|es| - 1]);
    }
  }

  lemma HostOfPrefix(es: seq<Event>, k: nat, n: nat)
    requires k < n <= |es|
    ensures Host(es[..n], k) == Host(es, k)
  {
    assert es[..n][..k + 1] == es[..k + 1];
  }

  ghost predicate Covers(o: Event, e: Event, lost: int) {
    o.time <= e.time && End(e) - lost <= End(o)
  }

  /** Input event k, its duration raised to the minimum, lies inside its host; the last output event
      has lost nothing, an earlier one at most the delay. */
  ghost predicate CoveredAt(es: seq<Event>, k: nat)
    requires k < |es|
  {
    && 0 <= Host(es, k) < |Mix(es)|
    && Covers(Mix(es)[Host(es, k)], PreProcessed(es[k]), if Host(es, k) == |Mix(es)| - 1 then 0 else VIBRATOR_DELAY)
  }

  lemma AddedKeepsStarts(before: seq<Event>, e: Event)
    requires StartSorted(before)
    requires before != [] ==> before[|before| - 1].time <= e.time
    ensures StartSorted(Added(before, e))
    ensures Added(before, e) != [] && Added(before, e)[|Added(before, e)| - 1].time <= e.time
  {
  }

  /** Time-sorted input gives output starts that never decrease. */
  lemma {:induction false} MixStarts(es: seq<Event>)
    requires StartSorted(es)
    ensures StartSorted(Mix(es))
    ensures es != [] ==> Mix(es) != [] && Mix(es)[|Mix(es)| - 1].time <= es[|es| - 1].time
  {
    if es != [] {
      var n := |es| - 1;
      assert n > 0 ==> es[n - 1].time <= es[n].time;
      MixStarts(es[..n]);
      assert n == 0 ==> Mix(es[..n]) == [];
      AddedKeepsStarts(Mix(es[..n]), PreProcessed(es[n]));
    }
  }

  lemma CoverStays(es: seq<Event>, k: nat)
    requires k < |es| - 1 && CoveredAt(es[..|es| - 1], k)
    ensures CoveredAt(es, k)
  {
    var n := |es| - 1;
    HostOfPrefix(es, k, n);
    StepKeepsCover(Mix(es[..n]), PreProcessed(es[n]), PreProcessed(es[k]), Host(es, k));
  }

  lemma NewestCovered(es: seq<Event>)
    requires es != [] && StartSorted(es)
    ensures CoveredAt(es, |es| - 1)
  {
    var n := |es| - 1;
    MixStarts(es[..n]);
    assert n > 0 ==> es[n - 1].time <= es[n].time;
    assert es[..n + 1] == es;
    LastCovers(Mix(es[..n]), PreProcessed(es[n]));
  }

  lemma {:induction false} MixCovers(es: seq<Event>, k: nat)
    requires StartSorted(es) && k < |es|
    ensures CoveredAt(es, k)
  {
    if k < |es| - 1 {
      MixCovers(es[..|es| - 1], k);
      CoverStays(es, k);
    } else {
      NewestCovered(es);
    }
  }

  lemma StepKeepsCover(before: seq<Event>, e: Event, earlier: Event, m: int)
    requires 0 <= m < |before|
    requires Covers(before[m], earlier, if m == |before| - 1 then 0 else VIBRATOR_DELAY)
    ensures var after := Added(before, e);
            m < |after| && Covers(after[m], earlier, if m == |after| - 1 then 0 else VIBRATOR_DELAY)
  {
  }

  lemma LastCovers(before: seq<Event>, e: Event)
    requires before != [] ==> before[|before| - 1].time <= e.time
    ensures var after := Added(before, e);
            after != [] && Covers(after[|after| - 1], e, 0)
  {
  }

  /** For input in non-decreasing time order, every input event lies inside an output event, up to at
      most 20 ms at its end, and there are no more output events than input events. */
  lemma Coverage(es: seq<Event>, k: nat)
    requires StartSorted(es) && k < |es|
    ensures |Mix(es)| <= |es|
    ensures exists m :: 0 <= m < |Mix(es)| && Covers(Mix(es)[m], PreProcessed(es[k]), 20)
  {
    MixCovers(es, k);
    MixNoLonger(es);
    assert Covers(Mix(es)[Host(es, k)], PreProcessed(es[k]), VIBRATOR_DELAY);
  }

  /** The output event takes its start, strength and index from the input event. */
  ghost predicate StartsAs(o: Event, e: Event) {
    o.time == e.time && o.intensity == e.intensity && o.frequency == e.frequency && o.index == e.index
  }

  ghost predicate EndsBy(o: Event, e: Event) {
    End(o) <= End(e) || o.duration == 0
  }

  ghost predicate Accounted(es: seq<Event>, m: nat)
    requires m < |Mix(es)|
  {
    var o := Mix(es)[m];
    && (exists k :: 0 <= k < |es| && Host(es, k) == m && StartsAs(o, es[k]))
    && (exists k :: 0 <= k < |es| && Host(es, k) == m && EndsBy(o, PreProcessed(es[k])))
  }

  lemma AddedChangesLittle(before: seq<Event>, e: Event, m: nat)
    requires m < |before|
    ensures var after := Added(before, e);
            && m < |after| && after[m].time == before[m].time && after[m].index == before[m].index
            && after[m].intensity == before[m].intensity && after[m].frequency == before[m].frequency
            && (End(after[m]) <= End(before[m]) || after[m].duration == 0 ||
                (m == |after| - 1 && End(after[m]) <= End(e)))
            && (before[m].duration == 0 ==> after[m].duration == 0 || m == |before| - 1)
  {
  }

  /** Conversely no vibration is made up: an output event starts as one of the input events it
      hosts does, and ends no later than one of them does, or has been cut to nothing. */
  lemma {:induction false} NothingMadeUp(es: seq<Event>, m: nat)
    requires m < |Mix(es)|
    ensures Accounted(es, m)
  {
    var n := |es| - 1;
    var before, e := Mix(es[..n]), PreProcessed(es[n]);
    assert Mix(es) == Added(before, e);
    var after := Added(before, e);
    assert es[..n + 1] == es;
    assert Host(es, n) == |after| - 1;
    if m < |before| {
      NothingMadeUp(es[..n], m);
      MixSeparates(es[..n]);
      AddedChangesLittle(before, e, m);
      var s, t := AccountedIn(es, n, m);
      assert Host(es, s) == m && StartsAs(after[m], es[s]);
      if End(after[m]) <= End(before[m]) || after[m].duration == 0 {
        assert Host(es, t) == m && EndsBy(after[m], PreProcessed(es[t]));
      } else {
        assert Host(es, n) == m && EndsBy(after[m], e);
      }
    } else {
      assert Host(es, n) == m && StartsAs(after[m], es[n]);
      assert EndsBy(after[m], e);
    }
  }

  /** The two input events that account for output event m of a prefix. */
  lemma AccountedIn(es: seq<Event>, n: nat, m: nat) returns (s: nat, t: nat)
    requires n <= |es| && m < |Mix(es[..n])| && Accounted(es[..n], m)
    ensures s < n && t < n && Host(es, s) == m && Host(es, t) == m
    ensures StartsAs(Mix(es[..n])[m], es[s])
    ensures EndsBy(Mix(es[..n])[m], PreProcessed(es[t]))
  {
    var o := Mix(es[..n])[m];
    s :| 0 <= s < n && Host(es[..n], s) == m && StartsAs(o, es[..n][s]);
    t :| 0 <= t < n && Host(es[..n], t) == m && EndsBy(o, PreProcessed(es[..n][t]));
    HostOfPrefix(es, s, n);
    HostOfPrefix(es, t, n);
  }

  /** What separates an output event from the next: a continuous one is followed by a gap of at least
      20 ms, or has been cut to nothing with a gap of at least 15 ms. */
  ghost predicate Separated(o: Event, next: Event) {
    o.tag != Transient ==>
      next.time - End(o) >= 20 || (o.duration == 0 && next.time - End(o) >= 15)
  }

  ghost predicate WellSeparated(output: seq<Event>) {
    && (forall m :: 0 <= m < |output| - 1 ==> Separated(output[m], output[m + 1]))
    && (output != [] ==> output[|output| - 1].duration >= CONTINUOUS_VIBRATION_DURATION_MIN)
    && (forall m :: 0 <= m < |output| ==> output[m].points != [])
  }

  lemma AddedSeparates(before: seq<Event>, e: Event)
    requires WellSeparated(before)
    requires e.points != [] && e.duration >= CONTINUOUS_VIBRATION_DURATION_MIN
    ensures WellSeparated(Added(before, e))
  {
    var after := Added(before, e);
    if before != [] {
      MergeNonEmpty(before[|before| - 1].points, e.points);
    }
    forall m | 0 <= m < |after| - 1 ensures Separated(after[m], after[m + 1]) {
      if m + 1 < |before| {
        assert Separated(before[m], before[m + 1]);
      }
    }
  }

  /** The gaps, and a non-empty curve in every output event, in any order of input, sorted or not. */
  lemma {:induction false} MixSeparates(es: seq<Event>)
    ensures WellSeparated(Mix(es))
  {
    if es != [] {
      MixSeparates(es[..|es| - 1]);
      AddedSeparates(Mix(es[..|es| - 1]), PreProcessed(es[|es| - 1]));
    }
  }

  lemma MergeNonEmpty(l: seq<Point>, r: seq<Point>)
    requires l != [] && r != []
    ensures Merge(l, r) != []
  {
  }

  /** Preprocessing brings every value into range and keeps the curve in time order. */
  lemma PreProcessedCurve(e: Event)
    ensures InRange(PreProcessed(e).points)
    ensures TimeSorted(e.points) && e.duration >= 0 ==> TimeSorted(PreProcessed(e).points)
    ensures PreProcessed(e).points[0].time == e.time + CurveOf(e)[0].time
  {
    var c := CurveOf(e);
    forall k | 0 <= k < |c| ensures PointInRange(ShiftPoint(c[k], e)) {}
  }

  /** Two events with time-sorted curves, as both decoders produce them, join into one whose values
      are all in range. */
  lemma FirstJoinInRange(d: Event, e: Event)
    requires TimeSorted(d.points) && TimeSorted(e.points) && d.duration >= 0 && e.duration >= 0
    ensures InRange(Joined(PreProcessed(d), PreProcessed(e)).points)
  {
    PreProcessedCurve(d);
    PreProcessedCurve(e);
    MergeStaysInRange(PreProcessed(d).points, PreProcessed(e).points);
  }
}
