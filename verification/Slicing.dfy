/** Cutting a continuous event into slices of one strength each, and run-length coding the slices
    (CustomVibrationMatcher::ProcessContinuousEvent and ProcessContinuousEventSlice). */
module Slicing {
  import opened Haptics
  import opened CurveMerge
  import opened CurveMergeValues
  import opened CompositeEffects

  const SLICE_STEP := 50
  const CONTINUOUS_GRADE_NUM := 8
  const CONTINUOUS_GRADE_MASK := 100
  const CONTINUOUS_GRADE_SCALE := 12.5
  const ROUND_OFFSET := 0.5
  const EFFECT_ID_BOUNDARY := 1000
  const DURATION_MAX := 1600

  datatype Slice = Slice(time: int, duration: int, intensity: int, frequency: int)

  /** What is carried from event to event: where the last effect starts, how long it lasts, and all the
      effects so far. */
  datatype Track = Track(preStartTime: int, preDuration: int, effects: seq<CompositeEffect>)

  /** C round(): to the nearest, halves away from zero. */
  function Round(x: real): int {
    if x >= 0.0 then (x + 0.5).Floor else -(-x + 0.5).Floor
  }

  function GradeOf(intensity: int): int {
    if intensity == INTENSITY_MAX then CONTINUOUS_GRADE_NUM - 1
    else Round(intensity as real / CONTINUOUS_GRADE_SCALE + ROUND_OFFSET) - 1
  }

  /** The eight grades divide 0..100 evenly, the top value belonging to the top grade. */
  lemma GradeIsEighth(intensity: int)
    requires 0 <= intensity <= 100
    ensures GradeOf(intensity) == if intensity == 100 then 7 else intensity * 8 / 100
    ensures 0 <= GradeOf(intensity) < CONTINUOUS_GRADE_NUM
  {
    if intensity < 100 {
      var q := intensity * 8 / 100;
      var x := intensity as real / 12.5 + 0.5 + 0.5;
      assert intensity as real / 12.5 == (intensity * 8) as real / 100.0;
      assert q as real * 100.0 <= (intensity * 8) as real < (q + 1) as real * 100.0;
      assert q as real + 1.0 <= x < q as real + 2.0;
      assert x.Floor == q + 1;
    }
  }

  // ----- one slice -----

  function EffectFor(delay: int, duration: int, grade: int, intensity: int): CompositeEffect {
    PrimitiveEffect(delay, duration * CONTINUOUS_GRADE_MASK + grade, intensity)
  }

  predicate Coalesces(t: Track, s: Slice) {
    && t.effects != [] && s.time == t.preStartTime + t.preDuration
    && var last := t.effects[|t.effects| - 1];
       && last.PrimitiveEffect? && last.effectId > EFFECT_ID_BOUNDARY
       && last.effectId % CONTINUOUS_GRADE_MASK == GradeOf(s.intensity)
       && t.preDuration + s.duration < DURATION_MAX
  }

  function Emit(t: Track, s: Slice): Track {
    if Coalesces(t, s) then
      var n := |t.effects| - 1;
      var merged := t.preDuration + s.duration;
      Track(t.preStartTime, merged, t.effects[..n] + [EffectFor(t.effects[n].delay, merged, GradeOf(s.intensity),
                                                                 t.effects[n].intensity)])
    else
      Track(s.time, s.duration, t.effects + [EffectFor(s.time - t.preStartTime, s.duration, GradeOf(s.intensity), 0)])
  }

  method ProcessContinuousEventSlice(slice: Slice, preStartTime: int, preDuration: int,
                                     compositeEffects: seq<CompositeEffect>)
    returns (startTime: int, duration: int, effects: seq<CompositeEffect>)
    ensures Track(startTime, duration, effects) == Emit(Track(preStartTime, preDuration, compositeEffects), slice)
  {
    var grade := -1;
    if slice.intensity == INTENSITY_MAX {
      grade := CONTINUOUS_GRADE_NUM - 1;
    } else {
      grade := Round(slice.intensity as real / CONTINUOUS_GRADE_SCALE + ROUND_OFFSET) - 1;
    }
    var n := |compositeEffects| - 1;
    if compositeEffects != [] && slice.time == preStartTime + preDuration && compositeEffects[n].PrimitiveEffect? {
      var preEffectId := compositeEffects[n].effectId;
      var mergeDuration := preDuration + slice.duration;
      if preEffectId > EFFECT_ID_BOUNDARY && preEffectId % CONTINUOUS_GRADE_MASK == grade
         && mergeDuration < DURATION_MAX {
        effects := compositeEffects[..n]
                   + [compositeEffects[n].(effectId := mergeDuration * CONTINUOUS_GRADE_MASK + grade)];
        return preStartTime, mergeDuration, effects;
      }
    }
    effects := compositeEffects
               + [PrimitiveEffect(slice.time - preStartTime, slice.duration * CONTINUOUS_GRADE_MASK + grade, 0)];
    return slice.time, slice.duration, effects;
  }

  // ----- the slices of an event -----

  function NextCut(cur: int, end: int): int {
    if end - cur >= 2 * SLICE_STEP then cur + SLICE_STEP else end
  }

  function IntensityAt(curve: seq<Point>, t: int): int
    requires curve != [] && curve[0].time < t <= curve[|curve| - 1].time
  {
    var k := KnotAt(curve, t);
    Interpolation(curve[k - 1].time, curve[k].time, curve[k - 1].intensity, curve[k].intensity, t)
  }

  function FrequencyAt(curve: seq<Point>, t: int): int
    requires curve != [] && curve[0].time < t <= curve[|curve| - 1].time
  {
    var k := KnotAt(curve, t);
    Interpolation(curve[k - 1].time, curve[k].time, curve[k - 1].frequency, curve[k].frequency, t)
  }

  function SliceBetween(cur: int, next: int, intensity: int, frequency: int, nextIntensity: int, nextFrequency: int): Slice {
    Slice(cur, next - cur, TruncDiv(intensity + nextIntensity, 2), TruncDiv(frequency + nextFrequency, 2))
  }

  /** From cur on, where the curve has these values, each slice taking the mean of its two ends. */
  function SlicesFrom(curve: seq<Point>, cur: int, intensity: int, frequency: int): seq<Slice>
    requires curve != [] && cur >= curve[0].time
    decreases curve[|curve| - 1].time - cur
  {
    var end := curve[|curve| - 1].time;
    if cur >= end then []
    else
      var next := NextCut(cur, end);
      var nextIntensity, nextFrequency := IntensityAt(curve, next), FrequencyAt(curve, next);
      [SliceBetween(cur, next, intensity, frequency, nextIntensity, nextFrequency)]
      + SlicesFrom(curve, next, nextIntensity, nextFrequency)
  }

  lemma SlicesStep(curve: seq<Point>, cur: int, intensity: int, frequency: int, i: int, f: int)
    requires curve != [] && curve[0].time <= cur < curve[|curve| - 1].time
    requires i == IntensityAt(curve, NextCut(cur, curve[|curve| - 1].time))
    requires f == FrequencyAt(curve, NextCut(cur, curve[|curve| - 1].time))
    ensures SlicesFrom(curve, cur, intensity, frequency)
         == [SliceBetween(cur, NextCut(cur, curve[|curve| - 1].time), intensity, frequency, i, f)]
            + SlicesFrom(curve, NextCut(cur, curve[|curve| - 1].time), i, f)
  {
  }

  function SlicesOf(event: Event): seq<Slice> {
    if event.duration < 2 * SLICE_STEP then [Slice(event.time, event.duration, event.intensity, event.frequency)]
    else if event.points == [] then []
    else SlicesFrom(event.points, event.points[0].time, event.points[0].intensity, event.points[0].frequency)
  }

  function EmitAll(t: Track, slices: seq<Slice>): Track
    decreases |slices|
  {
    if slices == [] then t else EmitAll(Emit(t, slices[0]), slices[1..])
  }

  /** What is still to come, after this much of the curve has been cut. */
  function Resume(t: Track, curve: seq<Point>, cur: int, intensity: int, frequency: int): Track
    requires curve != [] && cur >= curve[0].time
  {
    EmitAll(t, SlicesFrom(curve, cur, intensity, frequency))
  }

  lemma ResumeStep(t: Track, curve: seq<Point>, cur: int, intensity: int, frequency: int, i: int, f: int)
    requires curve != [] && curve[0].time <= cur < curve[|curve| - 1].time
    requires i == IntensityAt(curve, NextCut(cur, curve[|curve| - 1].time))
    requires f == FrequencyAt(curve, NextCut(cur, curve[|curve| - 1].time))
    ensures Resume(t, curve, cur, intensity, frequency)
         == Resume(Emit(t, SliceBetween(cur, NextCut(cur, curve[|curve| - 1].time), intensity, frequency, i, f)),
                   curve, NextCut(cur, curve[|curve| - 1].time), i, f)
  {
    var next := NextCut(cur, curve[|curve| - 1].time);
    SlicesStep(curve, cur, intensity, frequency, i, f);
    EmitNext(t, SliceBetween(cur, next, intensity, frequency, i, f), SlicesFrom(curve, next, i, f));
  }

  /** Moves the cursor to the first point at or after t. It only moves forward, and not past the end: the
      last point is at the end time. It does not stay on the first point, so the branch of the source that
      skips a slice because there is no point before the cursor is never taken, whether the curve is in
      time order or not. */
  method Advance(curve: seq<Point>, cursor: nat, t: int) returns (i: nat)
    requires cursor < |curve| && curve[0].time < t <= curve[|curve| - 1].time
    requires forall j :: 0 <= j < cursor ==> curve[j].time < t
    ensures i == KnotAt(curve, t) && 1 <= i < |curve| && forall j :: 0 <= j < i ==> curve[j].time < t
  {
    i := cursor;
    while curve[i].time < t
      invariant i < |curve| && forall j :: 0 <= j < i ==> curve[j].time < t
      decreases |curve| - i
    {
      i := i + 1;
    }
  }

  /** The slice from curTime on. */
  method NextSlice(curve: seq<Point>, cursor: nat, curTime: int, curIntensity: int, curFrequency: int)
    returns (i: nat, slice: Slice, nextIntensity: int, nextFrequency: int)
    requires cursor < |curve| && curve[0].time <= curTime < curve[|curve| - 1].time
    requires forall j :: 0 <= j < cursor ==> curve[j].time < curTime
    ensures var next := NextCut(curTime, curve[|curve| - 1].time);
            && i < |curve| && (forall j :: 0 <= j < i ==> curve[j].time < next)
            && nextIntensity == IntensityAt(curve, next) && nextFrequency == FrequencyAt(curve, next)
            && slice == SliceBetween(curTime, next, curIntensity, curFrequency, nextIntensity, nextFrequency)
  {
    var endTime := curve[|curve| - 1].time;
    var nextTime := if endTime - curTime >= 2 * SLICE_STEP then curTime + SLICE_STEP else endTime;
    i := Advance(curve, cursor, nextTime);
    nextIntensity := Interpolation(curve[i - 1].time, curve[i].time, curve[i - 1].intensity, curve[i].intensity, nextTime);
    nextFrequency := Interpolation(curve[i - 1].time, curve[i].time, curve[i - 1].frequency, curve[i].frequency, nextTime);
    slice := Slice(curTime, nextTime - curTime, TruncDiv(curIntensity + nextIntensity, 2),
                   TruncDiv(curFrequency + nextFrequency, 2));
  }

  method ProcessContinuousEvent(event: Event, preStartTime: int, preDuration: int,
                                compositeEffects: seq<CompositeEffect>)
    returns (startTime: int, duration: int, effects: seq<CompositeEffect>)
    ensures Track(startTime, duration, effects)
         == EmitAll(Track(preStartTime, preDuration, compositeEffects), SlicesOf(event))
  {
    startTime, duration, effects := preStartTime, preDuration, compositeEffects;
    if event.duration < 2 * SLICE_STEP {
      var slice := Slice(event.time, event.duration, event.intensity, event.frequency);
      startTime, duration, effects := ProcessContinuousEventSlice(slice, startTime, duration, effects);
    } else if event.points != [] {
      startTime, duration, effects := ProcessCurve(event.points, startTime, duration, effects);
    }
  }

  method ProcessCurve(curve: seq<Point>, preStartTime: int, preDuration: int, compositeEffects: seq<CompositeEffect>)
    returns (startTime: int, duration: int, effects: seq<CompositeEffect>)
    requires curve != []
    ensures Track(startTime, duration, effects)
         == Resume(Track(preStartTime, preDuration, compositeEffects), curve,
                   curve[0].time, curve[0].intensity, curve[0].frequency)
  {
    startTime, duration, effects := preStartTime, preDuration, compositeEffects;
    var endTime, curTime := curve[|curve| - 1].time, curve[0].time;
    var curIntensity, curFrequency := curve[0].intensity, curve[0].frequency;
    var i: nat := 0;
    ghost var whole := Resume(Track(startTime, duration, effects), curve, curTime, curIntensity, curFrequency);
    while curTime < endTime
      invariant curve[0].time <= curTime && i < |curve|
      invariant forall j :: 0 <= j < i ==> curve[j].time < curTime
      invariant Resume(Track(startTime, duration, effects), curve, curTime, curIntensity, curFrequency) == whole
      decreases endTime - curTime
    {
      var k, slice, nextIntensity, nextFrequency := NextSlice(curve, i, curTime, curIntensity, curFrequency);
      ResumeStep(Track(startTime, duration, effects), curve, curTime, curIntensity, curFrequency,
                 nextIntensity, nextFrequency);
      ghost var next := Emit(Track(startTime, duration, effects), slice);
      startTime, duration, effects := ProcessContinuousEventSlice(slice, startTime, duration, effects);
      i, curTime := k, NextCut(curTime, endTime);
      assert Track(startTime, duration, effects) == next;
      assert Resume(next, curve, curTime, nextIntensity, nextFrequency) == whole;
      curIntensity, curFrequency := nextIntensity, nextFrequency;
    }
  }

  lemma EmitNext(t: Track, s: Slice, rest: seq<Slice>)
    ensures EmitAll(t, [s] + rest) == EmitAll(Emit(t, s), rest)
  {
    assert ([s] + rest)[1..] == rest;
  }

  // ----- the slices tile the curve -----

  ghost predicate Tiles(slices: seq<Slice>, front: int, back: int) {
    if slices == [] then front == back
    else slices[0].time == front && Tiles(slices[1..], front + slices[0].duration, back)
  }

  /** From the first point to the last without gap or overlap, in steps of 50 ms but for the last slice,
      which is shorter than 100 ms, and shorter than 50 ms only if the whole curve is. */
  lemma {:induction false} SlicesTile(curve: seq<Point>, cur: int, intensity: int, frequency: int)
    requires curve != [] && curve[0].time <= cur <= curve[|curve| - 1].time
    ensures var s := SlicesFrom(curve, cur, intensity, frequency);
            && Tiles(s, cur, curve[|curve| - 1].time)
            && (forall k :: 0 <= k < |s| - 1 ==> s[k].duration == SLICE_STEP)
            && (s != [] ==> 0 < s[|s| - 1].duration < 2 * SLICE_STEP)
            && (curve[|curve| - 1].time - cur >= SLICE_STEP ==> s != [] && s[|s| - 1].duration >= SLICE_STEP)
    decreases curve[|curve| - 1].time - cur
  {
    var end := curve[|curve| - 1].time;
    if cur < end {
      var next := NextCut(cur, end);
      var i, f := IntensityAt(curve, next), FrequencyAt(curve, next);
      SlicesTile(curve, next, i, f);
      var s := SlicesFrom(curve, cur, intensity, frequency);
      assert s[1..] == SlicesFrom(curve, next, i, f);
    }
  }

  ghost predicate CurveInRange(curve: seq<Point>) {
    forall k :: 0 <= k < |curve| ==> 0 <= curve[k].intensity <= 100
  }

  predicate SliceInRange(s: Slice) {
    0 <= s.intensity <= 100
  }

  ghost predicate AllInRange(slices: seq<Slice>) {
    forall k :: 0 <= k < |slices| ==> SliceInRange(slices[k])
  }

  lemma IntensityInRange(curve: seq<Point>, t: int)
    requires curve != [] && curve[0].time < t <= curve[|curve| - 1].time && CurveInRange(curve)
    ensures 0 <= IntensityAt(curve, t) <= 100
  {
    var k := KnotAt(curve, t);
    InterpolationBetween(curve[k - 1].time, curve[k].time, curve[k - 1].intensity, curve[k].intensity, t);
  }

  /** Where the curve stays within the range of intensities, so does every slice. */
  lemma {:induction false} SlicesInRange(curve: seq<Point>, cur: int, intensity: int, frequency: int)
    requires curve != [] && cur >= curve[0].time && CurveInRange(curve)
    requires 0 <= intensity <= 100
    ensures AllInRange(SlicesFrom(curve, cur, intensity, frequency))
    decreases curve[|curve| - 1].time - cur
  {
    var end := curve[|curve| - 1].time;
    if cur < end {
      var next := NextCut(cur, end);
      var i, f := IntensityAt(curve, next), FrequencyAt(curve, next);
      IntensityInRange(curve, next);
      SlicesInRange(curve, next, i, f);
      SlicesStep(curve, cur, intensity, frequency, i, f);
      ConsInRange(SliceBetween(cur, next, intensity, frequency, i, f), SlicesFrom(curve, next, i, f));
    }
  }

  lemma ConsInRange(s: Slice, rest: seq<Slice>)
    requires SliceInRange(s) && AllInRange(rest)
    ensures AllInRange([s] + rest)
  {
  }

  /** At its ends a slice has the values of the curve, read as a function of time. */
  lemma EndValues(curve: seq<Point>, t: int)
    requires curve != [] && curve[0].time < t <= curve[|curve| - 1].time
    ensures IntensityAt(curve, t) == ValueAt(curve, t).intensity && FrequencyAt(curve, t) == ValueAt(curve, t).frequency
  {
    var k := KnotAt(curve, t);
    if curve[k].time == t {
      EndOfSegment(curve[k - 1].time, t, curve[k - 1].intensity, curve[k].intensity);
      EndOfSegment(curve[k - 1].time, t, curve[k - 1].frequency, curve[k].frequency);
    }
  }

  lemma EndOfSegment(x1: int, x2: int, y1: int, y2: int)
    requires x1 < x2
    ensures Interpolation(x1, x2, y1, y2, x2) == y2
  {
    var dy, dx := (y2 - y1) as real, (x2 - x1) as real;
    assert dy / dx * dx == dy;
  }

  /** The slice takes the means of what the curve has at its two ends. */
  ghost predicate FollowsCurve(curve: seq<Point>, s: Slice) {
    && curve != [] && curve[0].time <= s.time && s.time + s.duration <= curve[|curve| - 1].time && s.duration >= 0
    && exists a, b :: Has(curve, s.time, a) && Has(curve, s.time + s.duration, b) && IsMean(a, b, s)
  }

  ghost predicate IsMean(a: Point, b: Point, s: Slice) {
    IsQuotient(a.intensity + b.intensity, 2, s.intensity) && IsQuotient(a.frequency + b.frequency, 2, s.frequency)
  }

  lemma MeanFollowsCurve(curve: seq<Point>, s: Slice)
    requires curve != [] && curve[0].time <= s.time && s.time + s.duration <= curve[|curve| - 1].time && s.duration >= 0
    requires var a, b := ValueAt(curve, s.time), ValueAt(curve, s.time + s.duration);
             s == SliceBetween(s.time, s.time + s.duration, a.intensity, a.frequency, b.intensity, b.frequency)
    ensures FollowsCurve(curve, s)
  {
    var a, b := ValueAt(curve, s.time), ValueAt(curve, s.time + s.duration);
    HasExactlyOne(curve, s.time, a);
    HasExactlyOne(curve, s.time + s.duration, b);
    TruncDivIsQuotient(a.intensity + b.intensity, 2);
    TruncDivIsQuotient(a.frequency + b.frequency, 2);
    assert IsMean(a, b, s);
  }

  lemma {:induction false} SlicesFollowCurve(curve: seq<Point>, cur: int, intensity: int, frequency: int)
    requires curve != [] && curve[0].time <= cur <= curve[|curve| - 1].time
    requires intensity == ValueAt(curve, cur).intensity && frequency == ValueAt(curve, cur).frequency
    ensures forall s :: s in SlicesFrom(curve, cur, intensity, frequency) ==> FollowsCurve(curve, s)
    decreases curve[|curve| - 1].time - cur
  {
    var end := curve[|curve| - 1].time;
    if cur < end {
      var next := NextCut(cur, end);
      var i, f := IntensityAt(curve, next), FrequencyAt(curve, next);
      EndValues(curve, next);
      SlicesStep(curve, cur, intensity, frequency, i, f);
      SlicesFollowCurve(curve, next, i, f);
      MeanFollowsCurve(curve, SliceBetween(cur, next, intensity, frequency, i, f));
    }
  }

  /** Every slice of a long event has the means of what its curve, in time order or not, has at the two
      ends of the slice. */
  lemma EventFollowsCurve(event: Event)
    requires event.duration >= 2 * SLICE_STEP && event.points != []
    requires event.points[0].time <= event.points[|event.points| - 1].time
    ensures forall s :: s in SlicesOf(event) ==> FollowsCurve(event.points, s)
  {
    var c := event.points;
    assert KnotAt(c, c[0].time) == 0;
    SlicesFollowCurve(c, c[0].time, c[0].intensity, c[0].frequency);
  }
}
