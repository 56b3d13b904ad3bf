/** Turning a package into the delay-encoded effects the driver plays
    (CustomVibrationMatcher::TransformTime, TransformEffect and ProcessTransientEvent). */
module CompositeEffects {
  import opened Haptics
  import opened MixedWave

  datatype CompositeEffect =
    | TimeEffect(delay: int, time: int, intensity: int, frequency: int)
    | PrimitiveEffect(delay: int, effectId: int, intensity: int)

  /** A wave the device knows, after normalization; kept in ascending order of id. */
  datatype Wave = Wave(id: int, intensity: int, frequency: int)

  // ----- the nearest known wave -----

  function Abs(x: int): int { if x < 0 then -x else x }

  function Distance(w: Wave, e: Event): real {
    0.5 * Abs(e.intensity - w.intensity) as real + 0.5 * Abs(e.frequency - w.frequency) as real
  }

  /** Index of the first nearest wave among those nearer than 100, or -1. */
  function NearestIndex(waves: seq<Wave>, e: Event): (k: int)
    ensures -1 <= k < |waves|
  {
    if waves == [] then -1
    else
      var n := |waves| - 1;
      var k := NearestIndex(waves[..n], e);
      if Distance(waves[n], e) < BestDistance(waves, e, k) then n else k
  }

  function BestDistance(waves: seq<Wave>, e: Event, k: int): real
    requires -1 <= k < |waves|
  {
    if k == -1 then 100.0 else Distance(waves[k], e)
  }

  function MatchId(waves: seq<Wave>, k: int): int
    requires -1 <= k < |waves|
  {
    if k == -1 then 0 else waves[k].id
  }

  /** The scan finds the first minimum of the distance, if any wave is nearer than 100. */
  lemma {:induction false} NearestIsFirstMinimum(waves: seq<Wave>, e: Event)
    ensures var k := NearestIndex(waves, e);
            && (forall m :: 0 <= m < |waves| ==> Distance(waves[m], e) >= BestDistance(waves, e, k))
            && (forall m :: 0 <= m < k ==> Distance(waves[m], e) > BestDistance(waves, e, k))
            && BestDistance(waves, e, k) <= 100.0
            && (k >= 0 ==> BestDistance(waves, e, k) < 100.0)
  {
    if waves != [] {
      var n := |waves| - 1;
      var front := waves[..n];
      NearestIsFirstMinimum(front, e);
      assert forall m :: 0 <= m < n ==> front[m] == waves[m];
      assert BestDistance(front, e, NearestIndex(front, e)) == BestDistance(waves, e, NearestIndex(front, e));
    }
  }

  /** How far the wave is from the event in intensity and frequency together. */
  function Gap(w: Wave, e: Event): int {
    (if e.intensity >= w.intensity then e.intensity - w.intensity else w.intensity - e.intensity)
    + if e.frequency >= w.frequency then e.frequency - w.frequency else w.frequency - e.frequency
  }

  /** The id is that of the first of the waves nearest to the event, or 0 if none is nearer than 200. */
  ghost predicate IsMatch(waves: seq<Wave>, e: Event, id: int) {
    if forall m :: 0 <= m < |waves| ==> Gap(waves[m], e) >= 200 then id == 0
    else exists k :: 0 <= k < |waves| && IsNearest(waves, e, k) && waves[k].id == id
  }

  ghost predicate IsNearest(waves: seq<Wave>, e: Event, k: nat)
    requires k < |waves|
  {
    && (forall m :: 0 <= m < |waves| ==> Gap(waves[m], e) >= Gap(waves[k], e))
    && (forall m :: 0 <= m < k ==> Gap(waves[m], e) > Gap(waves[k], e))
  }

  lemma DistanceIsHalfGap(w: Wave, e: Event)
    ensures Distance(w, e) == Gap(w, e) as real / 2.0
  {
  }

  /** The scan finds the first of the nearest waves. */
  lemma NearestIsMatch(waves: seq<Wave>, e: Event)
    ensures IsMatch(waves, e, MatchId(waves, NearestIndex(waves, e)))
  {
    var k := NearestIndex(waves, e);
    NearestIsFirstMinimum(waves, e);
    forall m | 0 <= m < |waves| ensures Distance(waves[m], e) == Gap(waves[m], e) as real / 2.0 {
      DistanceIsHalfGap(waves[m], e);
    }
    if k >= 0 {
      assert Gap(waves[k], e) < 200 && IsNearest(waves, e, k);
    }
  }

  /** Appends the effect; the event is the one that the next is placed after. */
  method ProcessTransientEvent(waves: seq<Wave>, event: Event, preStartTime: int, compositeEffects: seq<CompositeEffect>)
    returns (startTime: int, duration: int, effects: seq<CompositeEffect>)
    ensures startTime == event.time && duration == event.duration
    ensures effects == compositeEffects + [PrimitiveEffect(event.time - preStartTime,
                                                           -MatchId(waves, NearestIndex(waves, event)), INTENSITY_MAX)]
    ensures IsMatch(waves, event, -effects[|compositeEffects|].effectId)
  {
    NearestIsMatch(waves, event);
    var matchId, minWeightSum := 0, 100.0;
    for k := 0 to |waves|
      invariant matchId == MatchId(waves, NearestIndex(waves[..k], event))
      invariant minWeightSum == BestDistance(waves, event, NearestIndex(waves[..k], event))
    {
      assert waves[..k + 1][..k] == waves[..k];
      var weightSum := Distance(waves[k], event);
      if weightSum < minWeightSum {
        minWeightSum := weightSum;
        matchId := waves[k].id;
      }
    }
    assert waves[..|waves|] == waves;
    effects := compositeEffects + [PrimitiveEffect(event.time - preStartTime, -matchId, INTENSITY_MAX)];
    startTime, duration := event.time, event.duration;
  }

  // ----- delay encoding -----

  function Delays(effects: seq<CompositeEffect>): (d: seq<int>)
    ensures |d| == |effects|
  {
    seq(|effects|, k requires 0 <= k < |effects| => effects[k].delay)
  }

  /** The effects, played one after the other, start when the flat events do and end when the last one does. */
  ghost predicate Encodes(flat: seq<Event>, effects: seq<CompositeEffect>) {
    && flat != [] && |effects| == |flat| + 1
    && (forall k :: 0 <= k < |flat| ==> Sum(Delays(effects)[..k + 1]) == flat[k].time)
    && Sum(Delays(effects)) == End(flat[|flat| - 1])
  }

  function StartBefore(flat: seq<Event>, k: nat): int
    requires k <= |flat|
  {
    if k == 0 then 0 else flat[k - 1].time
  }

  function TimeEffectAt(flat: seq<Event>, k: nat): CompositeEffect
    requires k < |flat|
  {
    TimeEffect(flat[k].time - StartBefore(flat, k), flat[k].duration, flat[k].intensity, flat[k].frequency)
  }

  predicate PlayedAsContinuous(waves: seq<Wave>, e: Event) {
    e.tag == Continuous || waves == []
  }

  function PrimitiveEffectAt(waves: seq<Wave>, flat: seq<Event>, k: nat): CompositeEffect
    requires k < |flat|
  {
    var delay := flat[k].time - StartBefore(flat, k);
    if PlayedAsContinuous(waves, flat[k]) then PrimitiveEffect(delay, flat[k].duration, flat[k].intensity)
    else PrimitiveEffect(delay, -MatchId(waves, NearestIndex(waves, flat[k])), INTENSITY_MAX)
  }

  function TimeEffectsUpTo(flat: seq<Event>, n: nat): (r: seq<CompositeEffect>)
    requires n <= |flat|
    ensures |r| == n && forall k :: 0 <= k < n ==> r[k] == TimeEffectAt(flat, k)
  {
    if n == 0 then [] else TimeEffectsUpTo(flat, n - 1) + [TimeEffectAt(flat, n - 1)]
  }

  function PrimitiveEffectsUpTo(waves: seq<Wave>, flat: seq<Event>, n: nat): (r: seq<CompositeEffect>)
    requires n <= |flat|
    ensures |r| == n && forall k :: 0 <= k < n ==> r[k] == PrimitiveEffectAt(waves, flat, k)
  {
    if n == 0 then [] else PrimitiveEffectsUpTo(waves, flat, n - 1) + [PrimitiveEffectAt(waves, flat, n - 1)]
  }

  /** The time-series form of a flat list, closed by a silent effect that waits out the last event. */
  function TimeEffects(flat: seq<Event>): seq<CompositeEffect>
    requires flat != []
  {
    TimeEffectsUpTo(flat, |flat|) + [TimeEffect(flat[|flat| - 1].duration, 0, 0, 0)]
  }

  /** The predefined-wave form. */
  function PrimitiveEffects(waves: seq<Wave>, flat: seq<Event>): seq<CompositeEffect>
    requires flat != []
  {
    PrimitiveEffectsUpTo(waves, flat, |flat|) + [PrimitiveEffect(flat[|flat| - 1].duration, 0, 0)]
  }

  /** The time effect carries the event. */
  predicate IsTimed(e: Event, start: int, c: CompositeEffect) {
    c.TimeEffect? && c.delay == e.time - start && c.time == e.duration
    && c.intensity == e.intensity && c.frequency == e.frequency
  }

  /** The primitive effect plays the event: for its time, at its strength; or the wave that matches it. */
  ghost predicate IsPrimitive(waves: seq<Wave>, e: Event, start: int, c: CompositeEffect) {
    c.PrimitiveEffect? && c.delay == e.time - start
    && if e.tag == Continuous || waves == [] then c.effectId == e.duration && c.intensity == e.intensity
       else IsMatch(waves, e, -c.effectId) && c.intensity == 100
  }

  /** One time effect for each flat event, and a silent one. */
  ghost predicate PlaysTimed(flat: seq<Event>, effects: seq<CompositeEffect>) {
    && flat != [] && |effects| == |flat| + 1
    && (forall k :: 0 <= k < |flat| ==> IsTimed(flat[k], if k == 0 then 0 else flat[k - 1].time, effects[k]))
    && effects[|flat|] == TimeEffect(flat[|flat| - 1].duration, 0, 0, 0)
  }

  /** One primitive effect for each flat event, and a silent one. */
  ghost predicate PlaysPrimitives(waves: seq<Wave>, flat: seq<Event>, effects: seq<CompositeEffect>) {
    && flat != [] && |effects| == |flat| + 1
    && (forall k :: 0 <= k < |flat| ==>
          IsPrimitive(waves, flat[k], if k == 0 then 0 else flat[k - 1].time, effects[k]))
    && effects[|flat|] == PrimitiveEffect(flat[|flat| - 1].duration, 0, 0)
  }

  /** What the effects of a flat list play, event by event. */
  lemma EffectsPlay(waves: seq<Wave>, flat: seq<Event>)
    requires flat != []
    ensures PlaysTimed(flat, TimeEffects(flat)) && PlaysPrimitives(waves, flat, PrimitiveEffects(waves, flat))
  {
    var effects := PrimitiveEffects(waves, flat);
    forall k | 0 <= k < |flat|
      ensures IsPrimitive(waves, flat[k], if k == 0 then 0 else flat[k - 1].time, effects[k])
    {
      NearestIsMatch(waves, flat[k]);
      assert effects[k] == PrimitiveEffectAt(waves, flat, k);
    }
    forall k | 0 <= k < |flat|
      ensures IsTimed(flat[k], if k == 0 then 0 else flat[k - 1].time, TimeEffects(flat)[k])
    {
      assert TimeEffects(flat)[k] == TimeEffectAt(flat, k);
    }
  }

  predicate Playable(waves: seq<Wave>, e: Event) {
    PlayedAsContinuous(waves, e) || e.tag == Transient
  }

  predicate AllPlayable(waves: seq<Wave>, flat: seq<Event>) {
    forall k :: 0 <= k < |flat| ==> Playable(waves, flat[k])
  }

  function FlatEvents(package: Package): seq<Event> {
    Mix(Flatten(package.patterns))
  }

  method TransformTime(package: Package) returns (ok: bool, compositeEffects: seq<CompositeEffect>)
    ensures ok <==> FlatEvents(package) != []
    ensures ok ==> compositeEffects == TimeEffects(FlatEvents(package))
    ensures ok ==> PlaysTimed(FlatEvents(package), compositeEffects)
  {
    var flatPattern := MixedWaveProcess(package);
    if flatPattern.events == [] { return false, []; }
    EffectsPlay([], flatPattern.events);
    compositeEffects := EncodeTimes(flatPattern.events);
    ok := true;
  }

  /** The loop of TransformTime. */
  method EncodeTimes(flat: seq<Event>) returns (compositeEffects: seq<CompositeEffect>)
    requires flat != []
    ensures compositeEffects == TimeEffects(flat)
  {
    compositeEffects := [];
    var frontTime := 0;
    for k := 0 to |flat|
      invariant compositeEffects == TimeEffectsUpTo(flat, k) && frontTime == StartBefore(flat, k)
    {
      var event := flat[k];
      compositeEffects := compositeEffects
        + [TimeEffect(event.time - frontTime, event.duration, event.intensity, event.frequency)];
      frontTime := event.time;
    }
    compositeEffects := compositeEffects + [TimeEffect(flat[|flat| - 1].duration, 0, 0, 0)];
  }

  method TransformEffect(waves: seq<Wave>, package: Package) returns (ok: bool, compositeEffects: seq<CompositeEffect>)
    ensures ok <==> FlatEvents(package) != [] && AllPlayable(waves, FlatEvents(package))
    ensures ok ==> compositeEffects == PrimitiveEffects(waves, FlatEvents(package))
    ensures ok ==> PlaysPrimitives(waves, FlatEvents(package), compositeEffects)
  {
    var flatPattern := MixedWaveProcess(package);
    if flatPattern.events == [] { return false, []; }
    EffectsPlay(waves, flatPattern.events);
    ok, compositeEffects := EncodePrimitives(waves, flatPattern.events, flatPattern.startTime);
  }

  /** The loop of TransformEffect. */
  method EncodePrimitives(waves: seq<Wave>, flat: seq<Event>, startTime: int)
    returns (ok: bool, compositeEffects: seq<CompositeEffect>)
    requires flat != [] && startTime == 0
    ensures ok <==> AllPlayable(waves, flat)
    ensures ok ==> compositeEffects == PrimitiveEffects(waves, flat)
  {
    compositeEffects := [];
    var preStartTime, preDuration := startTime, 0;
    for k := 0 to |flat|
      invariant preStartTime == StartBefore(flat, k)
      invariant k > 0 ==> preDuration == flat[k - 1].duration
      invariant compositeEffects == PrimitiveEffectsUpTo(waves, flat, k)
      invariant forall m :: 0 <= m < k ==> Playable(waves, flat[m])
    {
      var event := flat[k];
      if event.tag == Continuous || waves == [] {
        compositeEffects := compositeEffects
          + [PrimitiveEffect(event.time - preStartTime, event.duration, event.intensity)];
        preStartTime, preDuration := event.time, event.duration;
      } else if event.tag == Transient {
        preStartTime, preDuration, compositeEffects := ProcessTransientEvent(waves, event, preStartTime, compositeEffects);
      } else {
        assert !Playable(waves, flat[k]);
        return false, compositeEffects;
      }
      assert compositeEffects == PrimitiveEffectsUpTo(waves, flat, k) + [PrimitiveEffectAt(waves, flat, k)];
    }
    compositeEffects := compositeEffects + [PrimitiveEffect(preDuration, 0, 0)];
    ok := true;
  }

  /** Delays that telescope: each leads from the previous start to the next one. */
  lemma {:induction false} Telescope(flat: seq<Event>, d: seq<int>, k: nat)
    requires k < |flat| <= |d|
    requires forall m :: 0 <= m < |flat| ==> d[m] == flat[m].time - StartBefore(flat, m)
    ensures Sum(d[..k + 1]) == flat[k].time
  {
    assert d[..k + 1][..k] == d[..k];
    if k > 0 {
      Telescope(flat, d, k - 1);
    } else {
      assert d[..0] == [];
    }
  }

  /** All delays together lead to the end of the last event. */
  lemma TelescopeToEnd(flat: seq<Event>, d: seq<int>)
    requires flat != [] && |d| == |flat| + 1 && d[|flat|] == flat[|flat| - 1].duration
    requires forall m :: 0 <= m < |flat| ==> d[m] == flat[m].time - StartBefore(flat, m)
    ensures Sum(d) == End(flat[|flat| - 1])
  {
    var n := |flat|;
    Telescope(flat, d, n - 1);
    assert d[..n - 1 + 1] == d[..|d| - 1];
  }

  lemma DelaysEncode(flat: seq<Event>, effects: seq<CompositeEffect>)
    requires flat != [] && |effects| == |flat| + 1
    requires forall m :: 0 <= m < |flat| ==> effects[m].delay == flat[m].time - StartBefore(flat, m)
    requires effects[|flat|].delay == flat[|flat| - 1].duration
    ensures Encodes(flat, effects)
  {
    var d := Delays(effects);
    forall k | 0 <= k < |flat| ensures Sum(d[..k + 1]) == flat[k].time {
      Telescope(flat, d, k);
    }
    TelescopeToEnd(flat, d);
  }

  /** Both forms keep the timing of the flat list exactly. */
  lemma EffectsKeepTiming(waves: seq<Wave>, flat: seq<Event>)
    requires flat != []
    ensures Encodes(flat, TimeEffects(flat))
    ensures Encodes(flat, PrimitiveEffects(waves, flat))
  {
    DelaysEncode(flat, TimeEffects(flat));
    DelaysEncode(flat, PrimitiveEffects(waves, flat));
  }

  ghost predicate NonNegativeDelays(effects: seq<CompositeEffect>) {
    forall k :: 0 <= k < |effects| ==> effects[k].delay >= 0
  }

  lemma DelayIs(flat: seq<Event>, effects: seq<CompositeEffect>, k: nat)
    requires Encodes(flat, effects) && k < |effects|
    ensures effects[k].delay == if k < |flat| then flat[k].time - StartBefore(flat, k) else flat[k - 1].duration
  {
    var d := Delays(effects);
    assert d[..k + 1][..k] == d[..k];
    assert Sum(d[..k + 1]) == Sum(d[..k]) + d[k];
    if k == 0 {
      assert d[..0] == [];
    } else {
      assert Sum(d[..k - 1 + 1]) == flat[k - 1].time;
    }
    if k == |flat| {
      assert d[..k + 1] == d;
    } else {
      assert Sum(d[..k + 1]) == flat[k].time;
    }
  }

  /** The delays are all non-negative exactly when the flat events start in time order, none before
      time zero. */
  lemma DelaysNonNegativeIff(flat: seq<Event>, effects: seq<CompositeEffect>)
    requires Encodes(flat, effects) && flat[|flat| - 1].duration >= 0
    ensures NonNegativeDelays(effects) <==> StartSorted(flat) && flat[0].time >= 0
  {
    if NonNegativeDelays(effects) {
      DelayIs(flat, effects, 0);
      forall a, b | 0 <= a < b < |flat| ensures flat[a].time <= flat[b].time {
        Rising(flat, effects, a, b);
      }
    } else if StartSorted(flat) && flat[0].time >= 0 {
      var k :| 0 <= k < |effects| && effects[k].delay < 0;
      DelayIs(flat, effects, k);
    }
  }

  lemma {:induction false} Rising(flat: seq<Event>, effects: seq<CompositeEffect>, a: nat, b: nat)
    requires Encodes(flat, effects) && NonNegativeDelays(effects)
    requires a <= b < |flat|
    ensures flat[a].time <= flat[b].time
  {
    if a < b {
      Rising(flat, effects, a, b - 1);
      DelayIs(flat, effects, b);
    }
  }
}
