/** Run-length coding loses nothing: read millisecond by millisecond, the effects play the grade of every
    slice for as long as the slice lasts, and their delays put them where the slices are. */
module SlicingProofs {
  import opened Wrappers
  import opened Haptics
  import opened CompositeEffects
  import opened Slicing

  function Repeat(grade: int, n: int): seq<int> {
    seq(if n < 0 then 0 else n, k => grade)
  }

  /** What one effect plays: its grade, for each of its milliseconds. Negative ids are transients. */
  function Grades(e: CompositeEffect): seq<int> {
    if e.PrimitiveEffect? && e.effectId > 0
    then Repeat(e.effectId % 100, e.effectId / 100) else []
  }

  function Played(effects: seq<CompositeEffect>): seq<int> {
    if effects == [] then [] else Played(effects[..|effects| - 1]) + Grades(effects[|effects| - 1])
  }

  /** What some slices are meant to play. */
  function Intended(slices: seq<Slice>): seq<int> {
    if slices == [] then [] else Repeat(GradeOf(slices[0].intensity), slices[0].duration) + Intended(slices[1..])
  }

  /** The duration carried along is that of the last effect, where that is one that can grow. */
  predicate Consistent(t: Track) {
    t.effects != [] ==>
      var last := t.effects[|t.effects| - 1];
      last.PrimitiveEffect? && last.effectId > EFFECT_ID_BOUNDARY ==> last.effectId / CONTINUOUS_GRADE_MASK == t.preDuration
  }

  predicate GoodSlice(s: Slice) {
    s.duration >= 0 && 0 <= s.intensity <= 100
  }

  ghost predicate GoodSlices(slices: seq<Slice>) {
    forall k :: 0 <= k < |slices| ==> GoodSlice(slices[k])
  }

  lemma Decode(duration: nat, grade: int)
    requires 0 <= grade < CONTINUOUS_GRADE_NUM
    ensures (duration * CONTINUOUS_GRADE_MASK + grade) % CONTINUOUS_GRADE_MASK == grade
    ensures (duration * CONTINUOUS_GRADE_MASK + grade) / CONTINUOUS_GRADE_MASK == duration
  {
  }

  lemma PlayedSnoc(effects: seq<CompositeEffect>, e: CompositeEffect)
    ensures Played(effects + [e]) == Played(effects) + Grades(e)
  {
    assert (effects + [e])[..|effects|] == effects;
  }

  lemma GradesOfEffect(delay: int, duration: nat, grade: int, intensity: int)
    requires 0 <= grade < CONTINUOUS_GRADE_NUM
    ensures Grades(EffectFor(delay, duration, grade, intensity)) == Repeat(grade, duration)
  {
    Decode(duration, grade);
    assert duration == 0 ==> Repeat(grade, duration) == [];
  }

  /** One more slice, coalesced with the last effect or not, plays what it is meant to play. */
  lemma EmitPlays(t: Track, s: Slice)
    requires Consistent(t) && GoodSlice(s)
    ensures Consistent(Emit(t, s))
    ensures Played(Emit(t, s).effects) == Played(t.effects) + Repeat(GradeOf(s.intensity), s.duration)
  {
    var grade := GradeOf(s.intensity);
    GradeIsEighth(s.intensity);
    var n := |t.effects| - 1;
    if Coalesces(t, s) {
      CoalescePlays(t, s, grade);
    } else {
      Decode(s.duration, grade);
      GradesOfEffect(s.time - t.preStartTime, s.duration, grade, 0);
      PlayedSnoc(t.effects, EffectFor(s.time - t.preStartTime, s.duration, grade, 0));
    }
  }

  lemma RepeatJoin(grade: int, a: nat, b: nat)
    ensures Repeat(grade, a + b) == Repeat(grade, a) + Repeat(grade, b)
  {
  }

  lemma LastPlayed(effects: seq<CompositeEffect>)
    requires effects != []
    ensures Played(effects) == Played(effects[..|effects| - 1]) + Grades(effects[|effects| - 1])
  {
  }

  lemma CoalescePlays(t: Track, s: Slice, grade: int)
    requires Consistent(t) && GoodSlice(s) && Coalesces(t, s) && grade == GradeOf(s.intensity)
    requires 0 <= grade < CONTINUOUS_GRADE_NUM
    ensures Consistent(Emit(t, s))
    ensures Played(Emit(t, s).effects) == Played(t.effects) + Repeat(grade, s.duration)
  {
    var n := |t.effects| - 1;
    var last := t.effects[n];
    var merged := t.preDuration + s.duration;
    Decode(merged, grade);
    GradesOfEffect(last.delay, merged, grade, last.intensity);
    LastPlayed(t.effects);
    PlayedSnoc(t.effects[..n], EffectFor(last.delay, merged, grade, last.intensity));
    assert Grades(last) == Repeat(grade, t.preDuration);
    RepeatJoin(grade, t.preDuration, s.duration);
    Assoc(Played(t.effects[..n]), Repeat(grade, t.preDuration), Repeat(grade, s.duration));
  }

  lemma {:induction false} EmitAllPlays(t: Track, slices: seq<Slice>)
    requires Consistent(t) && GoodSlices(slices)
    ensures Consistent(EmitAll(t, slices))
    ensures Played(EmitAll(t, slices).effects) == Played(t.effects) + Intended(slices)
    decreases |slices|
  {
    if slices != [] {
      assert GoodSlice(slices[0]);
      EmitPlays(t, slices[0]);
      EmitAllPlays(Emit(t, slices[0]), slices[1..]);
      Assoc(Played(t.effects), Repeat(GradeOf(slices[0].intensity), slices[0].duration), Intended(slices[1..]));
    } else {
      assert Played(t.effects) + [] == Played(t.effects);
    }
  }

  /** An event of under 100 ms is one slice of its own strength, whatever its curve; a longer one without
      a curve plays nothing. */
  lemma ShortEventPlays(t: Track, event: Event)
    requires Consistent(t) && 0 <= event.duration && 0 <= event.intensity <= 100
    ensures var after := EmitAll(t, SlicesOf(event));
            && (event.duration < 100 ==>
                  && Played(after.effects)
                     == Played(t.effects) + Repeat(if event.intensity == 100 then 7 else event.intensity * 8 / 100,
                                                   event.duration)
                  && after.preStartTime + after.preDuration == event.time + event.duration
                  && Sum(Delays(after.effects)) - after.preStartTime == Sum(Delays(t.effects)) - t.preStartTime)
            && (event.duration >= 100 && event.points == [] ==> after == t)
  {
    if event.duration < 100 {
      var s := Slice(event.time, event.duration, event.intensity, event.frequency);
      assert SlicesOf(event) == [s] && [s][1..] == [];
      assert EmitAll(t, [s]) == EmitAll(Emit(t, s), []);
      EmitPlays(t, s);
      EmitDelays(t, s);
      GradeIsEighth(event.intensity);
    }
  }

  // ----- the coding is as short as it can be -----

  /** The two effects could not have been one: there is a gap between them, the first is shorter than 10 ms
      or not a primitive one, they play different grades, or together they would last 1600 ms or more. */
  predicate Distinct(a: CompositeEffect, b: CompositeEffect) {
    a.PrimitiveEffect? && b.PrimitiveEffect? && a.effectId > 1000 && b.delay == a.effectId / 100 ==>
      a.effectId % 100 != b.effectId % 100 || a.effectId / 100 + b.effectId / 100 >= 1600
  }

  /** From index n on, no effect could have been one with the effect after it. */
  ghost predicate Compact(effects: seq<CompositeEffect>, n: int) {
    forall k :: n <= k < |effects| - 1 && k >= 0 ==> Distinct(effects[k], effects[k + 1])
  }

  /** From index n on, every effect is a primitive one of no strength of its own. */
  ghost predicate Plain(effects: seq<CompositeEffect>, n: int) {
    forall k :: n <= k < |effects| && k >= 0 ==> effects[k].PrimitiveEffect? && effects[k].intensity == 0
  }

  lemma CoalesceKeepsDistinct(a: CompositeEffect, delay: int, d: nat, d': nat, grade: int, intensity: int)
    requires 0 <= grade < CONTINUOUS_GRADE_NUM && d <= d'
    requires Distinct(a, EffectFor(delay, d, grade, intensity))
    ensures Distinct(a, EffectFor(delay, d', grade, intensity))
  {
    Decode(d, grade);
    Decode(d', grade);
  }

  lemma LastIsEffectFor(last: CompositeEffect, duration: nat, grade: int)
    requires last.PrimitiveEffect? && last.effectId > EFFECT_ID_BOUNDARY
    requires last.effectId / CONTINUOUS_GRADE_MASK == duration && last.effectId % CONTINUOUS_GRADE_MASK == grade
    ensures last == EffectFor(last.delay, duration, grade, last.intensity)
  {
  }

  lemma CoalesceIsCompact(t: Track, s: Slice, n: int)
    requires Consistent(t) && GoodSlice(s) && Coalesces(t, s) && n < |t.effects|
    requires Compact(t.effects, n) && Plain(t.effects, n + 1)
    ensures Compact(Emit(t, s).effects, n) && Plain(Emit(t, s).effects, n + 1)
  {
    GradeIsEighth(s.intensity);
    var m, grade := |t.effects| - 1, GradeOf(s.intensity);
    var last := t.effects[m];
    LastIsEffectFor(last, t.preDuration, grade);
    if n < m && m > 0 {
      assert Distinct(t.effects[m - 1], t.effects[m]);
      CoalesceKeepsDistinct(t.effects[m - 1], last.delay, t.preDuration, t.preDuration + s.duration, grade, last.intensity);
    }
    var after := Emit(t, s).effects;
    forall k | n <= k < |after| - 1 && k >= 0 ensures Distinct(after[k], after[k + 1]) {
      assert k + 1 < m ==> Distinct(t.effects[k], t.effects[k + 1]);
    }
  }

  lemma AppendIsDistinct(t: Track, s: Slice)
    requires Consistent(t) && GoodSlice(s) && !Coalesces(t, s) && t.effects != []
    ensures Distinct(t.effects[|t.effects| - 1],
                     EffectFor(s.time - t.preStartTime, s.duration, GradeOf(s.intensity), 0))
  {
    GradeIsEighth(s.intensity);
    Decode(s.duration, GradeOf(s.intensity));
  }

  lemma AppendIsCompact(t: Track, s: Slice, n: int)
    requires Consistent(t) && GoodSlice(s) && !Coalesces(t, s) && n < |t.effects|
    requires Compact(t.effects, n) && Plain(t.effects, n + 1)
    ensures Compact(Emit(t, s).effects, n) && Plain(Emit(t, s).effects, n + 1)
  {
    var after := Emit(t, s).effects;
    if t.effects != [] {
      AppendIsDistinct(t, s);
    }
    forall k | n <= k < |after| - 1 && k >= 0 ensures Distinct(after[k], after[k + 1]) {
      assert k + 1 < |t.effects| ==> Distinct(t.effects[k], t.effects[k + 1]);
    }
  }

  lemma {:induction false} EmitAllCompact(t: Track, slices: seq<Slice>, n: int)
    requires Consistent(t) && GoodSlices(slices) && n < |t.effects|
    requires Compact(t.effects, n) && Plain(t.effects, n + 1)
    ensures Compact(EmitAll(t, slices).effects, n) && Plain(EmitAll(t, slices).effects, n + 1)
    decreases |slices|
  {
    if slices != [] {
      assert GoodSlice(slices[0]);
      EmitPlays(t, slices[0]);
      if Coalesces(t, slices[0]) {
        CoalesceIsCompact(t, slices[0], n);
      } else {
        AppendIsCompact(t, slices[0], n);
      }
      EmitAllCompact(Emit(t, slices[0]), slices[1..], n);
    }
  }

  /** The slices of an event are coded in as few effects as can be: from the last effect there was on, no
      two neighbours could have been one. What is added has no strength of its own. */
  lemma SlicesAreCompact(t: Track, slices: seq<Slice>)
    requires Consistent(t) && GoodSlices(slices)
    ensures Compact(EmitAll(t, slices).effects, |t.effects| - 1) && Plain(EmitAll(t, slices).effects, |t.effects|)
  {
    EmitAllCompact(t, slices, |t.effects| - 1);
  }

  // ----- where the effects are -----

  lemma EmitDelays(t: Track, s: Slice)
    ensures Sum(Delays(Emit(t, s).effects)) - Emit(t, s).preStartTime == Sum(Delays(t.effects)) - t.preStartTime
    ensures Emit(t, s).preStartTime + Emit(t, s).preDuration == s.time + s.duration
  {
    var r := Emit(t, s);
    var n := |r.effects| - 1;
    assert r.effects[..n] == if Coalesces(t, s) then t.effects[..n] else t.effects;
    assert Delays(r.effects)[..n] == Delays(r.effects[..n]);
    assert Coalesces(t, s) ==> Delays(t.effects)[..n] == Delays(t.effects[..n]);
  }

  /** Added up, the delays always give the start of the last effect, and that effect lasts to the end of
      the last slice. */
  lemma {:induction false} EmitAllDelays(t: Track, slices: seq<Slice>, front: int, back: int)
    requires Tiles(slices, front, back)
    ensures var r := EmitAll(t, slices);
            && Sum(Delays(r.effects)) - r.preStartTime == Sum(Delays(t.effects)) - t.preStartTime
            && (slices != [] ==> r.preStartTime + r.preDuration == back)
    decreases |slices|
  {
    if slices != [] {
      EmitDelays(t, slices[0]);
      EmitAllDelays(Emit(t, slices[0]), slices[1..], front + slices[0].duration, back);
    }
  }

  lemma {:induction false} IntendedLength(slices: seq<Slice>, front: int, back: int)
    requires Tiles(slices, front, back) && GoodSlices(slices)
    ensures |Intended(slices)| == back - front
    ensures forall k :: 0 <= k < |Intended(slices)| ==> 0 <= Intended(slices)[k] < CONTINUOUS_GRADE_NUM
  {
    if slices != [] {
      assert GoodSlice(slices[0]);
      GradeIsEighth(slices[0].intensity);
      IntendedLength(slices[1..], front + slices[0].duration, back);
    }
  }

  lemma SlicesOfCurve(event: Event)
    requires event.duration >= 2 * SLICE_STEP && event.points != [] && CurveInRange(event.points)
    requires event.points[0].time < event.points[|event.points| - 1].time
    ensures GoodSlices(SlicesOf(event)) && SlicesOf(event) != []
    ensures Tiles(SlicesOf(event), event.points[0].time, event.points[|event.points| - 1].time)
  {
    var c := event.points;
    SlicesTile(c, c[0].time, c[0].intensity, c[0].frequency);
    SlicesInRange(c, c[0].time, c[0].intensity, c[0].frequency);
    AllGood(SlicesOf(event));
  }

  /** A continuous event of 100 ms or more whose curve begins before it ends and stays in range: the effects
      play, after what they played before, one grade of 0..7 for each millisecond from the first point of
      the curve to the last, each slice its own; the last effect ends with the curve; and the delays still
      add up to where it starts. */
  lemma ContinuousEventPlays(t: Track, event: Event)
    requires Consistent(t) && event.duration >= 2 * SLICE_STEP
    requires event.points != [] && CurveInRange(event.points)
    requires event.points[0].time < event.points[|event.points| - 1].time
    ensures var slices, after := SlicesOf(event), EmitAll(t, SlicesOf(event));
            var front, back := event.points[0].time, event.points[|event.points| - 1].time;
            && Consistent(after) && Tiles(slices, front, back)
            && Played(after.effects) == Played(t.effects) + Intended(slices)
            && |Intended(slices)| == back - front
            && (forall k :: 0 <= k < |Intended(slices)| ==> 0 <= Intended(slices)[k] < CONTINUOUS_GRADE_NUM)
            && after.preStartTime + after.preDuration == back
            && Sum(Delays(after.effects)) - after.preStartTime == Sum(Delays(t.effects)) - t.preStartTime
  {
    var slices, c := SlicesOf(event), event.points;
    SlicesOfCurve(event);
    EmitAllPlays(t, slices);
    IntendedLength(slices, c[0].time, c[|c| - 1].time);
    EmitAllDelays(t, slices, c[0].time, c[|c| - 1].time);
  }

  lemma AllGood(slices: seq<Slice>)
    requires AllInRange(slices)
    requires forall k :: 0 <= k < |slices| - 1 ==> slices[k].duration == SLICE_STEP
    requires slices != [] ==> slices[|slices| - 1].duration > 0
    ensures GoodSlices(slices)
  {
    forall k | 0 <= k < |slices| ensures GoodSlice(slices[k]) {
      assert SliceInRange(slices[k]);
    }
  }
}
