/** What an accepted HE file promises to the rest of the service: curves fit for merging, and events that
    play in turn, unless one begins before a transient ahead of it that nothing is joined to. */
module HeProofs {
  import opened Haptics
  import opened CurveMerge
  import opened CurveMergeProofs
  import opened MixedWave
  import opened MixRuns
  import opened CompositeEffects
  import opened Playback
  import opened EndToEnd
  import H = HeDecoder

  // ----- curves -----

  lemma {:induction false} TimesRise(c: seq<H.RawPoint>, duration: int, a: nat, b: nat)
    requires H.AcceptsPoints(c, duration) && a < b < |c|
    ensures H.Number(c[a].time) < H.Number(c[b].time)
  {
    assert H.AcceptsPointAt(c, b, duration);
    if a < b - 1 {
      TimesRise(c, duration, a, b - 1);
    }
  }

  /** The curve of an accepted continuous event: strictly increasing from (0, 0) to (duration, 0). */
  ghost predicate FullCurve(e: Event) {
    && |e.points| >= H.CURVE_POINT_NUM_MIN && TimeIncreasing(e.points)
    && e.points[0].time == 0 && e.points[0].intensity == 0
    && e.points[|e.points| - 1].time == e.duration && e.points[|e.points| - 1].intensity == 0
    && 0 < e.duration <= H.CONTINUOUS_DURATION_MAX && e.time >= 0
  }

  lemma AcceptedCurve(raw: H.RawEvent)
    requires H.AcceptsEvent(raw)
    ensures var e := H.EventOf(raw);
            if e.tag == Continuous then FullCurve(e) else e.tag == Transient && e.points == []
  {
    var e := H.EventOf(raw);
    if e.tag == Continuous {
      var c := raw.parameters.v.curve.v;
      forall a, b | 0 <= a < b < |e.points| ensures e.points[a].time < e.points[b].time {
        TimesRise(c, e.duration, a, b);
      }
    }
  }

  /** Made absolute, such a curve spans exactly the event and has every value in range. */
  lemma FullCurvePlaced(e: Event)
    requires FullCurve(e)
    ensures var c := PreProcessed(e).points;
            && |c| == |e.points| && TimeIncreasing(c) && InRange(c)
            && c[0].time == e.time && c[|c| - 1].time == End(e)
  {
    PreProcessedCurve(e);
    var c := PreProcessed(e).points;
    forall a, b | 0 <= a < b < |c| ensures c[a].time < c[b].time {
      assert e.points[a].time < e.points[b].time;
    }
  }

  /** Two accepted events that overlap join into a curve with all values in range, which is in strict
      time order exactly when the earlier of the two ends is a knot of both curves. */
  lemma HeJoinIncreasingIff(d: Event, e: Event)
    requires FullCurve(d) && FullCurve(e) && e.time < End(d)
    ensures var j := Joined(PreProcessed(d), PreProcessed(e)).points;
            && InRange(j)
            && (TimeIncreasing(j) <==> EndIsCommon(PreProcessed(d).points, PreProcessed(e).points))
    ensures End(d) == End(e) ==> EndIsCommon(PreProcessed(d).points, PreProcessed(e).points)
  {
    FullCurvePlaced(d);
    FullCurvePlaced(e);
    FirstJoinInRange(d, e);
    var l, r := PreProcessed(d).points, PreProcessed(e).points;
    MergeIncreasingIff(l, r);
    if End(d) == End(e) {
      assert l[|l| - 1].time == OverlapRight(l, r) && r[|r| - 1].time == OverlapRight(l, r);
    }
  }

  // ----- patterns -----

  lemma {:induction false} EventTimesRise(items: seq<H.Json<H.RawEvent>>, a: nat, b: nat)
    requires H.AcceptsEvents(items) && a <= b < |items|
    ensures H.Events(items)[a].time <= H.Events(items)[b].time
  {
    assert H.AcceptsAt(items, b);
    if a < b {
      EventTimesRise(items, a, b - 1);
      assert H.AcceptsAt(items, b - 1);
    }
  }

  lemma AcceptedEvents(j: H.Json<seq<H.Json<H.RawEvent>>>)
    requires H.AcceptsPattern(j)
    ensures Orderly(H.Events(j.v)) && 1 <= |H.Events(j.v)| <= H.EVENT_NUM_MAX
  {
    var es := H.Events(j.v);
    forall a, b | 0 <= a < b < |es| ensures es[a].time <= es[b].time {
      EventTimesRise(j.v, a, b);
    }
    forall k | 0 <= k < |es| ensures GoodEvent(es[k]) {
      assert H.AcceptsAt(j.v, k);
    }
  }

  /** Every pattern of an accepted file holds 1..16 events in time order, and the patterns start at
      strictly later and later times from zero on. */
  lemma AcceptedPatterns(f: H.RawFile)
    requires H.AcceptsFile(f)
    ensures var ps := H.Decoded(f);
            && ps != []
            && (forall k :: 0 <= k < |ps| ==> Orderly(ps[k].events) && 1 <= |ps[k].events| <= H.EVENT_NUM_MAX)
            && (forall k :: 0 <= k < |ps| ==> ps[k].startTime >= 0)
            && (forall a, b :: 0 <= a < b < |ps| ==> ps[a].startTime < ps[b].startTime)
  {
    var ps := H.Decoded(f);
    if f.version == H.Value(1) {
      AcceptedEvents(f.pattern);
    } else {
      var list := f.patternList.v;
      forall k | 0 <= k < |ps| ensures Orderly(ps[k].events) && 1 <= |ps[k].events| <= H.EVENT_NUM_MAX {
        assert H.AcceptsPatternAt(list, k);
        AcceptedEvents(list[k].events);
      }
      forall b | 0 <= b < |ps| ensures ps[b].startTime >= 0 {
        StartsRise(list, b, b);
      }
      forall a, b | 0 <= a < b < |ps| ensures ps[a].startTime < ps[b].startTime {
        StartsRise(list, a, b);
      }
    }
  }

  lemma {:induction false} StartsRise(list: seq<H.RawPattern>, a: nat, b: nat)
    requires H.AcceptsPatterns(list) && a <= b < |list|
    ensures H.Patterns(list)[b].startTime >= 0
    ensures a < b ==> H.Patterns(list)[a].startTime < H.Patterns(list)[b].startTime
  {
    assert H.AcceptsPatternAt(list, b);
    if b > 0 {
      assert H.AcceptsPatternAt(list, b - 1);
      StartsRise(list, if a < b then a else b - 1, b - 1);
    }
  }

  /** The events are those of the items, one for one. */
  ghost predicate ReadsEvents(items: seq<H.Json<H.RawEvent>>, es: seq<Event>) {
    |es| == |items| && forall k :: 0 <= k < |items| ==> items[k].Value? && H.ReadsEvent(items[k].v, es[k])
  }

  lemma EventsRead(items: seq<H.Json<H.RawEvent>>)
    requires H.AcceptsEvents(items)
    ensures ReadsEvents(items, H.Events(items))
  {
    forall k | 0 <= k < |items| ensures items[k].Value? && H.ReadsEvent(items[k].v, H.Events(items)[k]) {
      assert H.AcceptsAt(items, k);
      H.EventReads(items[k].v);
    }
  }

  ghost predicate ReadsPattern(raw: H.RawPattern, p: Pattern) {
    raw.absoluteTime == H.Value(p.startTime) && raw.events.Value? && ReadsEvents(raw.events.v, p.events)
  }

  /** A file of version 1 is one pattern at time 0, one of version 2 the patterns of its list at their
      absolute times, every event as its item says. */
  lemma DecodedReads(f: H.RawFile)
    requires H.AcceptsFile(f)
    ensures f.version == H.Value(1) ==> |H.Decoded(f)| == 1 && H.Decoded(f)[0].startTime == 0
                                        && ReadsEvents(f.pattern.v, H.Decoded(f)[0].events)
    ensures f.version != H.Value(1) ==>
              && |H.Decoded(f)| == |f.patternList.v|
              && forall k :: 0 <= k < |f.patternList.v| ==> ReadsPattern(f.patternList.v[k], H.Decoded(f)[k])
  {
    if f.version == H.Value(1) {
      EventsRead(f.pattern.v);
    } else {
      var list := f.patternList.v;
      forall k | 0 <= k < |list| ensures ReadsPattern(list[k], H.Decoded(f)[k]) {
        assert H.AcceptsPatternAt(list, k);
        EventsRead(list[k].events.v);
        StartsRise(list, k, k);
      }
    }
  }

  // ----- playing -----

  /** No pattern begins, with its first event, before the last event of the pattern ahead of it. */
  ghost predicate InTurn(ps: seq<Pattern>) {
    forall k :: 0 < k < |ps| ==> Follows(ps, k)
  }

  ghost predicate Follows(ps: seq<Pattern>, k: nat)
    requires 0 < k < |ps|
  {
    ps[k - 1].events != [] && ps[k].events != [] ==>
      var last := ps[k - 1].events[|ps[k - 1].events| - 1];
      ps[k - 1].startTime + last.time <= ps[k].startTime + ps[k].events[0].time
  }

  ghost predicate FilledInOrder(ps: seq<Pattern>) {
    forall k :: 0 <= k < |ps| ==> Orderly(ps[k].events) && ps[k].events != [] && ps[k].startTime >= 0
  }

  lemma PlacedOrderly(p: Pattern)
    requires Orderly(p.events) && p.startTime >= 0
    ensures Orderly(Placed(p))
  {
    forall k | 0 <= k < |p.events| ensures GoodEvent(Placed(p)[k]) {
      assert GoodEvent(p.events[k]);
    }
  }

  function LastPlaced(p: Pattern): Event
    requires p.events != []
  {
    Placed(p)[|p.events| - 1]
  }

  lemma {:induction false} FlatGood(ps: seq<Pattern>)
    requires FilledInOrder(ps)
    ensures forall k :: 0 <= k < |Flatten(ps)| ==> GoodEvent(Flatten(ps)[k])
  {
    if ps != [] {
      FlatGood(ps[..|ps| - 1]);
      PlacedOrderly(ps[|ps| - 1]);
    }
  }

  lemma FlatLast(ps: seq<Pattern>)
    requires FilledInOrder(ps) && ps != []
    ensures Flatten(ps) != [] && Flatten(ps)[|Flatten(ps)| - 1] == LastPlaced(ps[|ps| - 1])
  {
  }

  lemma FilledFront(ps: seq<Pattern>)
    requires FilledInOrder(ps) && ps != []
    ensures FilledInOrder(ps[..|ps| - 1])
    ensures Orderly(ps[|ps| - 1].events) && ps[|ps| - 1].events != [] && ps[|ps| - 1].startTime >= 0
  {
  }

  lemma JoinIsFollows(ps: seq<Pattern>, n: nat)
    requires 0 < n < |ps| && ps[n - 1].events != [] && ps[n].events != []
    ensures LastPlaced(ps[n - 1]).time <= Placed(ps[n])[0].time <==> Follows(ps, n)
  {
  }

  /** The events of all patterns are in time order exactly when the patterns are in turn. */
  lemma {:induction false} FlatSortedIff(ps: seq<Pattern>)
    requires FilledInOrder(ps)
    ensures StartSorted(Flatten(ps)) <==> InTurn(ps)
  {
    if ps != [] {
      var n := |ps| - 1;
      FilledFront(ps);
      FlatSortedIff(ps[..n]);
      PlacedOrderly(ps[n]);
      InTurnSnoc(ps);
      SortedJoin(Flatten(ps[..n]), Placed(ps[n]));
      if n > 0 {
        FlatLast(ps[..n]);
        JoinIsFollows(ps, n);
      }
    }
  }

  lemma InTurnSnoc(ps: seq<Pattern>)
    requires ps != []
    ensures InTurn(ps) <==> InTurn(ps[..|ps| - 1]) && (|ps| > 1 ==> Follows(ps, |ps| - 1))
  {
    var n := |ps| - 1;
    assert forall k :: 0 < k < n ==> (Follows(ps[..n], k) <==> Follows(ps, k));
  }

  lemma SortedJoin(a: seq<Event>, b: seq<Event>)
    requires StartSorted(b)
    ensures StartSorted(a + b)
       <==> StartSorted(a) && (a != [] && b != [] ==> a[|a| - 1].time <= b[0].time)
  {
    var c := a + b;
    if StartSorted(c) {
      forall i, j | 0 <= i < j < |a| ensures a[i].time <= a[j].time {
        assert c[i].time <= c[j].time;
      }
      if a != [] && b != [] {
        assert c[|a| - 1].time <= c[|a|].time;
      }
    }
  }

  /** What an accepted file holds is in time order, from time zero on, exactly when its patterns are in
      turn. */
  lemma AcceptedIsOrderlyIff(f: H.RawFile)
    requires H.AcceptsFile(f)
    ensures Orderly(Flatten(H.Decoded(f))) <==> InTurn(H.Decoded(f))
    ensures f.version == H.Value(1) ==> InTurn(H.Decoded(f))
  {
    AcceptedPatterns(f);
    FlatSortedIff(H.Decoded(f));
    FlatGood(H.Decoded(f));
  }

  /** An accepted file whose patterns are in turn plays on time: its composite effects have no negative
      delay, and undisturbed playing lasts until the end of the last flat event. */
  lemma AcceptedFilePlaysOnTime(f: H.RawFile, info: VibrateInfo, position: int, waves: seq<Wave>, env: Env)
    requires H.AcceptsFile(f) && info.package == Package(H.Decoded(f), 0)
    requires info.mode == CustomCompositeEffect || info.mode == CustomCompositeTime
    requires Undisturbed(env) && PlayedEvents(info, position) != []
    requires InTurn(H.Decoded(f))
    ensures var flat := Mix(PlayedEvents(info, position));
            var (outcome, acts) := Exec(Plan(info, position, waves), 0, env);
            && flat != [] && outcome == Finished
            && Encodes(flat, Concat(Parts(acts))) && NonNegativeDelays(Concat(Parts(acts)))
            && Sum(Sleeps(acts)) == End(flat[|flat| - 1])
  {
    AcceptedIsOrderlyIff(f);
    CompositePlaysOnTime(info, position, waves, env);
  }

  // ----- playing in any order of the patterns -----

  /** What the decoder promises of an event, besides a start time from zero on. */
  ghost predicate AcceptedShape(e: Event) {
    && e.tag != UnknownTag && e.duration > 0
    && if e.points == [] then e.tag == Transient else TimeIncreasing(e.points)
  }

  lemma AcceptedEventShape(raw: H.RawEvent)
    requires H.AcceptsEvent(raw)
    ensures AcceptedShape(H.EventOf(raw)) && H.EventOf(raw).time >= 0
  {
    AcceptedCurve(raw);
  }

  lemma AcceptedShapes(j: H.Json<seq<H.Json<H.RawEvent>>>)
    requires H.AcceptsPattern(j)
    ensures forall k :: 0 <= k < |H.Events(j.v)| ==> AcceptedShape(H.Events(j.v)[k])
  {
    forall k | 0 <= k < |H.Events(j.v)| ensures AcceptedShape(H.Events(j.v)[k]) {
      assert H.AcceptsAt(j.v, k);
      AcceptedEventShape(j.v[k].v);
    }
  }

  lemma AcceptedEvent(f: H.RawFile, a: nat, b: nat)
    requires H.AcceptsFile(f) && a < |H.Decoded(f)| && b < |H.Decoded(f)[a].events|
    ensures AcceptedShape(H.Decoded(f)[a].events[b])
    ensures H.Decoded(f)[a].events[b].time >= 0 && H.Decoded(f)[a].startTime >= 0
  {
    AcceptedPatterns(f);
    assert Orderly(H.Decoded(f)[a].events) && GoodEvent(H.Decoded(f)[a].events[b]);
    if f.version == H.Value(1) {
      AcceptedShapes(f.pattern);
    } else {
      assert H.AcceptsPatternAt(f.patternList.v, a);
      AcceptedShapes(f.patternList.v[a].events);
    }
  }

  lemma ShapeIsClean(e: Event)
    requires AcceptedShape(e)
    ensures CleanCurve(e)
  {
    var c := AbsoluteCurve(e);
    forall a, b | 0 <= a < b < |c| ensures c[a].time < c[b].time {
      if e.points != [] {
        assert e.points[a].time < e.points[b].time;
      }
    }
  }

  lemma PlayedIsAccepted(f: H.RawFile, info: VibrateInfo, position: int)
    requires H.AcceptsFile(f) && info.package == Package(H.Decoded(f), 0)
    ensures AllGood(PlayedEvents(info, position)) && AllClean(PlayedEvents(info, position))
  {
    var es := PlayedEvents(info, position);
    forall k | 0 <= k < |es| ensures GoodEvent(es[k]) && CleanCurve(es[k]) {
      PlayedFrom(info, position, es[k]);
      var a, b :| 0 <= a < |info.package.patterns| && 0 <= b < |info.package.patterns[a].events|
                  && es[k] == PlacedAt(info.package.patterns[a], b);
      AcceptedEvent(f, a, b);
      ShapeIsClean(es[k]);
    }
  }

  /** An accepted file, played undisturbed at any position, patterns in turn or not: the effects encode
      the flat list and the waits last until its end, and no delay is negative exactly when no event
      begins before a transient ahead of it that nothing was joined to. */
  lemma AcceptedFileDelaysIff(f: H.RawFile, info: VibrateInfo, position: int, waves: seq<Wave>, env: Env)
    requires H.AcceptsFile(f) && info.package == Package(H.Decoded(f), 0)
    requires info.mode == CustomCompositeEffect || info.mode == CustomCompositeTime
    requires Undisturbed(env) && PlayedEvents(info, position) != []
    ensures var flat := Mix(PlayedEvents(info, position));
            var (outcome, acts) := Exec(Plan(info, position, waves), 0, env);
            && flat != [] && outcome == Finished
            && Encodes(flat, Concat(Parts(acts))) && Sum(Sleeps(acts)) == End(flat[|flat| - 1])
            && (NonNegativeDelays(Concat(Parts(acts))) <==> TransientsInOrder(PlayedEvents(info, position)))
  {
    PlayedIsAccepted(f, info, position);
    CompositePlaysInTurnIff(info, position, waves, env);
  }

  /** The flat curves of an accepted file are all in strict time order exactly when each event that joins
      a run meets it; then, and as long as nothing is joined to a run that is out of order, every value
      is in range. */
  lemma AcceptedFileCurvesIff(f: H.RawFile, info: VibrateInfo, position: int)
    requires H.AcceptsFile(f) && info.package == Package(H.Decoded(f), 0)
    ensures var es := PlayedEvents(info, position);
            && (AllIncreasing(Mix(es)) <==> JoinsMeet(es))
            && (JoinsMeet(es) ==> JoinsOrdered(es))
            && (JoinsOrdered(es) ==> AllInRange(Mix(es)))
  {
    var es := PlayedEvents(info, position);
    PlayedIsAccepted(f, info, position);
    MixIncreasingIff(es);
    if JoinsMeet(es) {
      MeetingJoinsAreOrdered(es);
    }
    if JoinsOrdered(es) {
      MixStaysInRange(es);
    }
  }

  // ----- patterns that are not in turn -----

  function TransientAt(time: int): H.RawEvent {
    H.RawEvent(H.Value("transient"), H.Missing, H.Missing, H.Value(time),
               H.Value(H.RawParameters(H.Value(100), H.Value(50), H.Missing)))
  }

  function OneTransient(start: int, time: int): H.RawPattern {
    H.RawPattern(H.Value(start), H.Value([H.Value(TransientAt(time))]))
  }

  const BackwardsFile := H.RawFile(H.Value(2), H.Missing, H.Value([OneTransient(0, 1000), OneTransient(1, 0)]))

  lemma BackwardsDecoded()
    ensures H.AcceptsFile(BackwardsFile)
    ensures H.Decoded(BackwardsFile)
         == [Pattern(0, 0, [H.EventOf(TransientAt(1000))]), Pattern(1, 0, [H.EventOf(TransientAt(0))])]
  {
    var list := BackwardsFile.patternList.v;
    forall k | 0 <= k < |list| ensures H.AcceptsPatternAt(list, k) {
      OneTransientAccepted(list[k].events.v, if k == 0 then 1000 else 0);
    }
    OneTransientAccepted(list[0].events.v, 1000);
    OneTransientAccepted(list[1].events.v, 0);
    assert H.Patterns(list)[0] == Pattern(0, 0, [H.EventOf(TransientAt(1000))]);
    assert H.Patterns(list)[1] == Pattern(1, 0, [H.EventOf(TransientAt(0))]);
  }

  lemma OneTransientAccepted(items: seq<H.Json<H.RawEvent>>, time: nat)
    requires items == [H.Value(TransientAt(time))]
    ensures H.AcceptsEvents(items) && H.Events(items) == [H.EventOf(TransientAt(time))]
  {
    assert H.AcceptsAt(items, 0);
  }

  lemma MixTwoTransients(d: Event, e: Event)
    requires d.tag == Transient
    ensures Mix([d, e]) == [PreProcessed(d), PreProcessed(e)]
  {
    assert [d, e][..1] == [d] && [d][..0] == [];
    assert Mix([d]) == [PreProcessed(d)];
  }

  /** The decoder accepts patterns that are not in turn, and then an effect may be due 999 ms before the
      one ahead of it. */
  lemma AcceptedFileCanRunBackwards()
    ensures H.AcceptsFile(BackwardsFile) && !InTurn(H.Decoded(BackwardsFile))
    ensures var flat := Mix(Flatten(H.Decoded(BackwardsFile)));
            flat != [] && TimeEffects(flat)[1].delay == -999
  {
    BackwardsDecoded();
    var e0, e1 := H.EventOf(TransientAt(1000)), H.EventOf(TransientAt(0)).(time := 1);
    var ps := H.Decoded(BackwardsFile);
    assert !Follows(ps, 1);
    assert Placed(ps[0]) == [e0] && Placed(ps[1]) == [e1];
    assert ps[..1] == [ps[0]] && ps[..1][..0] == [];
    assert Flatten(ps[..1]) == [e0];
    assert Flatten(ps) == [e0, e1];
    MixTwoTransients(e0, e1);
  }
}
