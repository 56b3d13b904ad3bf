/** The conversions agree with each other: HE 1 to HE 2 and back changes nothing, HE 2 to HE 1 and back
    changes nothing just when the patterns are split as the converter splits them, and the two ways
    from OH to HE 2 meet just when every curve point states its intensity. */
module ConverterProofs {
  import opened Wrappers
  import opened Converter

  // ----- there and back: HE 1 -----

  lemma V2ToV1Snoc(list: seq<HePattern>, p: HePattern)
    ensures V2ToV1(list + [p]) == V2ToV1(list) + Absolute(p)
  {
    assert (list + [p])[..|list|] == list;
  }

  lemma StrippedSnoc(es: seq<HeEvent>)
    requires es != []
    ensures AllStripped(es) == AllStripped(es[..|es| - 1]) + [Stripped(es[|es| - 1])]
  {
  }

  lemma {:induction false} SplitKeepsEvents(es: seq<HeEvent>)
    requires AllTimed(es)
    ensures V2ToV1(Finish(Split(es))) == AllStripped(es)
    ensures Split(es).current.None? ==> es == []
  {
    if es != [] {
      var n := |es| - 1;
      SplitKeepsEvents(es[..n]);
      AddKeepsEvents(Split(es[..n]), es[n]);
      StrippedSnoc(es);
    }
  }

  lemma AddKeepsEvents(s: Splitting, e: HeEvent)
    requires Timed(e)
    ensures V2ToV1(Finish(AddEvent(s, e))) == V2ToV1(Finish(s)) + [Stripped(e)]
  {
    if OpensPattern(s, e.relativeTime) {
      var p := HePattern(e.relativeTime, [Placed(e, e.relativeTime)]);
      V2ToV1Snoc(Finish(s), p);
      assert Absolute(p) == [Stripped(e)];
    } else {
      var c := s.current.value;
      var c' := c.(events := c.events + [Placed(e, c.absoluteTime)]);
      V2ToV1Snoc(s.list, c);
      V2ToV1Snoc(s.list, c');
      assert Absolute(c') == Absolute(c) + [Stripped(e)];
    }
  }

  predicate IsStripped(e: HeEvent) {
    e == Stripped(e)
  }

  predicate AllAreStripped(es: seq<HeEvent>) {
    forall k :: 0 <= k < |es| ==> IsStripped(es[k])
  }

  /** Version 1 to version 2 and back gives every event with its type, time, duration and parameters; it
      gives the very same events when none carries an index, or a duration without being continuous. */
  lemma V1RoundTrip(es: seq<HeEvent>)
    requires AllTimed(es)
    ensures V2ToV1(V1ToV2(es)) == AllStripped(es)
    ensures V2ToV1(V1ToV2(es)) == es <==> AllAreStripped(es)
  {
    SplitKeepsEvents(es);
    if AllAreStripped(es) {
      assert forall k :: 0 <= k < |es| ==> IsStripped(es[k]);
      assert AllStripped(es) == es;
    }
    if AllStripped(es) == es {
      forall k | 0 <= k < |es| ensures IsStripped(es[k]) {
        assert AllStripped(es)[k] == es[k];
      }
    }
  }

  /** So no two lists of such events are converted to the same patterns. */
  lemma V1ToV2Injective(a: seq<HeEvent>, b: seq<HeEvent>)
    requires AllTimed(a) && AllTimed(b) && AllAreStripped(a) && AllAreStripped(b)
    ensures V1ToV2(a) == V1ToV2(b) <==> a == b
  {
    V1RoundTrip(a);
    V1RoundTrip(b);
  }

  // ----- how the patterns are split -----

  function StartAt(p: HePattern, k: nat): int
    requires k < |p.events|
  {
    p.absoluteTime + p.events[k].relativeTime
  }

  function EndAt(p: HePattern, k: nat): int
    requires k < |p.events| && Timed(p.events[k])
  {
    p.absoluteTime + EndOf(p.events[k])
  }

  /** A pattern holds 1..16 events, opens with one at relative time 0, and goes on without a pause. */
  ghost predicate PatternOk(p: HePattern) {
    && 1 <= |p.events| <= 16
    && AllTimed(p.events) && AllAreStripped(p.events)
    && p.events[0].relativeTime == 0
    && forall k :: 0 < k < |p.events| ==> GoesOn(p, k)
  }

  predicate GoesOn(p: HePattern, k: nat)
    requires 0 < k < |p.events| && AllTimed(p.events)
  {
    EndAt(p, k - 1) == -1 || StartAt(p, k) - EndAt(p, k - 1) <= 1000
  }

  /** A pattern ends because it is full or a pause follows. */
  ghost predicate EndsRightly(p: HePattern, next: HePattern)
    requires PatternOk(p)
  {
    var end := EndAt(p, |p.events| - 1);
    |p.events| == 16 || (end != -1 && next.absoluteTime - end > 1000)
  }

  ghost predicate Canonical(list: seq<HePattern>) {
    && (forall n :: 0 <= n < |list| ==> PatternOk(list[n]))
    && (forall n :: 0 < n < |list| ==> EndsRightly(list[n - 1], list[n]))
  }

  ghost predicate CanonicalSoFar(s: Splitting) {
    && Canonical(Finish(s))
    && if s.current.Some?
       then PatternOk(s.current.value)
            && s.lastEventEndTime == EndAt(s.current.value, |s.current.value.events| - 1)
       else s == NothingSplit
  }

  lemma ExtendedOk(c: HePattern, e: HeEvent)
    requires PatternOk(c) && |c.events| < EVENTS_PER_PATTERN && Timed(e)
    requires !Pauses(EndAt(c, |c.events| - 1), e.relativeTime)
    ensures PatternOk(c.(events := c.events + [Placed(e, c.absoluteTime)]))
  {
    var c' := c.(events := c.events + [Placed(e, c.absoluteTime)]);
    forall k | 0 <= k < |c'.events| ensures Timed(c'.events[k]) && IsStripped(c'.events[k]) {
      assert k < |c.events| ==> Timed(c.events[k]) && IsStripped(c.events[k]);
    }
    forall k | 0 < k < |c'.events| ensures GoesOn(c', k) {
      assert k < |c.events| ==> GoesOn(c, k);
    }
  }

  lemma CanonicalSnoc(list: seq<HePattern>, p: HePattern)
    requires Canonical(list) && PatternOk(p)
    requires list != [] ==> EndsRightly(list[|list| - 1], p)
    ensures Canonical(list + [p])
  {
  }

  lemma CanonicalFront(list: seq<HePattern>, p: HePattern)
    requires Canonical(list + [p])
    ensures Canonical(list) && (list != [] ==> EndsRightly(list[|list| - 1], p))
  {
    var all := list + [p];
    assert forall n :: 0 <= n < |list| ==> all[n] == list[n];
    if list != [] {
      assert EndsRightly(all[|list| - 1], all[|list|]);
    }
    forall n | 0 < n < |list| ensures EndsRightly(list[n - 1], list[n]) {
      assert EndsRightly(all[n - 1], all[n]);
    }
  }

  lemma AddKeepsCanonical(s: Splitting, e: HeEvent)
    requires CanonicalSoFar(s) && Timed(e)
    ensures CanonicalSoFar(AddEvent(s, e))
  {
    if OpensPattern(s, e.relativeTime) {
      var p := HePattern(e.relativeTime, [Placed(e, e.relativeTime)]);
      assert IsStripped(p.events[0]) && PatternOk(p);
      CanonicalSnoc(Finish(s), p);
    } else {
      var c := s.current.value;
      ExtendedOk(c, e);
      CanonicalFront(s.list, c);
      CanonicalSnoc(s.list, c.(events := c.events + [Placed(e, c.absoluteTime)]));
    }
  }

  lemma {:induction false} SplitCanonical(es: seq<HeEvent>)
    requires AllTimed(es)
    ensures CanonicalSoFar(Split(es))
  {
    if es != [] {
      SplitCanonical(es[..|es| - 1]);
      AddKeepsCanonical(Split(es[..|es| - 1]), es[|es| - 1]);
    }
  }

  // ----- there and back: HE 2 -----

  function FirstEvents(p: HePattern, k: nat): HePattern
    requires k <= |p.events|
  {
    p.(events := p.events[..k])
  }

  lemma AddsNext(list: seq<HePattern>, p: HePattern, k: nat)
    requires PatternOk(p) && 0 < k < |p.events|
    ensures AddEvent(Splitting(list, Some(FirstEvents(p, k)), EndAt(p, k - 1)), Absolute(p)[k])
         == Splitting(list, Some(FirstEvents(p, k + 1)), EndAt(p, k))
  {
    assert IsStripped(p.events[k]) && Timed(p.events[k]) && GoesOn(p, k);
    assert p.events[..k + 1] == p.events[..k] + [p.events[k]];
  }

  lemma OpensNext(s: Splitting, p: HePattern)
    requires PatternOk(p) && OpensPattern(s, p.absoluteTime)
    ensures AddEvent(s, Absolute(p)[0]) == Splitting(Finish(s), Some(FirstEvents(p, 1)), EndAt(p, 0))
  {
    assert IsStripped(p.events[0]) && Timed(p.events[0]);
    assert p.events[..1] == [p.events[0]];
  }

  /** The events of the first n patterns, and k of the one after. */
  function FlatUpTo(list: seq<HePattern>, n: nat, k: nat): seq<HeEvent>
    requires n < |list| && k <= |list[n].events|
  {
    V2ToV1(list[..n]) + Absolute(list[n])[..k]
  }

  lemma AllFlatUpTo(list: seq<HePattern>, n: nat)
    requires n < |list|
    ensures FlatUpTo(list, n, |list[n].events|) == V2ToV1(list[..n + 1])
  {
    assert list[..n + 1][..n] == list[..n];
    assert Absolute(list[n])[..|list[n].events|] == Absolute(list[n]);
  }

  lemma SplitSnoc(es: seq<HeEvent>, e: HeEvent)
    requires AllTimed(es) && Timed(e)
    ensures AllTimed(es + [e]) && Split(es + [e]) == AddEvent(Split(es), e)
  {
    assert (es + [e])[..|es|] == es;
  }

  /** After k events of the n-th pattern, that pattern is the current one, with those k events. */
  ghost predicate SplitsAgain(list: seq<HePattern>, n: nat, k: nat)
    requires n < |list| && 1 <= k <= |list[n].events| && PatternOk(list[n])
  {
    && AllTimed(FlatUpTo(list, n, k))
    && Split(FlatUpTo(list, n, k)) == Splitting(list[..n], Some(FirstEvents(list[n], k)), EndAt(list[n], k - 1))
  }

  lemma FlatOneMore(list: seq<HePattern>, n: nat, k: nat)
    requires n < |list| && k < |list[n].events|
    ensures FlatUpTo(list, n, k + 1) == FlatUpTo(list, n, k) + [Absolute(list[n])[k]]
  {
  }

  lemma SplitsOneMore(list: seq<HePattern>, n: nat, k: nat)
    requires n < |list| && PatternOk(list[n]) && 1 <= k < |list[n].events| && SplitsAgain(list, n, k)
    ensures SplitsAgain(list, n, k + 1)
  {
    assert Timed(list[n].events[k]);
    FlatOneMore(list, n, k);
    SplitSnoc(FlatUpTo(list, n, k), Absolute(list[n])[k]);
    AddsNext(list[..n], list[n], k);
  }

  lemma FlatFirst(list: seq<HePattern>, n: nat)
    requires n < |list| && list[n].events != []
    ensures FlatUpTo(list, n, 1) == V2ToV1(list[..n]) + [Absolute(list[n])[0]]
  {
    FlatOneMore(list, n, 0);
    assert FlatUpTo(list, n, 0) == V2ToV1(list[..n]);
  }

  lemma SplitsFirst(list: seq<HePattern>, n: nat)
    requires n < |list| && PatternOk(list[n]) && Before(list, n)
    ensures SplitsAgain(list, n, 1)
  {
    assert Timed(list[n].events[0]);
    FlatFirst(list, n);
    SplitSnoc(V2ToV1(list[..n]), Absolute(list[n])[0]);
    OpensNext(Split(V2ToV1(list[..n])), list[n]);
  }

  /** Before the n-th pattern, all the earlier ones are finished or ready to be. */
  ghost predicate Before(list: seq<HePattern>, n: nat)
    requires n < |list|
  {
    && AllTimed(V2ToV1(list[..n]))
    && Finish(Split(V2ToV1(list[..n]))) == list[..n]
    && OpensPattern(Split(V2ToV1(list[..n])), list[n].absoluteTime)
  }

  /** Splitting the events of canonical patterns again. */
  lemma {:induction false} SplitAgain(list: seq<HePattern>, n: nat, k: nat)
    requires Canonical(list) && n < |list| && 1 <= k <= |list[n].events|
    ensures SplitsAgain(list, n, k)
    decreases n, k
  {
    assert PatternOk(list[n]);
    if k > 1 {
      SplitAgain(list, n, k - 1);
      SplitsOneMore(list, n, k - 1);
    } else {
      SplitBefore(list, n);
      SplitsFirst(list, n);
    }
  }

  lemma ReadyForNext(front: seq<HePattern>, q: HePattern, start: int)
    requires PatternOk(q)
    requires |q.events| == EVENTS_PER_PATTERN || Pauses(EndAt(q, |q.events| - 1), start)
    ensures var s := Splitting(front, Some(FirstEvents(q, |q.events|)), EndAt(q, |q.events| - 1));
            Finish(s) == front + [q] && OpensPattern(s, start)
  {
    assert FirstEvents(q, |q.events|) == q;
  }

  lemma {:induction false} SplitBefore(list: seq<HePattern>, n: nat)
    requires Canonical(list) && n < |list|
    ensures Before(list, n)
    decreases n, 0
  {
    if n > 0 {
      var q := list[n - 1];
      assert PatternOk(q) && EndsRightly(q, list[n]);
      SplitAgain(list, n - 1, |q.events|);
      AllFlatUpTo(list, n - 1);
      ReadyForNext(list[..n - 1], q, list[n].absoluteTime);
      assert list[..n] == list[..n - 1] + [q];
    }
  }

  lemma CanonicalComesBack(list: seq<HePattern>)
    requires Canonical(list)
    ensures AllTimed(V2ToV1(list)) && V1ToV2(V2ToV1(list)) == list
  {
    if list != [] {
      var n := |list| - 1;
      SplitAgain(list, n, |list[n].events|);
      AllFlatUpTo(list, n);
      assert list[..n + 1] == list;
      assert FirstEvents(list[n], |list[n].events|) == list[n] && list == list[..n] + [list[n]];
    }
  }

  /** Version 2 to version 1 and back gives the same patterns exactly when they are split as the converter
      would split them: 1..16 plain events each, opening at relative time 0, no pause inside, and each
      pattern full or followed by a pause. */
  lemma V2RoundTripIff(list: seq<HePattern>)
    requires AllTimed(V2ToV1(list))
    ensures V1ToV2(V2ToV1(list)) == list <==> Canonical(list)
  {
    SplitCanonical(V2ToV1(list));
    if Canonical(list) {
      CanonicalComesBack(list);
    }
  }

  // ----- pauses -----

  /** The k-th event of the pattern begins no more than 1000 ms after the end of the one ahead of it. */
  predicate CloseAt(p: HePattern, k: nat)
    requires 0 < k < |p.events|
  {
    Timed(p.events[k - 1]) ==> StartAt(p, k) - EndAt(p, k - 1) <= 1000
  }

  ghost predicate TightPattern(p: HePattern) {
    forall k :: 0 < k < |p.events| ==> CloseAt(p, k)
  }

  ghost predicate Tight(list: seq<HePattern>) {
    forall n :: 0 <= n < |list| ==> TightPattern(list[n])
  }

  /** A pause ahead of event j goes unseen: the event before it ends at -1, which stands for no event yet,
      and the pattern it is in has room. */
  ghost predicate HidesPause(es: seq<HeEvent>, j: nat)
    requires AllTimed(es) && 0 < j < |es|
  {
    && EndOf(es[j - 1]) == -1 && es[j].relativeTime - EndOf(es[j - 1]) > 1000
    && var current := Split(es[..j]).current; current.Some? && |current.value.events| < 16
  }

  ghost predicate NoPauseHidden(es: seq<HeEvent>)
    requires AllTimed(es)
  {
    forall j :: 0 < j < |es| ==> !HidesPause(es, j)
  }

  lemma TightSnoc(list: seq<HePattern>, p: HePattern)
    ensures Tight(list + [p]) <==> Tight(list) && TightPattern(p)
  {
    var all := list + [p];
    assert forall n :: 0 <= n < |list| ==> all[n] == list[n];
    if Tight(all) {
      assert TightPattern(all[|list|]);
      forall n | 0 <= n < |list| ensures TightPattern(list[n]) {
        assert TightPattern(all[n]);
      }
    }
  }

  lemma TightPatternSnoc(c: HePattern, e: HeEvent)
    requires c.events != [] && AllTimed(c.events)
    ensures TightPattern(c.(events := c.events + [Placed(e, c.absoluteTime)]))
       <==> TightPattern(c) && e.relativeTime - EndAt(c, |c.events| - 1) <= MAX_PAUSE
  {
    var n := |c.events|;
    var c' := c.(events := c.events + [Placed(e, c.absoluteTime)]);
    forall k | 0 < k < n ensures CloseAt(c', k) <==> CloseAt(c, k) {}
    assert CloseAt(c', n) <==> e.relativeTime - EndAt(c, n - 1) <= MAX_PAUSE;
    assert TightPattern(c') <==> TightPattern(c) && CloseAt(c', n);
  }

  lemma NoPauseHiddenSnoc(es: seq<HeEvent>)
    requires AllTimed(es) && es != []
    ensures NoPauseHidden(es)
       <==> NoPauseHidden(es[..|es| - 1]) && (|es| > 1 ==> !HidesPause(es, |es| - 1))
  {
    var n := |es| - 1;
    forall j | 0 < j < n ensures HidesPause(es[..n], j) <==> HidesPause(es, j) {
      assert es[..n][..j] == es[..j];
    }
  }

  /** One more event leaves the patterns tight exactly when they were and it hides no pause. */
  lemma AddTightIff(s: Splitting, e: HeEvent)
    requires CanonicalSoFar(s) && Timed(e)
    ensures Tight(Finish(AddEvent(s, e)))
       <==> Tight(Finish(s)) && (!OpensPattern(s, e.relativeTime) ==> e.relativeTime - s.lastEventEndTime <= MAX_PAUSE)
  {
    if OpensPattern(s, e.relativeTime) {
      TightSnoc(Finish(s), HePattern(e.relativeTime, [Placed(e, e.relativeTime)]));
    } else {
      var c := s.current.value;
      TightPatternSnoc(c, e);
      TightSnoc(s.list, c);
      TightSnoc(s.list, c.(events := c.events + [Placed(e, c.absoluteTime)]));
    }
  }

  lemma SplitLast(es: seq<HeEvent>)
    requires AllTimed(es) && es != []
    ensures Split(es).current.Some? && Split(es).lastEventEndTime == EndOf(es[|es| - 1])
  {
  }

  lemma TightStepIff(es: seq<HeEvent>)
    requires AllTimed(es) && es != []
    ensures Tight(V1ToV2(es))
       <==> Tight(V1ToV2(es[..|es| - 1])) && (|es| > 1 ==> !HidesPause(es, |es| - 1))
  {
    var n := |es| - 1;
    var s := Split(es[..n]);
    SplitCanonical(es[..n]);
    AddTightIff(s, es[n]);
    if n > 0 {
      SplitLast(es[..n]);
    }
  }

  /** Whatever is converted, each pattern has 1..16 events and opens at relative time 0; and no pattern
      holds a pause of more than 1000 ms exactly when none follows an event that ends at time -1. */
  lemma {:induction false} PatternsAreTightIff(es: seq<HeEvent>)
    requires AllTimed(es)
    ensures Canonical(V1ToV2(es))
    ensures Tight(V1ToV2(es)) <==> NoPauseHidden(es)
  {
    SplitCanonical(es);
    if es != [] {
      PatternsAreTightIff(es[..|es| - 1]);
      TightStepIff(es);
      NoPauseHiddenSnoc(es);
    }
  }

  /** A pause that the converter does not see. */
  lemma PauseCanBeHidden()
    ensures exists es: seq<HeEvent> :: AllTimed(es) && Canonical(V1ToV2(es)) && !Tight(V1ToV2(es))
  {
    var e := HeEvent("transient", -1 - TRANSIENT_DURATION, None, None, HeParameters(100, 50, None));
    var es := [e, e.(relativeTime := 1000)];
    assert es[..1] == [e] && es[..1][..0] == [];
    assert AddEvent(NothingSplit, e).current.Some?;
    assert Split(es[..1]) == AddEvent(NothingSplit, e);
    PatternsAreTightIff(es);
    assert HidesPause(es, 1);
  }

  // ----- from OH -----

  /** Every curve point of a continuous event states its intensity. */
  predicate StatesIntensities(e: OhEvent) {
    e.kind == "continuous" && e.curve.Some? ==>
      forall k :: 0 <= k < |e.curve.value| ==> e.curve.value[k].intensity.Some?
  }

  lemma {:induction false} V2CurveLength(c: seq<OhPoint>)
    ensures |V2Curve(c)| <= |c|
  {
    if c != [] {
      V2CurveLength(c[..|c| - 1]);
    }
  }

  lemma {:induction false} CurvesAgreeIff(c: seq<OhPoint>)
    ensures V1Curve(c) == V2Curve(c) <==> forall k :: 0 <= k < |c| ==> c[k].intensity.Some?
  {
    if c != [] {
      var n := |c| - 1;
      CurvesAgreeIff(c[..n]);
      V2CurveLength(c[..n]);
      assert V1Curve(c) == V1Curve(c[..n]) + [HePoint(c[n].time, Or(c[n].intensity, 0), Or(c[n].frequency, 0))];
      assert forall k :: 0 <= k < n ==> c[..n][k] == c[k];
      if V1Curve(c) == V2Curve(c) {
        assert V1Curve(c)[..n] == V2Curve(c)[..n];
        assert V1Curve(c)[n] == V2Curve(c)[n];
      }
    }
  }

  lemma EventsAgreeIff(e: OhEvent)
    requires HasV1Keys(e)
    ensures ToV1(e) == ToV2(e) <==> StatesIntensities(e)
    ensures IsStripped(ToV1(e)) && IsStripped(ToV2(e))
  {
    if e.kind == "continuous" && e.curve.Some? {
      CurvesAgreeIff(e.curve.value);
    }
  }

  /** Whatever the channels hold, each event of the HE 2 patterns, in absolute time, is an OH event with the
      defaults of HE 2, one for one and in order; each event of HE 1 with those of HE 1. */
  lemma EventsConverted(es: seq<OhEvent>, k: nat)
    requires k < |es|
    ensures AllHaveV1Keys(es) ==> |EachToV1(es)| == |es| && IsV1Of(es[k], EachToV1(es)[k])
    ensures AllHaveV2Keys(es) ==>
              && |V2ToV1(V1ToV2(EachToV2(es)))| == |es|
              && IsV2Of(es[k], V2ToV1(V1ToV2(EachToV2(es)))[k])
  {
    if AllHaveV1Keys(es) {
      ToV1Is(es[k]);
    }
    if AllHaveV2Keys(es) {
      ToV2Is(es[k]);
      V1RoundTrip(EachToV2(es));
    }
  }

  /** The diagram: whenever OH converts to HE 1, it converts to HE 2 as well, and the straight way gives
      what the way through HE 1 gives exactly when every curve point states its intensity (the default
      is 0 on one way and 100 on the other, which also drops a point that states nothing). */
  lemma DiagramCommutesIff(es: seq<OhEvent>)
    requires AllHaveV1Keys(es)
    ensures AllHaveV2Keys(es) && AllTimed(EachToV1(es))
    ensures V1ToV2(EachToV1(es)) == V1ToV2(EachToV2(es))
       <==> forall k :: 0 <= k < |es| ==> StatesIntensities(es[k])
  {
    var a, b := EachToV1(es), EachToV2(es);
    forall k | 0 <= k < |es|
      ensures IsStripped(a[k]) && IsStripped(b[k]) && (a[k] == b[k] <==> StatesIntensities(es[k]))
    {
      EventsAgreeIff(es[k]);
    }
    V1ToV2Injective(a, b);
  }
}
