/** Cutting a package at a time (VibratorServiceClient::SeekTimeOnPackage), on the values the client
    structures hold. */
module Seek {
  import opened Haptics
  import opened MixedWave

  const MIN_VIBRATOR_EVENT_TIME := 100
  const MAX_PATTERN_EVENT_NUM := 1000
  const MAX_PATTERN_NUM := 1000
  const CURVE_POINT_NUM_MIN := 4
  const CURVE_POINT_NUM_MAX := 16
  const EVENT_NUM_MAX := 16

  // ----- one event, in a pattern that starts at t before the seek time s -----

  /** The event has begun before the seek time. */
  predicate Begun(e: Event, t: int, s: int) {
    s > e.time + t
  }

  function TimeLeft(e: Event, t: int, s: int): int {
    e.time + t + e.duration - s
  }

  /** A begun event is worth keeping if it is continuous and lasts long enough. */
  predicate Resumes(e: Event, t: int, s: int) {
    e.tag == Continuous && TimeLeft(e, t, s) >= MIN_VIBRATOR_EVENT_TIME
  }

  function UsablePoints(points: seq<Point>): seq<Point> {
    if CURVE_POINT_NUM_MIN <= |points| <= CURVE_POINT_NUM_MAX then points else []
  }

  /** What remains of the event: itself, shifted; its rest, from time 0 and without its curve; or nothing. */
  function Remains(e: Event, t: int, s: int): seq<Event> {
    if Begun(e, t, s) then
      if Resumes(e, t, s) then [Event(e.tag, 0, TimeLeft(e, t, s), e.intensity, e.frequency, e.index, [])] else []
    else [e.(time := e.time + t - s, points := UsablePoints(e.points))]
  }

  /** The package duration after the event has been dealt with. */
  function DurationAfter(duration: int, e: Event, t: int, s: int): int {
    if Begun(e, t, s) then
      Max(duration - e.duration + if Resumes(e, t, s) then TimeLeft(e, t, s) else 0, 0)
    else duration
  }

  function CutEvents(es: seq<Event>, t: int, s: int): seq<Event> {
    if es == [] then [] else CutEvents(es[..|es| - 1], t, s) + Remains(es[|es| - 1], t, s)
  }

  function DurationOver(duration: int, es: seq<Event>, t: int, s: int): int {
    if es == [] then duration
    else DurationAfter(DurationOver(duration, es[..|es| - 1], t, s), es[|es| - 1], t, s)
  }

  // ----- patterns -----

  predicate Cuttable(es: seq<Event>) {
    0 < |es| <= EVENT_NUM_MAX
  }

  /** A pattern that begins at or after the seek time. */
  function Verbatim(p: Pattern): Pattern {
    p.(events := if |p.events| > MAX_PATTERN_EVENT_NUM then [] else p.events)
  }

  /** What becomes of one pattern: one pattern or none. */
  function CutPattern(p: Pattern, s: int): seq<Pattern> {
    if p.startTime >= s then [Verbatim(p)]
    else if !Cuttable(p.events) then []
    else
      var es := CutEvents(p.events, p.startTime, s);
      if es == [] then [] else [Pattern(s, TotalDuration(es), es)]
  }

  function CutPatterns(ps: seq<Pattern>, s: int): seq<Pattern> {
    if ps == [] then [] else CutPatterns(ps[..|ps| - 1], s) + CutPattern(ps[|ps| - 1], s)
  }

  function DurationOfPattern(duration: int, p: Pattern, s: int): int {
    if p.startTime >= s || !Cuttable(p.events) then duration
    else DurationOver(duration, p.events, p.startTime, s)
  }

  function DurationOfPatterns(duration: int, ps: seq<Pattern>, s: int): int {
    if ps == [] then duration
    else DurationOfPattern(DurationOfPatterns(duration, ps[..|ps| - 1], s), ps[|ps| - 1], s)
  }

  /** ConvertSeekVibratorPackage */
  function Converted(p: Package, s: int): Package {
    if |p.patterns| > MAX_PATTERN_NUM then Package([], p.packageDuration)
    else Package(CutPatterns(p.patterns, s), DurationOfPatterns(p.packageDuration, p.patterns, s))
  }

  /** The duration the way back to client structures gives the last pattern: where its last event
      ends, or what the pattern before it was given if it has no event. */
  function LastEnd(ps: seq<Pattern>): int {
    if ps == [] then 0
    else if ps[|ps| - 1].events != [] then End(ps[|ps| - 1].events[|ps[|ps| - 1].events| - 1])
    else LastEnd(ps[..|ps| - 1])
  }

  function Rebuilt(ps: seq<Pattern>): (r: seq<Pattern>)
    ensures |r| == |ps|
  {
    if ps == [] then [] else Rebuilt(ps[..|ps| - 1]) + [ps[|ps| - 1].(patternDuration := LastEnd(ps))]
  }

  /** ConvertVibratorPackage, from service to client structures */
  function BackToClient(p: Package): Package {
    p.(patterns := Rebuilt(p.patterns))
  }

  function SeekTime(p: Package, s: int): Package {
    BackToClient(Converted(p, s))
  }

  // ----- seeking in two steps -----

  lemma {:induction false} CutEventsJoin(a: seq<Event>, b: seq<Event>, t: int, s: int)
    ensures CutEvents(a + b, t, s) == CutEvents(a, t, s) + CutEvents(b, t, s)
  {
    if b == [] {
      assert a + b == a;
    } else {
      assert (a + b)[..|a + b| - 1] == a + b[..|b| - 1];
      CutEventsJoin(a, b[..|b| - 1], t, s);
    }
  }

  lemma CutOne(e: Event, t: int, s: int)
    ensures CutEvents([e], t, s) == Remains(e, t, s)
  {
    assert [e][..0] == [];
  }

  lemma RemainsCompose(e: Event, t: int, s1: int, s2: int)
    requires s1 < s2
    ensures CutEvents(Remains(e, t, s1), s1, s2) == Remains(e, t, s2)
  {
    var r := Remains(e, t, s1);
    if r != [] {
      CutOne(r[0], s1, s2);
      assert r == [r[0]];
    }
  }

  lemma {:induction false} CutEventsCompose(es: seq<Event>, t: int, s1: int, s2: int)
    requires s1 < s2
    ensures CutEvents(CutEvents(es, t, s1), s1, s2) == CutEvents(es, t, s2)
  {
    if es != [] {
      var n := |es| - 1;
      CutEventsCompose(es[..n], t, s1, s2);
      RemainsCompose(es[n], t, s1, s2);
      CutEventsJoin(CutEvents(es[..n], t, s1), Remains(es[n], t, s1), s1, s2);
    }
  }

  lemma {:induction false} CutEventsShrinks(es: seq<Event>, t: int, s: int)
    ensures |CutEvents(es, t, s)| <= |es|
  {
    if es != [] {
      CutEventsShrinks(es[..|es| - 1], t, s);
    }
  }

  /** The same start and the same events. */
  ghost predicate SamePattern(p: Pattern, q: Pattern) {
    p.startTime == q.startTime && p.events == q.events
  }

  /** The same patterns but for the durations recorded in them. */
  ghost predicate SamePatterns(ps: seq<Pattern>, qs: seq<Pattern>) {
    |ps| == |qs| && forall k :: 0 <= k < |ps| ==> SamePattern(ps[k], qs[k])
  }

  lemma {:induction false} CutPatternsJoin(a: seq<Pattern>, b: seq<Pattern>, s: int)
    ensures CutPatterns(a + b, s) == CutPatterns(a, s) + CutPatterns(b, s)
  {
    if b == [] {
      assert a + b == a;
    } else {
      assert (a + b)[..|a + b| - 1] == a + b[..|b| - 1];
      CutPatternsJoin(a, b[..|b| - 1], s);
    }
  }

  lemma CutOnePattern(p: Pattern, s: int)
    ensures CutPatterns([p], s) == CutPattern(p, s)
  {
    assert [p][..0] == [];
  }

  /** A pattern that begins at or after the first seek time is cut by the second as if alone. */
  lemma CutLaterPattern(p: Pattern, s1: int, s2: int)
    requires s1 <= s2 && s1 <= p.startTime
    ensures SamePatterns(CutPattern(Verbatim(p), s2), CutPattern(p, s2))
  {
  }

  lemma CutEarlierPattern(p: Pattern, s1: int, s2: int)
    requires p.startTime < s1 < s2 && Cuttable(p.events)
    ensures SamePatterns(CutPatterns(CutPattern(p, s1), s2), CutPattern(p, s2))
  {
    var first := CutEvents(p.events, p.startTime, s1);
    CutEventsCompose(p.events, p.startTime, s1, s2);
    CutEventsShrinks(p.events, p.startTime, s1);
    if first == [] {
      assert CutEvents(p.events, p.startTime, s2) == [];
    } else {
      var q := Pattern(s1, TotalDuration(first), first);
      assert CutPattern(p, s1) == [q];
      CutOnePattern(q, s2);
      assert CutPattern(q, s2) == CutPattern(p, s2);
    }
  }

  /** One pattern, cut at s1 and then at s2. */
  lemma CutPatternCompose(p: Pattern, s1: int, s2: int)
    requires s1 <= s2
    ensures SamePatterns(CutPatterns(CutPattern(p, s1), s2), CutPattern(p, s2))
  {
    if p.startTime >= s1 {
      CutOnePattern(Verbatim(p), s2);
      CutLaterPattern(p, s1, s2);
    } else if !Cuttable(p.events) {
    } else if s1 < s2 {
      CutEarlierPattern(p, s1, s2);
    } else if CutPattern(p, s1) != [] {
      var q := CutPattern(p, s1)[0];
      CutEventsShrinks(p.events, p.startTime, s1);
      assert CutPattern(p, s1) == [q];
      CutOnePattern(q, s2);
    }
  }

  lemma {:induction false} CutPatternsCompose(ps: seq<Pattern>, s1: int, s2: int)
    requires s1 <= s2
    ensures SamePatterns(CutPatterns(CutPatterns(ps, s1), s2), CutPatterns(ps, s2))
  {
    if ps != [] {
      var n := |ps| - 1;
      CutPatternsCompose(ps[..n], s1, s2);
      CutPatternCompose(ps[n], s1, s2);
      CutPatternsJoin(CutPatterns(ps[..n], s1), CutPattern(ps[n], s1), s2);
    }
  }

  lemma {:induction false} CutIgnoresDurations(ps: seq<Pattern>, qs: seq<Pattern>, s: int)
    requires SamePatterns(ps, qs)
    ensures SamePatterns(CutPatterns(ps, s), CutPatterns(qs, s))
  {
    if ps != [] {
      CutIgnoresDurations(ps[..|ps| - 1], qs[..|qs| - 1], s);
      assert SamePattern(ps[|ps| - 1], qs[|qs| - 1]);
    }
  }

  lemma {:induction false} RebuiltIgnoresDurations(ps: seq<Pattern>, qs: seq<Pattern>)
    requires SamePatterns(ps, qs)
    ensures Rebuilt(ps) == Rebuilt(qs) && LastEnd(ps) == LastEnd(qs)
  {
    if ps != [] {
      RebuiltIgnoresDurations(ps[..|ps| - 1], qs[..|qs| - 1]);
      assert SamePattern(ps[|ps| - 1], qs[|qs| - 1]);
    }
  }

  lemma {:induction false} RebuiltSame(ps: seq<Pattern>)
    ensures SamePatterns(Rebuilt(ps), ps)
  {
    if ps != [] {
      RebuiltSame(ps[..|ps| - 1]);
    }
  }

  lemma SameTrans(a: seq<Pattern>, b: seq<Pattern>, c: seq<Pattern>)
    requires SamePatterns(a, b) && SamePatterns(b, c)
    ensures SamePatterns(a, c)
  {
    forall k | 0 <= k < |a| ensures SamePattern(a[k], c[k]) {
      assert SamePattern(a[k], b[k]) && SamePattern(b[k], c[k]);
    }
  }

  lemma {:induction false} CutPatternsShrinks(ps: seq<Pattern>, s: int)
    ensures |CutPatterns(ps, s)| <= |ps|
  {
    if ps != [] {
      CutPatternsShrinks(ps[..|ps| - 1], s);
    }
  }

  /** For every package, well-formed or not: the patterns of two seeks are the patterns of the later one. */
  lemma SeekPatternsCompose(p: Package, s1: int, s2: int)
    requires s1 <= s2
    ensures SeekTime(SeekTime(p, s1), s2).patterns == SeekTime(p, s2).patterns
  {
    if |p.patterns| <= MAX_PATTERN_NUM {
      var first := CutPatterns(p.patterns, s1);
      CutPatternsShrinks(p.patterns, s1);
      RebuiltSame(first);
      CutIgnoresDurations(Rebuilt(first), first, s2);
      CutPatternsCompose(p.patterns, s1, s2);
      SameTrans(CutPatterns(Rebuilt(first), s2), CutPatterns(first, s2), CutPatterns(p.patterns, s2));
      RebuiltIgnoresDurations(CutPatterns(Rebuilt(first), s2), CutPatterns(p.patterns, s2));
    }
  }

  // ----- the package duration -----

  ghost predicate NonNegative(es: seq<Event>) {
    forall k :: 0 <= k < |es| ==> es[k].duration >= 0
  }

  ghost predicate NonNegativeDurations(ps: seq<Pattern>) {
    forall k :: 0 <= k < |ps| ==> NonNegative(ps[k].events)
  }

  /** Time taken away from the events of a pattern. */
  function Removed(p: Pattern, s: int): int {
    if p.startTime >= s || !Cuttable(p.events) then 0
    else TotalDuration(p.events) - TotalDuration(CutEvents(p.events, p.startTime, s))
  }

  function RemovedFrom(ps: seq<Pattern>, s: int): int {
    if ps == [] then 0 else RemovedFrom(ps[..|ps| - 1], s) + Removed(ps[|ps| - 1], s)
  }

  lemma TotalOfRemains(e: Event, t: int, s: int)
    ensures TotalDuration(Remains(e, t, s))
         == if Begun(e, t, s) then if Resumes(e, t, s) then TimeLeft(e, t, s) else 0 else e.duration
  {
    var r := Remains(e, t, s);
    if r != [] {
      assert r[..0] == [];
    }
  }

  /** The time taken away from an event, if it has begun. */
  function TakenAwayOf(e: Event, t: int, s: int): seq<int> {
    if Begun(e, t, s) then [e.duration - if Resumes(e, t, s) then TimeLeft(e, t, s) else 0] else []
  }

  /** The time taken away from each begun event of a pattern, in order. */
  function TakenAway(es: seq<Event>, t: int, s: int): seq<int> {
    if es == [] then [] else TakenAway(es[..|es| - 1], t, s) + TakenAwayOf(es[|es| - 1], t, s)
  }

  function TakenAwayFrom(ps: seq<Pattern>, s: int): seq<int> {
    if ps == [] then []
    else
      var p := ps[|ps| - 1];
      TakenAwayFrom(ps[..|ps| - 1], s)
      + if p.startTime >= s || !Cuttable(p.events) then [] else TakenAway(p.events, p.startTime, s)
  }

  /** What is left of a duration after taking amounts away one by one, never going below 0. */
  function Clamped(duration: int, amounts: seq<int>): int {
    if amounts == [] then duration
    else Max(Clamped(duration, amounts[..|amounts| - 1]) - amounts[|amounts| - 1], 0)
  }

  /** How far, at worst, what has been taken away is ahead of the duration. */
  function Overdrawn(duration: int, amounts: seq<int>): int {
    if amounts == [] then 0 else Max(Overdrawn(duration, amounts[..|amounts| - 1]), Sum(amounts) - duration)
  }

  /** What the clamp adds is the overdraft. */
  lemma {:induction false} ClampedIs(duration: int, amounts: seq<int>)
    ensures Clamped(duration, amounts) == duration - Sum(amounts) + Overdrawn(duration, amounts)
    ensures Overdrawn(duration, amounts) >= 0
  {
    if amounts != [] {
      ClampedIs(duration, amounts[..|amounts| - 1]);
    }
  }

  lemma {:induction false} ClampedJoin(duration: int, a: seq<int>, b: seq<int>)
    ensures Clamped(duration, a + b) == Clamped(Clamped(duration, a), b)
  {
    if b == [] {
      assert a + b == a;
    } else {
      assert (a + b)[..|a + b| - 1] == a + b[..|b| - 1];
      ClampedJoin(duration, a, b[..|b| - 1]);
    }
  }

  ghost predicate NoneNegative(amounts: seq<int>) {
    forall k :: 0 <= k < |amounts| ==> amounts[k] >= 0
  }

  lemma {:induction false} OverdrawnIs(duration: int, amounts: seq<int>)
    requires duration >= 0 && NoneNegative(amounts)
    ensures Sum(amounts) >= 0 && Overdrawn(duration, amounts) == Max(Sum(amounts) - duration, 0)
  {
    if amounts != [] {
      OverdrawnIs(duration, amounts[..|amounts| - 1]);
    }
  }

  lemma DurationAfterIs(duration: int, e: Event, t: int, s: int)
    ensures DurationAfter(duration, e, t, s) == Clamped(duration, TakenAwayOf(e, t, s))
    ensures Sum(TakenAwayOf(e, t, s)) == e.duration - TotalDuration(Remains(e, t, s))
  {
    TotalOfRemains(e, t, s);
    if Begun(e, t, s) {
      assert TakenAwayOf(e, t, s)[..0] == [];
    }
  }

  lemma {:induction false} DurationOverIs(duration: int, es: seq<Event>, t: int, s: int)
    ensures DurationOver(duration, es, t, s) == Clamped(duration, TakenAway(es, t, s))
    ensures Sum(TakenAway(es, t, s)) == TotalDuration(es) - TotalDuration(CutEvents(es, t, s))
  {
    if es != [] {
      var n := |es| - 1;
      DurationOverIs(duration, es[..n], t, s);
      DurationAfterIs(Clamped(duration, TakenAway(es[..n], t, s)), es[n], t, s);
      ClampedJoin(duration, TakenAway(es[..n], t, s), TakenAwayOf(es[n], t, s));
      SumSplit(TakenAway(es[..n], t, s), TakenAwayOf(es[n], t, s));
      TotalJoin(CutEvents(es[..n], t, s), Remains(es[n], t, s));
    }
  }

  /** The running package duration, and all that is taken away from it. */
  lemma {:induction false} DurationOfPatternsIs(duration: int, ps: seq<Pattern>, s: int)
    ensures DurationOfPatterns(duration, ps, s) == Clamped(duration, TakenAwayFrom(ps, s))
    ensures Sum(TakenAwayFrom(ps, s)) == RemovedFrom(ps, s)
  {
    if ps != [] {
      var n := |ps| - 1;
      var p, front := ps[n], TakenAwayFrom(ps[..n], s);
      DurationOfPatternsIs(duration, ps[..n], s);
      if p.startTime >= s || !Cuttable(p.events) {
        assert TakenAwayFrom(ps, s) == front;
      } else {
        DurationOverIs(Clamped(duration, front), p.events, p.startTime, s);
        ClampedJoin(duration, front, TakenAway(p.events, p.startTime, s));
        SumSplit(front, TakenAway(p.events, p.startTime, s));
      }
    }
  }

  lemma {:induction false} TakenNonNegative(es: seq<Event>, t: int, s: int)
    requires NonNegative(es)
    ensures NoneNegative(TakenAway(es, t, s))
  {
    if es != [] {
      TakenNonNegative(es[..|es| - 1], t, s);
    }
  }

  lemma {:induction false} TakenFromNonNegative(ps: seq<Pattern>, s: int)
    requires NonNegativeDurations(ps)
    ensures NoneNegative(TakenAwayFrom(ps, s))
  {
    if ps != [] {
      TakenFromNonNegative(ps[..|ps| - 1], s);
      TakenNonNegative(ps[|ps| - 1].events, ps[|ps| - 1].startTime, s);
    }
  }

  lemma {:induction false} RemovedJoin(a: seq<Pattern>, b: seq<Pattern>, s: int)
    ensures RemovedFrom(a + b, s) == RemovedFrom(a, s) + RemovedFrom(b, s)
  {
    if b == [] {
      assert a + b == a;
    } else {
      assert (a + b)[..|a + b| - 1] == a + b[..|b| - 1];
      RemovedJoin(a, b[..|b| - 1], s);
    }
  }

  lemma RemovedCompose(p: Pattern, s1: int, s2: int)
    requires s1 <= s2
    ensures Removed(p, s1) + RemovedFrom(CutPattern(p, s1), s2) == Removed(p, s2)
  {
    var c := CutPattern(p, s1);
    if c != [] {
      assert c == [c[0]] && [c[0]][..0] == [];
      assert RemovedFrom(c, s2) == Removed(c[0], s2);
    }
    if p.startTime < s1 && Cuttable(p.events) {
      CutEventsShrinks(p.events, p.startTime, s1);
      if s1 < s2 {
        CutEventsCompose(p.events, p.startTime, s1, s2);
      }
    }
  }

  lemma {:induction false} RemovedFromCompose(ps: seq<Pattern>, s1: int, s2: int)
    requires s1 <= s2
    ensures RemovedFrom(ps, s1) + RemovedFrom(CutPatterns(ps, s1), s2) == RemovedFrom(ps, s2)
  {
    if ps != [] {
      var n := |ps| - 1;
      RemovedFromCompose(ps[..n], s1, s2);
      RemovedCompose(ps[n], s1, s2);
      RemovedJoin(CutPatterns(ps[..n], s1), CutPattern(ps[n], s1), s2);
    }
  }

  lemma {:induction false} RemovedIgnoresDurations(ps: seq<Pattern>, qs: seq<Pattern>, s: int)
    requires SamePatterns(ps, qs)
    ensures RemovedFrom(ps, s) == RemovedFrom(qs, s)
  {
    if ps != [] {
      RemovedIgnoresDurations(ps[..|ps| - 1], qs[..|qs| - 1], s);
      assert SamePattern(ps[|ps| - 1], qs[|qs| - 1]);
    }
  }

  lemma {:induction false} CutEventsNonNegative(es: seq<Event>, t: int, s: int)
    requires NonNegative(es)
    ensures NonNegative(CutEvents(es, t, s))
  {
    if es != [] {
      CutEventsNonNegative(es[..|es| - 1], t, s);
    }
  }

  lemma {:induction false} CutPatternsNonNegative(ps: seq<Pattern>, s: int)
    requires NonNegativeDurations(ps)
    ensures NonNegativeDurations(CutPatterns(ps, s))
  {
    if ps != [] {
      var p := ps[|ps| - 1];
      assert NonNegative(p.events);
      CutPatternsNonNegative(ps[..|ps| - 1], s);
      CutEventsNonNegative(p.events, p.startTime, s);
    }
  }

  lemma RemovedAfterRebuilding(ps: seq<Pattern>, s1: int, s2: int)
    requires s1 <= s2
    ensures RemovedFrom(ps, s1) + RemovedFrom(Rebuilt(CutPatterns(ps, s1)), s2) == RemovedFrom(ps, s2)
  {
    RebuiltSame(CutPatterns(ps, s1));
    RemovedIgnoresDurations(Rebuilt(CutPatterns(ps, s1)), CutPatterns(ps, s1), s2);
    RemovedFromCompose(ps, s1, s2);
  }

  /** What the clamp at 0 adds to the package duration. */
  function OverdrawnBy(p: Package, s: int): int {
    if |p.patterns| > MAX_PATTERN_NUM then 0 else Overdrawn(p.packageDuration, TakenAwayFrom(p.patterns, s))
  }

  lemma OverdrawnByIs(p: Package, s: int)
    requires |p.patterns| <= MAX_PATTERN_NUM
    ensures SeekTime(p, s).packageDuration == p.packageDuration - RemovedFrom(p.patterns, s) + OverdrawnBy(p, s)
  {
    DurationOfPatternsIs(p.packageDuration, p.patterns, s);
    ClampedIs(p.packageDuration, TakenAwayFrom(p.patterns, s));
  }

  /** For every package: seeking to s1 and then to s2 is seeking to s2 exactly when the clamp adds as much
      in the two seeks together as it does in the later one alone. */
  lemma SeekComposesIff(p: Package, s1: int, s2: int)
    requires s1 <= s2
    ensures SeekTime(SeekTime(p, s1), s2) == SeekTime(p, s2)
       <==> OverdrawnBy(p, s1) + OverdrawnBy(SeekTime(p, s1), s2) == OverdrawnBy(p, s2)
  {
    SeekPatternsCompose(p, s1, s2);
    if |p.patterns| <= MAX_PATTERN_NUM {
      CutPatternsShrinks(p.patterns, s1);
      RemovedAfterRebuilding(p.patterns, s1, s2);
      OverdrawnByIs(p, s1);
      OverdrawnByIs(p, s2);
      OverdrawnByIs(SeekTime(p, s1), s2);
    }
  }

  /** Taking amounts away in two goes overdraws as much as taking as much away in one. */
  lemma OverdrawnAddsUp(duration: int, first: seq<int>, second: seq<int>, all: seq<int>)
    requires duration >= 0 && NoneNegative(first) && NoneNegative(second) && NoneNegative(all)
    requires Sum(first) + Sum(second) == Sum(all)
    ensures Overdrawn(duration, first) + Overdrawn(Clamped(duration, first), second) == Overdrawn(duration, all)
  {
    ClampedIs(duration, first);
    OverdrawnIs(duration, first);
    OverdrawnIs(Clamped(duration, first), second);
    OverdrawnIs(duration, all);
  }

  lemma TakenAgain(ps: seq<Pattern>, s1: int, s2: int)
    requires s1 <= s2 && NonNegativeDurations(ps)
    ensures var again := Rebuilt(CutPatterns(ps, s1));
            && NoneNegative(TakenAwayFrom(ps, s1)) && NoneNegative(TakenAwayFrom(again, s2)) && NoneNegative(TakenAwayFrom(ps, s2))
            && Sum(TakenAwayFrom(ps, s1)) + Sum(TakenAwayFrom(again, s2)) == Sum(TakenAwayFrom(ps, s2))
  {
    var again := Rebuilt(CutPatterns(ps, s1));
    CutPatternsNonNegative(ps, s1);
    RebuiltNonNegative(CutPatterns(ps, s1));
    TakenFromNonNegative(ps, s1);
    TakenFromNonNegative(again, s2);
    TakenFromNonNegative(ps, s2);
    RemovedAfterRebuilding(ps, s1, s2);
    DurationOfPatternsIs(0, ps, s1);
    DurationOfPatternsIs(0, again, s2);
    DurationOfPatternsIs(0, ps, s2);
  }

  /** Seeking to s1 and then to s2 is seeking to s2: the whole package, its duration included, for any
      package in which no duration is negative. */
  lemma SeekComposes(p: Package, s1: int, s2: int)
    requires s1 <= s2 && p.packageDuration >= 0 && NonNegativeDurations(p.patterns)
    ensures SeekTime(SeekTime(p, s1), s2) == SeekTime(p, s2)
  {
    SeekComposesIff(p, s1, s2);
    if |p.patterns| <= MAX_PATTERN_NUM {
      var once := SeekTime(p, s1);
      CutPatternsShrinks(p.patterns, s1);
      TakenAgain(p.patterns, s1, s2);
      DurationOfPatternsIs(p.packageDuration, p.patterns, s1);
      OverdrawnAddsUp(p.packageDuration, TakenAwayFrom(p.patterns, s1), TakenAwayFrom(once.patterns, s2),
                      TakenAwayFrom(p.patterns, s2));
    }
  }

  lemma RebuiltNonNegative(ps: seq<Pattern>)
    requires NonNegativeDurations(ps)
    ensures NonNegativeDurations(Rebuilt(ps))
  {
    RebuiltSame(ps);
    forall k | 0 <= k < |ps| ensures NonNegative(Rebuilt(ps)[k].events) {
      assert SamePattern(Rebuilt(ps)[k], ps[k]) && NonNegative(ps[k].events);
    }
  }

  /** With negative durations the order of the cuts shows in the package duration. */
  lemma NegativeDurationsDoNotCompose()
    ensures exists p, s1, s2 :: s1 <= s2 && SeekTime(SeekTime(p, s1), s2) != SeekTime(p, s2)
  {
    var a, b := Event(Transient, 5, -5, 0, 0, 0, []), Event(Transient, 0, 10, 0, 0, 0, []);
    var a' := a.(time := 4);
    var p := Package([Pattern(0, 0, [a, b])], 0);
    TwoEvents(a, b, 0, 0, 1);
    TwoEvents(a, b, 0, 0, 6);
    OneEvent(a', 0, 1, 6);
    OnePattern(p, 1);
    OnePattern(p, 6);
    var q := SeekTime(p, 1);
    assert q.patterns[0].events == [a'];
    OnePattern(q, 6);
    assert SeekTime(q, 6).packageDuration == 5 && SeekTime(p, 6).packageDuration == 0;
  }

  lemma OneEvent(a: Event, duration: int, t: int, s: int)
    ensures CutEvents([a], t, s) == Remains(a, t, s)
    ensures DurationOver(duration, [a], t, s) == DurationAfter(duration, a, t, s)
  {
    assert [a][..0] == [];
  }

  lemma TwoEvents(a: Event, b: Event, duration: int, t: int, s: int)
    ensures CutEvents([a, b], t, s) == Remains(a, t, s) + Remains(b, t, s)
    ensures DurationOver(duration, [a, b], t, s) == DurationAfter(DurationAfter(duration, a, t, s), b, t, s)
  {
    OneEvent(a, duration, t, s);
    assert [a, b][..1] == [a];
  }

  lemma OnePattern(p: Package, s: int)
    requires |p.patterns| == 1
    ensures SamePatterns(SeekTime(p, s).patterns, CutPattern(p.patterns[0], s))
    ensures SeekTime(p, s).packageDuration == DurationOfPattern(p.packageDuration, p.patterns[0], s)
  {
    assert p.patterns == [p.patterns[0]] && [p.patterns[0]][..0] == [];
    CutOnePattern(p.patterns[0], s);
    RebuiltSame(CutPattern(p.patterns[0], s));
    assert DurationOfPatterns(p.packageDuration, [], s) == p.packageDuration;
    assert DurationOfPatterns(p.packageDuration, p.patterns, s)
        == DurationOfPattern(DurationOfPatterns(p.packageDuration, p.patterns[..0], s), p.patterns[0], s);
  }

  // ----- what seeking conserves -----

  /** 1..16 events in every pattern, durations that are non-negative and add up. */
  ghost predicate WellFormed(p: Package) {
    && |p.patterns| <= MAX_PATTERN_NUM
    && (forall k :: 0 <= k < |p.patterns| ==> Cuttable(p.patterns[k].events))
    && NonNegativeDurations(p.patterns)
    && p.packageDuration == PackageTotal(p.patterns)
  }

  function PackageTotal(ps: seq<Pattern>): int {
    if ps == [] then 0 else PackageTotal(ps[..|ps| - 1]) + TotalDuration(ps[|ps| - 1].events)
  }

  lemma {:induction false} PackageTotalJoin(a: seq<Pattern>, b: seq<Pattern>)
    ensures PackageTotal(a + b) == PackageTotal(a) + PackageTotal(b)
  {
    if b == [] {
      assert a + b == a;
    } else {
      assert (a + b)[..|a + b| - 1] == a + b[..|b| - 1];
      PackageTotalJoin(a, b[..|b| - 1]);
    }
  }

  lemma {:induction false} TotalNonNegative(es: seq<Event>)
    requires NonNegative(es)
    ensures TotalDuration(es) >= 0
  {
    if es != [] {
      TotalNonNegative(es[..|es| - 1]);
    }
  }

  lemma TotalOfCutPattern(p: Pattern, s: int)
    requires Cuttable(p.events)
    ensures PackageTotal(CutPattern(p, s)) == TotalDuration(p.events) - Removed(p, s)
  {
    var c := CutPattern(p, s);
    if c != [] {
      assert c == [c[0]] && [c[0]][..0] == [];
      assert PackageTotal(c) == TotalDuration(c[0].events);
    }
  }

  lemma TotalOfCutSnoc(ps: seq<Pattern>, s: int)
    requires ps != []
    ensures PackageTotal(CutPatterns(ps, s))
         == PackageTotal(CutPatterns(ps[..|ps| - 1], s)) + PackageTotal(CutPattern(ps[|ps| - 1], s))
  {
    PackageTotalJoin(CutPatterns(ps[..|ps| - 1], s), CutPattern(ps[|ps| - 1], s));
  }

  lemma {:induction false} TotalOfCut(ps: seq<Pattern>, s: int)
    requires forall k :: 0 <= k < |ps| ==> Cuttable(ps[k].events)
    ensures PackageTotal(CutPatterns(ps, s)) == PackageTotal(ps) - RemovedFrom(ps, s)
  {
    if ps != [] {
      var n := |ps| - 1;
      TotalOfCut(ps[..n], s);
      TotalOfCutPattern(ps[n], s);
      TotalOfCutSnoc(ps, s);
    }
  }

  lemma {:induction false} PackageTotalNonNegative(ps: seq<Pattern>)
    requires NonNegativeDurations(ps)
    ensures PackageTotal(ps) >= 0
  {
    if ps != [] {
      PackageTotalNonNegative(ps[..|ps| - 1]);
      TotalNonNegative(ps[|ps| - 1].events);
    }
  }

  lemma {:induction false} PackageTotalIgnoresDurations(ps: seq<Pattern>, qs: seq<Pattern>)
    requires SamePatterns(ps, qs)
    ensures PackageTotal(ps) == PackageTotal(qs)
  {
    if ps != [] {
      PackageTotalIgnoresDurations(ps[..|ps| - 1], qs[..|qs| - 1]);
      assert SamePattern(ps[|ps| - 1], qs[|qs| - 1]);
    }
  }

  /** Where no duration is negative, the package duration goes down by what is taken away, to 0 at most. */
  lemma DurationLeft(duration: int, ps: seq<Pattern>, s: int)
    requires duration >= 0 && NonNegativeDurations(ps)
    ensures DurationOfPatterns(duration, ps, s) == Max(duration - RemovedFrom(ps, s), 0)
  {
    DurationOfPatternsIs(duration, ps, s);
    TakenFromNonNegative(ps, s);
    ClampedIs(duration, TakenAwayFrom(ps, s));
    OverdrawnIs(duration, TakenAwayFrom(ps, s));
  }

  lemma CutTotalNonNegative(ps: seq<Pattern>, s: int)
    requires NonNegativeDurations(ps)
    ensures PackageTotal(CutPatterns(ps, s)) >= 0
  {
    CutPatternsNonNegative(ps, s);
    PackageTotalNonNegative(CutPatterns(ps, s));
  }

  lemma CutConservesDuration(ps: seq<Pattern>, s: int)
    requires (forall k :: 0 <= k < |ps| ==> Cuttable(ps[k].events)) && NonNegativeDurations(ps)
    ensures DurationOfPatterns(PackageTotal(ps), ps, s) == PackageTotal(CutPatterns(ps, s))
  {
    TotalOfCut(ps, s);
    CutTotalNonNegative(ps, s);
    PackageTotalNonNegative(ps);
    DurationLeft(PackageTotal(ps), ps, s);
  }

  /** The package duration of the result is again the sum of its event durations: the clamp at 0 never
      matters. */
  lemma SeekConservesDuration(p: Package, s: int)
    requires WellFormed(p)
    ensures SeekTime(p, s).packageDuration == PackageTotal(SeekTime(p, s).patterns)
  {
    CutConservesDuration(p.patterns, s);
    RebuiltSame(CutPatterns(p.patterns, s));
    PackageTotalIgnoresDurations(Rebuilt(CutPatterns(p.patterns, s)), CutPatterns(p.patterns, s));
  }

  /** An event is dropped exactly when it began before the seek, in a pattern that began before the
      seek, and is not continuous or has under 100 ms left. */
  predicate Dropped(e: Event, t: int, s: int) {
    t < s && t + e.time < s && (e.tag != Continuous || t + e.time + e.duration - s < MIN_VIBRATOR_EVENT_TIME)
  }

  /** The absolute ends of the events of a pattern that are not dropped. */
  function SurvivingEnds(es: seq<Event>, t: int, s: int): seq<int> {
    if es == [] then []
    else SurvivingEnds(es[..|es| - 1], t, s)
         + if Dropped(es[|es| - 1], t, s) then [] else [t + End(es[|es| - 1])]
  }

  function AllSurvivingEnds(ps: seq<Pattern>, s: int): seq<int> {
    if ps == [] then []
    else AllSurvivingEnds(ps[..|ps| - 1], s) + SurvivingEnds(ps[|ps| - 1].events, ps[|ps| - 1].startTime, s)
  }

  /** The absolute ends of all events. */
  function Ends(es: seq<Event>, t: int): (r: seq<int>)
    ensures |r| == |es|
  {
    seq(|es|, k requires 0 <= k < |es| => t + End(es[k]))
  }

  function AllEnds(ps: seq<Pattern>): seq<int> {
    if ps == [] then [] else AllEnds(ps[..|ps| - 1]) + Ends(ps[|ps| - 1].events, ps[|ps| - 1].startTime)
  }

  lemma EndsJoin(a: seq<Event>, b: seq<Event>, t: int)
    ensures Ends(a + b, t) == Ends(a, t) + Ends(b, t)
  {
  }

  lemma {:induction false} CutKeepsEnds(es: seq<Event>, t: int, s: int)
    requires t < s
    ensures Ends(CutEvents(es, t, s), s) == SurvivingEnds(es, t, s)
  {
    if es != [] {
      var n := |es| - 1;
      CutKeepsEnds(es[..n], t, s);
      EndsJoin(CutEvents(es[..n], t, s), Remains(es[n], t, s), s);
    }
  }

  lemma {:induction false} NothingDropped(es: seq<Event>, t: int, s: int)
    requires t >= s
    ensures SurvivingEnds(es, t, s) == Ends(es, t)
  {
    if es != [] {
      var n := |es| - 1;
      NothingDropped(es[..n], t, s);
      EndsJoin(es[..n], [es[n]], t);
      assert es == es[..n] + [es[n]];
    }
  }

  lemma Reassociated<T>(a: seq<T>, b: seq<T>, c: seq<T>)
    ensures a + b + c == a + (b + c)
  {
  }

  lemma AllEndsSnoc(ps: seq<Pattern>, p: Pattern)
    ensures AllEnds(ps + [p]) == AllEnds(ps) + Ends(p.events, p.startTime)
  {
    assert (ps + [p])[..|ps|] == ps;
  }

  lemma {:induction false} AllEndsJoin(a: seq<Pattern>, b: seq<Pattern>)
    ensures AllEnds(a + b) == AllEnds(a) + AllEnds(b)
  {
    if b == [] {
      assert a + b == a;
    } else {
      var front, last := b[..|b| - 1], b[|b| - 1];
      AllEndsJoin(a, front);
      AllEndsSnoc(a + front, last);
      assert a + b == a + front + [last];
      Reassociated(AllEnds(a), AllEnds(front), Ends(last.events, last.startTime));
    }
  }

  lemma CutPatternKeepsEnds(p: Pattern, s: int)
    requires Cuttable(p.events)
    ensures AllEnds(CutPattern(p, s)) == SurvivingEnds(p.events, p.startTime, s)
  {
    var c := CutPattern(p, s);
    if c != [] {
      assert c == [c[0]] && [c[0]][..0] == [];
      assert AllEnds(c) == Ends(c[0].events, c[0].startTime);
    }
    if p.startTime < s {
      CutKeepsEnds(p.events, p.startTime, s);
    } else {
      NothingDropped(p.events, p.startTime, s);
    }
  }

  lemma {:induction false} CutPatternsKeepEnds(ps: seq<Pattern>, s: int)
    requires forall k :: 0 <= k < |ps| ==> Cuttable(ps[k].events)
    ensures AllEnds(CutPatterns(ps, s)) == AllSurvivingEnds(ps, s)
  {
    if ps != [] {
      var n := |ps| - 1;
      CutPatternsKeepEnds(ps[..n], s);
      CutPatternKeepsEnds(ps[n], s);
      AllEndsJoin(CutPatterns(ps[..n], s), CutPattern(ps[n], s));
    }
  }

  lemma {:induction false} AllEndsIgnoresDurations(ps: seq<Pattern>, qs: seq<Pattern>)
    requires SamePatterns(ps, qs)
    ensures AllEnds(ps) == AllEnds(qs)
  {
    if ps != [] {
      AllEndsIgnoresDurations(ps[..|ps| - 1], qs[..|qs| - 1]);
      assert SamePattern(ps[|ps| - 1], qs[|qs| - 1]);
    }
  }

  /** Exactly the events that are not dropped remain, in order, each ending when it did. */
  lemma SeekConservesEnds(p: Package, s: int)
    requires WellFormed(p)
    ensures AllEnds(SeekTime(p, s).patterns) == AllSurvivingEnds(p.patterns, s)
  {
    var cut := CutPatterns(p.patterns, s);
    CutPatternsKeepEnds(p.patterns, s);
    RebuiltSame(cut);
    AllEndsIgnoresDurations(Rebuilt(cut), cut);
  }
}
