/** The words a package occupies in a parcel, and reading them back (vibrator_infos.cpp). */
module ParcelCodec {
  import opened Wrappers
  import opened Haptics

  const MAX_PATTERN_NUM := 1000
  const MAX_EVENT_SIZE := 16
  const MAX_POINT_SIZE := 16

  // ----- writing -----

  function TagCode(t: Tag): int {
    match t
    case UnknownTag => -1
    case Continuous => 0
    case Transient => 1
  }

  function EncodePoint(p: Point): seq<int> {
    [p.time, p.intensity, p.frequency]
  }

  function EncodePoints(ps: seq<Point>): seq<int> {
    if ps == [] then [] else EncodePoint(ps[0]) + EncodePoints(ps[1..])
  }

  function EncodeEvent(e: Event): seq<int> {
    [TagCode(e.tag), e.time, e.duration, e.intensity, e.frequency, e.index, |e.points|] + EncodePoints(e.points)
  }

  function EncodeEvents(es: seq<Event>): seq<int> {
    if es == [] then [] else EncodeEvent(es[0]) + EncodeEvents(es[1..])
  }

  function EncodePattern(p: Pattern): seq<int> {
    [p.startTime, p.patternDuration, |p.events|] + EncodeEvents(p.events)
  }

  function EncodePatterns(ps: seq<Pattern>): seq<int> {
    if ps == [] then [] else EncodePattern(ps[0]) + EncodePatterns(ps[1..])
  }

  function EncodePackage(p: Package): seq<int> {
    [p.packageDuration, |p.patterns|] + EncodePatterns(p.patterns)
  }

  /** The k-th of some points is three words, its time first. */
  lemma {:induction false} PointsLayout(ps: seq<Point>, k: nat)
    requires k < |ps|
    ensures |EncodePoints(ps)| == 3 * |ps|
    ensures EncodePoints(ps)[3 * k] == ps[k].time && EncodePoints(ps)[3 * k + 1] == ps[k].intensity
    ensures EncodePoints(ps)[3 * k + 2] == ps[k].frequency
  {
    if k > 0 {
      PointsLayout(ps[1..], k - 1);
      assert EncodePoints(ps)[3..] == EncodePoints(ps[1..]);
    } else if |ps| > 1 {
      PointsLayout(ps[1..], 0);
    }
  }

  /** An event is seven words and its points: tag, 0 for continuous and 1 for transient, time, duration,
      intensity, frequency, index and the number of points. */
  lemma EventLayout(e: Event, k: nat)
    ensures var s := EncodeEvent(e);
            && |s| == 7 + 3 * |e.points|
            && s[0] == (if e.tag == Continuous then 0 else if e.tag == Transient then 1 else -1)
            && s[1] == e.time && s[2] == e.duration && s[3] == e.intensity && s[4] == e.frequency
            && s[5] == e.index && s[6] == |e.points|
            && (k < |e.points| ==>
                  && s[7 + 3 * k] == e.points[k].time && s[7 + 3 * k + 1] == e.points[k].intensity
                  && s[7 + 3 * k + 2] == e.points[k].frequency)
  {
    var s := EncodeEvent(e);
    assert s[7..] == EncodePoints(e.points);
    if k < |e.points| {
      PointsLayout(e.points, k);
    } else if e.points != [] {
      PointsLayout(e.points, 0);
    }
  }

  lemma {:induction false} EventsLayout(es: seq<Event>, k: nat)
    requires k < |es|
    ensures EncodeEvents(es) == EncodeEvents(es[..k]) + EncodeEvent(es[k]) + EncodeEvents(es[k + 1..])
  {
    if k > 0 {
      EventsLayout(es[1..], k - 1);
      assert es[1..][..k - 1] == es[..k][1..] && es[1..][k..] == es[k + 1..];
      Assoc(EncodeEvent(es[0]), EncodeEvents(es[1..k]) + EncodeEvent(es[k]), EncodeEvents(es[k + 1..]));
      Assoc(EncodeEvent(es[0]), EncodeEvents(es[1..k]), EncodeEvent(es[k]));
      assert es[..k][1..] == es[1..k];
    } else {
      assert EncodeEvents(es[..0]) + EncodeEvent(es[0]) == EncodeEvent(es[0]);
    }
  }

  /** A pattern is three words, start time, duration and the number of events, and its events in order. */
  lemma PatternLayout(p: Pattern, k: nat)
    ensures var s := EncodePattern(p);
            && |s| >= 3 && s[0] == p.startTime && s[1] == p.patternDuration && s[2] == |p.events|
            && (k < |p.events| ==>
                  s[3..] == EncodeEvents(p.events[..k]) + EncodeEvent(p.events[k]) + EncodeEvents(p.events[k + 1..]))
  {
    assert EncodePattern(p)[3..] == EncodeEvents(p.events);
    if k < |p.events| {
      EventsLayout(p.events, k);
    }
  }

  lemma {:induction false} PatternsLayout(ps: seq<Pattern>, k: nat)
    requires k < |ps|
    ensures EncodePatterns(ps) == EncodePatterns(ps[..k]) + EncodePattern(ps[k]) + EncodePatterns(ps[k + 1..])
  {
    if k > 0 {
      PatternsLayout(ps[1..], k - 1);
      assert ps[1..][..k - 1] == ps[..k][1..] && ps[1..][k..] == ps[k + 1..];
      Assoc(EncodePattern(ps[0]), EncodePatterns(ps[1..k]) + EncodePattern(ps[k]), EncodePatterns(ps[k + 1..]));
      Assoc(EncodePattern(ps[0]), EncodePatterns(ps[1..k]), EncodePattern(ps[k]));
      assert ps[..k][1..] == ps[1..k];
    } else {
      assert EncodePatterns(ps[..0]) + EncodePattern(ps[0]) == EncodePattern(ps[0]);
    }
  }

  /** A package is two words, its duration and the number of patterns, and its patterns in order. */
  lemma PackageLayout(p: Package, k: nat)
    ensures var s := EncodePackage(p);
            && |s| >= 2 && s[0] == p.packageDuration && s[1] == |p.patterns|
            && (k < |p.patterns| ==>
                  s[2..] == EncodePatterns(p.patterns[..k]) + EncodePattern(p.patterns[k])
                            + EncodePatterns(p.patterns[k + 1..]))
  {
    assert EncodePackage(p)[2..] == EncodePatterns(p.patterns);
    if k < |p.patterns| {
      PatternsLayout(p.patterns, k);
    }
  }

  // ----- reading -----

  datatype Read<T> = Fail | Got(value: T, rest: seq<int>)

  function DecodePoint(s: seq<int>): Read<Point> {
    if |s| < 3 then Fail else Got(Point(s[0], s[1], s[2]), s[3..])
  }

  function DecodePoints(s: seq<int>, n: int): Read<seq<Point>>
    decreases n
  {
    if n <= 0 then Got([], s)
    else match DecodePoint(s)
      case Fail => Fail
      case Got(p, s1) =>
        match DecodePoints(s1, n - 1)
        case Fail => Fail
        case Got(ps, s2) => Got([p] + ps, s2)
  }

  /** A count is refused above its maximum; the package reader also refuses a negative one, the
      pattern reader takes it for zero. */
  predicate BadCount(n: int, max: int, strict: bool) {
    n > max || (strict && n < 0)
  }

  function DecodeEvent(s: seq<int>, strict: bool): Read<Event> {
    if |s| < 7 || (s[0] != 0 && s[0] != 1) || BadCount(s[6], MAX_POINT_SIZE, strict) then Fail
    else match DecodePoints(s[7..], s[6])
      case Fail => Fail
      case Got(ps, rest) => Got(Event(if s[0] == 0 then Continuous else Transient, s[1], s[2], s[3], s[4], s[5], ps), rest)
  }

  function DecodeEvents(s: seq<int>, n: int, strict: bool): Read<seq<Event>>
    decreases n
  {
    if n <= 0 then Got([], s)
    else match DecodeEvent(s, strict)
      case Fail => Fail
      case Got(e, s1) =>
        match DecodeEvents(s1, n - 1, strict)
        case Fail => Fail
        case Got(es, s2) => Got([e] + es, s2)
  }

  function DecodePattern(s: seq<int>, strict: bool): Read<Pattern> {
    if |s| < 3 || BadCount(s[2], MAX_EVENT_SIZE, strict) then Fail
    else match DecodeEvents(s[3..], s[2], strict)
      case Fail => Fail
      case Got(es, rest) => Got(Pattern(s[0], s[1], es), rest)
  }

  function DecodePatterns(s: seq<int>, n: int): Read<seq<Pattern>>
    decreases n
  {
    if n <= 0 then Got([], s)
    else match DecodePattern(s, true)
      case Fail => Fail
      case Got(p, s1) =>
        match DecodePatterns(s1, n - 1)
        case Fail => Fail
        case Got(ps, s2) => Got([p] + ps, s2)
  }

  function DecodePackage(s: seq<int>): Read<Package> {
    if |s| < 2 || s[1] < 0 || s[1] > MAX_PATTERN_NUM then Fail
    else match DecodePatterns(s[2..], s[1])
      case Fail => Fail
      case Got(ps, rest) => Got(Package(ps, s[0]), rest)
  }

  // ----- what can be read back -----

  predicate FitsEvent(e: Event) {
    e.tag != UnknownTag && |e.points| <= 16
  }

  predicate FitsPattern(p: Pattern) {
    |p.events| <= 16 && forall k :: 0 <= k < |p.events| ==> FitsEvent(p.events[k])
  }

  /** At most 1000 patterns of 16 events of 16 points, every event continuous or transient. */
  predicate FitsPackage(p: Package) {
    |p.patterns| <= 1000 && forall k :: 0 <= k < |p.patterns| ==> FitsPattern(p.patterns[k])
  }

  lemma {:induction false} PointsRoundTrip(ps: seq<Point>, suffix: seq<int>)
    ensures DecodePoints(EncodePoints(ps) + suffix, |ps|) == Got(ps, suffix)
  {
    if ps == [] {
      assert EncodePoints(ps) + suffix == suffix;
    } else {
      var tail := EncodePoints(ps[1..]) + suffix;
      PointsRoundTrip(ps[1..], suffix);
      Assoc(EncodePoint(ps[0]), EncodePoints(ps[1..]), suffix);
      assert (EncodePoint(ps[0]) + tail)[3..] == tail;
      assert [ps[0]] + ps[1..] == ps;
    }
  }

  lemma EventRoundTrip(e: Event, suffix: seq<int>, strict: bool)
    ensures DecodeEvent(EncodeEvent(e) + suffix, strict) == if FitsEvent(e) then Got(e, suffix) else Fail
  {
    var s := EncodeEvent(e) + suffix;
    assert s[7..] == EncodePoints(e.points) + suffix;
    PointsRoundTrip(e.points, suffix);
  }

  predicate AllFit(es: seq<Event>) {
    forall k :: 0 <= k < |es| ==> FitsEvent(es[k])
  }

  lemma AllFitCons(es: seq<Event>)
    requires es != []
    ensures AllFit(es) <==> FitsEvent(es[0]) && AllFit(es[1..])
  {
    assert es == [es[0]] + es[1..];
  }

  lemma {:induction false} EventsRoundTrip(es: seq<Event>, suffix: seq<int>, strict: bool)
    ensures DecodeEvents(EncodeEvents(es) + suffix, |es|, strict) == if AllFit(es) then Got(es, suffix) else Fail
  {
    if es == [] {
      assert EncodeEvents(es) + suffix == suffix;
    } else {
      var tail := EncodeEvents(es[1..]) + suffix;
      EventsRoundTrip(es[1..], suffix, strict);
      Assoc(EncodeEvent(es[0]), EncodeEvents(es[1..]), suffix);
      EventRoundTrip(es[0], tail, strict);
      assert [es[0]] + es[1..] == es;
      AllFitCons(es);
    }
  }

  /** A pattern written and read back, whichever reader is used. */
  lemma PatternRoundTrip(p: Pattern, suffix: seq<int>, strict: bool)
    ensures DecodePattern(EncodePattern(p) + suffix, strict) == if FitsPattern(p) then Got(p, suffix) else Fail
  {
    var s := EncodePattern(p) + suffix;
    assert s[3..] == EncodeEvents(p.events) + suffix;
    EventsRoundTrip(p.events, suffix, strict);
  }

  predicate AllPatternsFit(ps: seq<Pattern>) {
    forall k :: 0 <= k < |ps| ==> FitsPattern(ps[k])
  }

  lemma AllPatternsFitCons(ps: seq<Pattern>)
    requires ps != []
    ensures AllPatternsFit(ps) <==> FitsPattern(ps[0]) && AllPatternsFit(ps[1..])
  {
    assert ps == [ps[0]] + ps[1..];
  }

  lemma OnePatternMore(p: Pattern, tail: seq<int>, n: nat, later: Read<seq<Pattern>>)
    requires DecodePatterns(tail, n) == later
    ensures DecodePatterns(EncodePattern(p) + tail, n + 1)
         == if FitsPattern(p) && later.Got? then Got([p] + later.value, later.rest) else Fail
  {
    PatternRoundTrip(p, tail, true);
  }

  lemma FirstPatternAhead(p: Pattern, ps: seq<Pattern>, suffix: seq<int>)
    ensures EncodePatterns([p] + ps) + suffix == EncodePattern(p) + (EncodePatterns(ps) + suffix)
    ensures AllPatternsFit([p] + ps) <==> FitsPattern(p) && AllPatternsFit(ps)
  {
    assert ([p] + ps)[1..] == ps;
    Assoc(EncodePattern(p), EncodePatterns(ps), suffix);
    AllPatternsFitCons([p] + ps);
  }

  lemma PatternsCons(p: Pattern, ps: seq<Pattern>, tail: seq<int>, suffix: seq<int>)
    requires tail == EncodePatterns(ps) + suffix
    requires DecodePatterns(tail, |ps|) == if AllPatternsFit(ps) then Got(ps, suffix) else Fail
    ensures DecodePatterns(EncodePatterns([p] + ps) + suffix, |ps| + 1)
         == if AllPatternsFit([p] + ps) then Got([p] + ps, suffix) else Fail
  {
    FirstPatternAhead(p, ps, suffix);
    OnePatternMore(p, tail, |ps|, DecodePatterns(tail, |ps|));
  }

  lemma {:induction false} PatternsRoundTrip(ps: seq<Pattern>, suffix: seq<int>)
    ensures DecodePatterns(EncodePatterns(ps) + suffix, |ps|) == if AllPatternsFit(ps) then Got(ps, suffix) else Fail
  {
    if ps == [] {
      assert EncodePatterns(ps) + suffix == suffix;
    } else {
      PatternsRoundTrip(ps[1..], suffix);
      PatternsCons(ps[0], ps[1..], EncodePatterns(ps[1..]) + suffix, suffix);
      assert [ps[0]] + ps[1..] == ps;
    }
  }

  /** Reading a written package back, whatever follows it, gives the package and leaves what follows;
      it succeeds exactly when the package keeps within the limits. */
  lemma PackageRoundTrip(p: Package, suffix: seq<int>)
    ensures DecodePackage(EncodePackage(p) + suffix) == if FitsPackage(p) then Got(p, suffix) else Fail
  {
    var s := EncodePackage(p) + suffix;
    assert s[2..] == EncodePatterns(p.patterns) + suffix;
    PatternsRoundTrip(p.patterns, suffix);
  }

  // ----- the other way round -----

  lemma {:induction false} PointsRewritten(s: seq<int>, n: nat)
    requires DecodePoints(s, n).Got?
    ensures var r := DecodePoints(s, n); |r.value| == n && s == EncodePoints(r.value) + r.rest
    decreases n
  {
    var r := DecodePoints(s, n);
    if n > 0 {
      var p := DecodePoint(s);
      PointsRewritten(p.rest, n - 1);
      var tail := DecodePoints(p.rest, n - 1);
      assert r.value == [p.value] + tail.value && r.value[1..] == tail.value;
      assert s == EncodePoint(p.value) + p.rest;
      Assoc(EncodePoint(p.value), EncodePoints(tail.value), r.rest);
    }
  }

  lemma EventRewritten(s: seq<int>)
    requires DecodeEvent(s, true).Got?
    ensures var r := DecodeEvent(s, true); FitsEvent(r.value) && s == EncodeEvent(r.value) + r.rest
  {
    PointsRewritten(s[7..], s[6]);
    assert s == s[..7] + s[7..];
  }

  lemma {:induction false} EventsRewritten(s: seq<int>, n: nat)
    requires DecodeEvents(s, n, true).Got?
    ensures var r := DecodeEvents(s, n, true);
            |r.value| == n && AllFit(r.value) && s == EncodeEvents(r.value) + r.rest
    decreases n
  {
    var r := DecodeEvents(s, n, true);
    if n > 0 {
      var e := DecodeEvent(s, true);
      EventRewritten(s);
      EventsRewritten(e.rest, n - 1);
      var tail := DecodeEvents(e.rest, n - 1, true);
      assert r.value == [e.value] + tail.value && r.value[1..] == tail.value;
      AllFitCons(r.value);
      Assoc(EncodeEvent(e.value), EncodeEvents(tail.value), r.rest);
    }
  }

  lemma PatternRewritten(s: seq<int>)
    requires DecodePattern(s, true).Got?
    ensures var r := DecodePattern(s, true); FitsPattern(r.value) && s == EncodePattern(r.value) + r.rest
  {
    var body := DecodeEvents(s[3..], s[2], true);
    EventsRewritten(s[3..], s[2]);
    assert s == [s[0], s[1], s[2]] + s[3..];
    Assoc([s[0], s[1], s[2]], EncodeEvents(body.value), body.rest);
  }

  lemma {:induction false} PatternsRewritten(s: seq<int>, n: nat)
    requires DecodePatterns(s, n).Got?
    ensures var r := DecodePatterns(s, n);
            |r.value| == n && AllPatternsFit(r.value) && s == EncodePatterns(r.value) + r.rest
    decreases n
  {
    var r := DecodePatterns(s, n);
    if n > 0 {
      var p := DecodePattern(s, true);
      PatternRewritten(s);
      PatternsRewritten(p.rest, n - 1);
      var tail := DecodePatterns(p.rest, n - 1);
      assert r.value == [p.value] + tail.value && r.value[1..] == tail.value;
      AllPatternsFitCons(r.value);
      Assoc(EncodePattern(p.value), EncodePatterns(tail.value), r.rest);
    }
  }

  /** Writing an accepted package again reproduces the words it was read from. */
  lemma PackageRewritten(s: seq<int>)
    requires DecodePackage(s).Got?
    ensures var r := DecodePackage(s); FitsPackage(r.value) && s == EncodePackage(r.value) + r.rest
  {
    var body := DecodePatterns(s[2..], s[1]);
    PatternsRewritten(s[2..], s[1]);
    assert s == [s[0], s[1]] + s[2..];
    Assoc([s[0], s[1]], EncodePatterns(body.value), body.rest);
  }

  // ----- the pattern reader is laxer -----

  lemma {:induction false} StrictAgrees(s: seq<int>, n: int)
    requires DecodeEvents(s, n, true).Got?
    ensures DecodeEvents(s, n, false) == DecodeEvents(s, n, true)
    decreases n
  {
    if n > 0 {
      StrictAgrees(DecodeEvent(s, true).rest, n - 1);
    }
  }

  lemma {:induction false} LaxFits(s: seq<int>, n: int)
    requires DecodeEvents(s, n, false).Got?
    ensures var r := DecodeEvents(s, n, false).value; |r| == Max(n, 0) && AllFit(r)
    decreases n
  {
    if n > 0 {
      var e := DecodeEvent(s, false);
      LaxPoints(s[7..], s[6]);
      LaxFits(e.rest, n - 1);
    }
  }

  lemma {:induction false} LaxPoints(s: seq<int>, n: int)
    requires DecodePoints(s, n).Got?
    ensures |DecodePoints(s, n).value| == Max(n, 0)
    decreases n
  {
    if n > 0 {
      LaxPoints(DecodePoint(s).rest, n - 1);
    }
  }

  /** A pattern read on its own is written again as it was read exactly when the strict reader would
      have accepted it too: when it holds no negative count. */
  lemma PatternRewrittenIff(s: seq<int>)
    requires DecodePattern(s, false).Got?
    ensures var r := DecodePattern(s, false);
            s == EncodePattern(r.value) + r.rest <==> DecodePattern(s, true).Got?
  {
    var r := DecodePattern(s, false);
    LaxFits(s[3..], s[2]);
    if DecodePattern(s, true).Got? {
      StrictAgrees(s[3..], s[2]);
      PatternRewritten(s);
    }
    if s == EncodePattern(r.value) + r.rest {
      PatternRoundTrip(r.value, r.rest, true);
    }
  }

  /** A negative event count is read as an empty pattern, and written again as zero. */
  lemma NegativeCountIsNotRewritten()
    ensures DecodePattern([0, 0, -1], false) == Got(Pattern(0, 0, []), [])
    ensures EncodePattern(Pattern(0, 0, [])) == [0, 0, 0]
  {
    assert [0, 0, -1][3..] == [];
  }
}
