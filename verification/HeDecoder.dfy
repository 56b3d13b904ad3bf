/** Decoding an HE haptic file of version 1 or 2 into a package (HEVibratorDecoder), from the values its
    JSON items hold. An item may be missing, or be of another type than the one asked for. */
module HeDecoder {
  import opened Wrappers
  import opened Haptics

  const EVENT_NUM_MAX := 16
  const INDEX_MAX := 2
  const TRANSIENT_VIBRATION_DURATION := 48
  const CURVE_POINT_NUM_MIN := 4
  const CURVE_POINT_NUM_MAX := 16
  const CONTINUOUS_DURATION_MAX := 5000

  datatype Json<T> = Missing | OtherType | Value(v: T)

  datatype RawPoint = RawPoint(time: Json<int>, intensity: Json<real>, frequency: Json<int>)

  datatype RawParameters = RawParameters(intensity: Json<int>, frequency: Json<int>, curve: Json<seq<RawPoint>>)

  datatype RawEvent = RawEvent(kind: Json<string>, duration: Json<int>, index: Json<int>, relativeTime: Json<int>,
                               parameters: Json<RawParameters>)

  datatype RawPattern = RawPattern(absoluteTime: Json<int>, events: Json<seq<Json<RawEvent>>>)

  datatype RawFile = RawFile(version: Json<int>, pattern: Json<seq<Json<RawEvent>>>, patternList: Json<seq<RawPattern>>)

  /** The number an item holds; an item of another type reads as -1. */
  function Number(j: Json<int>): int {
    if j.Value? then j.v else -1
  }

  // ----- what is accepted, and as what -----

  function IntensityOf(j: Json<real>): int {
    if j.Value? then Trunc(j.v * 100.0) else -1
  }

  function PointOf(p: RawPoint): Point {
    Point(Number(p.time), IntensityOf(p.intensity), Number(p.frequency))
  }

  predicate AcceptsPointAt(c: seq<RawPoint>, k: nat, duration: int)
    requires k < |c|
  {
    && !c[k].time.Missing? && !c[k].intensity.Missing? && !c[k].frequency.Missing?
    && (if k == 0 then -1 else Number(c[k - 1].time)) < Number(c[k].time) <= duration
    && 0 <= IntensityOf(c[k].intensity) <= 100
    && -100 <= Number(c[k].frequency) <= 100
  }

  predicate AcceptsPoints(c: seq<RawPoint>, duration: int) {
    forall k :: 0 <= k < |c| ==> AcceptsPointAt(c, k, duration)
  }

  function Points(c: seq<RawPoint>): seq<Point> {
    seq(|c|, k requires 0 <= k < |c| => PointOf(c[k]))
  }

  predicate AcceptsCurve(j: Json<seq<RawPoint>>, duration: int) {
    j.Value? && CURVE_POINT_NUM_MIN <= |j.v| <= CURVE_POINT_NUM_MAX && AcceptsPoints(j.v, duration)
  }

  function EventOf(e: RawEvent): Event
    requires e.parameters.Value?
  {
    var continuous := e.kind == Value("continuous");
    Event(if continuous then Continuous else Transient, Number(e.relativeTime),
          if continuous then Number(e.duration) else TRANSIENT_VIBRATION_DURATION,
          Number(e.parameters.v.intensity), Number(e.parameters.v.frequency),
          if e.index.Missing? then 0 else Number(e.index),
          if continuous && e.parameters.v.curve.Value? then Points(e.parameters.v.curve.v) else [])
  }

  predicate CheckCommonParameters(e: Event) {
    e.time >= 0 && 0 <= e.index <= INDEX_MAX && 0 <= e.intensity <= 100
  }

  predicate CheckTransientParameters(e: Event) {
    -50 <= e.frequency <= 150
  }

  predicate CheckContinuousParameters(e: Event) {
    && 0 <= e.frequency <= 100
    && 0 < e.duration <= CONTINUOUS_DURATION_MAX
    && CURVE_POINT_NUM_MIN <= |e.points| <= CURVE_POINT_NUM_MAX
    && e.points[0].time == 0 && e.points[0].intensity == 0
    && e.points[|e.points| - 1].time == e.duration && e.points[|e.points| - 1].intensity == 0
  }

  predicate CheckEventParameters(e: Event) {
    && CheckCommonParameters(e)
    && match e.tag
       case Transient => CheckTransientParameters(e)
       case Continuous => CheckContinuousParameters(e)
       case UnknownTag => false
  }

  predicate AcceptsEvent(e: RawEvent) {
    && (e.kind == Value("transient") || (e.kind == Value("continuous") && !e.duration.Missing?))
    && !e.relativeTime.Missing? && e.parameters.Value?
    && !e.parameters.v.intensity.Missing? && !e.parameters.v.frequency.Missing?
    && (e.kind == Value("continuous") ==> AcceptsCurve(e.parameters.v.curve, Number(e.duration)))
    && CheckEventParameters(EventOf(e))
  }

  predicate AcceptsAt(items: seq<Json<RawEvent>>, k: nat)
    requires k < |items|
  {
    && items[k].Value? && AcceptsEvent(items[k].v)
    && (k > 0 && items[k - 1].Value? ==> Number(items[k - 1].v.relativeTime) <= Number(items[k].v.relativeTime))
  }

  predicate AcceptsEvents(items: seq<Json<RawEvent>>) {
    forall k :: 0 <= k < |items| ==> AcceptsAt(items, k)
  }

  predicate AcceptsPattern(j: Json<seq<Json<RawEvent>>>) {
    j.Value? && 0 < |j.v| <= EVENT_NUM_MAX && AcceptsEvents(j.v)
  }

  function Events(items: seq<Json<RawEvent>>): seq<Event>
    requires AcceptsEvents(items)
  {
    seq(|items|, k requires 0 <= k < |items| => assert AcceptsAt(items, k); EventOf(items[k].v))
  }

  predicate AcceptsPatternAt(list: seq<RawPattern>, k: nat)
    requires k < |list|
  {
    && !list[k].absoluteTime.Missing?
    && (if k == 0 then -1 else Number(list[k - 1].absoluteTime)) < Number(list[k].absoluteTime)
    && AcceptsPattern(list[k].events)
  }

  predicate AcceptsPatterns(list: seq<RawPattern>) {
    forall k :: 0 <= k < |list| ==> AcceptsPatternAt(list, k)
  }

  function PatternOf(p: RawPattern): Pattern
    requires AcceptsPattern(p.events)
  {
    Pattern(Number(p.absoluteTime), 0, Events(p.events.v))
  }

  function Patterns(list: seq<RawPattern>): seq<Pattern>
    requires AcceptsPatterns(list)
  {
    seq(|list|, k requires 0 <= k < |list| => assert AcceptsPatternAt(list, k); PatternOf(list[k]))
  }

  predicate AcceptsFile(f: RawFile) {
    || (f.version == Value(1) && AcceptsPattern(f.pattern))
    || (f.version == Value(2) && f.patternList.Value? && f.patternList.v != [] && AcceptsPatterns(f.patternList.v))
  }

  function Decoded(f: RawFile): seq<Pattern>
    requires AcceptsFile(f)
  {
    if f.version == Value(1) then [Pattern(0, 0, Events(f.pattern.v))] else Patterns(f.patternList.v)
  }

  // ----- what an accepted item is read as -----

  /** The number in the item; an item of another type than a number reads as -1. */
  predicate ReadsNumber(j: Json<int>, n: int) {
    j == Value(n) || (j == OtherType && n == -1)
  }

  ghost predicate ReadsPoint(p: RawPoint, q: Point) {
    && p.time == Value(q.time) && ReadsNumber(p.frequency, q.frequency)
    && p.intensity.Value? && IsHundredfold(p.intensity.v, q.intensity)
  }

  ghost predicate ReadsCurve(c: seq<RawPoint>, points: seq<Point>) {
    |points| == |c| && forall k :: 0 <= k < |c| ==> ReadsPoint(c[k], points[k])
  }

  /** Field by field: a transient event has no curve and lasts 48 ms, and a missing index is 0. */
  ghost predicate ReadsEvent(raw: RawEvent, e: Event) {
    && raw.parameters.Value? && raw.relativeTime == Value(e.time)
    && raw.parameters.v.intensity == Value(e.intensity) && ReadsNumber(raw.parameters.v.frequency, e.frequency)
    && (if raw.index == Missing then e.index == 0 else raw.index == Value(e.index))
    && if raw.kind == Value("continuous") then
         && e.tag == Continuous && raw.duration == Value(e.duration)
         && raw.parameters.v.curve.Value? && ReadsCurve(raw.parameters.v.curve.v, e.points)
       else raw.kind == Value("transient") && e.tag == Transient && e.duration == 48 && e.points == []
  }

  lemma PointReads(c: seq<RawPoint>, k: nat, duration: int)
    requires k < |c| && AcceptsPointAt(c, k, duration) && (k > 0 ==> AcceptsPointAt(c, k - 1, duration))
    requires (if k == 0 then -1 else Number(c[k - 1].time)) >= -1
    ensures ReadsPoint(c[k], PointOf(c[k]))
  {
    if c[k].intensity.Value? {
      TruncIsHundredfold(c[k].intensity.v);
    }
  }

  lemma {:induction false} TimesFromZero(c: seq<RawPoint>, duration: int, k: nat)
    requires AcceptsPoints(c, duration) && k < |c|
    ensures Number(c[k].time) >= 0
  {
    assert AcceptsPointAt(c, k, duration);
    if k > 0 {
      TimesFromZero(c, duration, k - 1);
    }
  }

  lemma EventReads(raw: RawEvent)
    requires AcceptsEvent(raw)
    ensures ReadsEvent(raw, EventOf(raw))
  {
    if raw.kind == Value("continuous") {
      var c, duration := raw.parameters.v.curve.v, Number(raw.duration);
      forall k | 0 <= k < |c| ensures ReadsPoint(c[k], Points(c)[k]) {
        assert AcceptsPointAt(c, k, duration);
        if k > 0 {
          assert AcceptsPointAt(c, k - 1, duration);
          TimesFromZero(c, duration, k - 1);
        }
        PointReads(c, k, duration);
      }
    }
  }

  // ----- what is legal, in terms of what is read -----

  /** The curve of a continuous event: 4 to 16 points whose times rise strictly from 0 to its duration, its
      strength 0 at both ends. */
  ghost predicate IsLegalCurve(c: seq<Point>, duration: int) {
    && 4 <= |c| <= 16
    && (forall k :: 0 <= k < |c| ==> 0 <= c[k].intensity <= 100 && -100 <= c[k].frequency <= 100)
    && (forall k :: 0 < k < |c| ==> c[k - 1].time < c[k].time)
    && c[0].time == 0 && c[0].intensity == 0 && c[|c| - 1].time == duration && c[|c| - 1].intensity == 0
  }

  ghost predicate IsLegal(e: Event) {
    && e.time >= 0 && 0 <= e.index <= 2 && 0 <= e.intensity <= 100
    && if e.tag == Continuous then
         0 <= e.frequency <= 100 && 0 < e.duration <= 5000 && IsLegalCurve(e.points, e.duration)
       else -50 <= e.frequency <= 150
  }

  lemma {:induction false} LegalTimes(c: seq<Point>, duration: int, k: nat)
    requires IsLegalCurve(c, duration) && k < |c|
    ensures 0 <= c[k].time <= duration
    decreases |c| - k
  {
    if k < |c| - 1 {
      LegalTimes(c, duration, k + 1);
    }
    LegalFrom(c, duration, k);
  }

  lemma {:induction false} LegalFrom(c: seq<Point>, duration: int, k: nat)
    requires IsLegalCurve(c, duration) && k < |c|
    ensures 0 <= c[k].time
  {
    if k > 0 {
      LegalFrom(c, duration, k - 1);
    }
  }

  lemma PointIsRead(p: RawPoint, q: Point)
    requires ReadsPoint(p, q)
    ensures PointOf(p) == q
  {
    TruncIsHundredfold(p.intensity.v);
    HundredfoldUnique(p.intensity.v, q.intensity, IntensityOf(p.intensity));
  }

  lemma LegalCurveAccepted(c: seq<RawPoint>, points: seq<Point>, duration: int)
    requires ReadsCurve(c, points) && IsLegalCurve(points, duration)
    ensures AcceptsPoints(c, duration) && Points(c) == points
  {
    forall k | 0 <= k < |c| ensures AcceptsPointAt(c, k, duration) && PointOf(c[k]) == points[k] {
      PointIsRead(c[k], points[k]);
      LegalTimes(points, duration, k);
      if k > 0 {
        assert ReadsPoint(c[k - 1], points[k - 1]);
      }
    }
  }

  lemma LegalAccepted(raw: RawEvent, e: Event)
    requires ReadsEvent(raw, e) && IsLegal(e)
    ensures AcceptsEvent(raw)
  {
    if raw.kind == Value("continuous") {
      LegalCurveAccepted(raw.parameters.v.curve.v, e.points, e.duration);
    }
    assert EventOf(raw) == e;
  }

  lemma AcceptedCurveLegal(c: seq<RawPoint>, points: seq<Point>, duration: int)
    requires CURVE_POINT_NUM_MIN <= |c| <= CURVE_POINT_NUM_MAX && AcceptsPoints(c, duration) && points == Points(c)
    requires points[0].time == 0 && points[0].intensity == 0
    requires points[|points| - 1].time == duration && points[|points| - 1].intensity == 0
    ensures IsLegalCurve(points, duration)
  {
    forall k | 0 <= k < |c|
      ensures 0 <= points[k].intensity <= 100 && -100 <= points[k].frequency <= 100
              && (k > 0 ==> points[k - 1].time < points[k].time)
    {
      assert AcceptsPointAt(c, k, duration);
    }
  }

  lemma AcceptedLegal(raw: RawEvent)
    requires AcceptsEvent(raw)
    ensures IsLegal(EventOf(raw))
  {
    var e := EventOf(raw);
    assert CheckEventParameters(e);
    if raw.kind == Value("continuous") {
      AcceptedCurveLegal(raw.parameters.v.curve.v, e.points, e.duration);
    }
  }

  /** The decoder accepts exactly the items that read as a legal event. */
  lemma AcceptedIff(raw: RawEvent)
    ensures AcceptsEvent(raw) <==> exists e :: ReadsEvent(raw, e) && IsLegal(e)
  {
    if AcceptsEvent(raw) {
      EventReads(raw);
      AcceptedLegal(raw);
    }
    if e :| ReadsEvent(raw, e) && IsLegal(e) {
      LegalAccepted(raw, e);
    }
  }

  // ----- the parsing loops -----

  method ParsePoint(c: seq<RawPoint>, k: nat, previousCurveTime: int, duration: int) returns (r: Option<Point>)
    requires k < |c| && previousCurveTime == if k == 0 then -1 else Number(c[k - 1].time)
    ensures r.Some? <==> AcceptsPointAt(c, k, duration)
    ensures r.Some? ==> r.value == PointOf(c[k])
  {
    if c[k].time.Missing? { return None; }
    var time := Number(c[k].time);
    if time <= previousCurveTime || time > duration { return None; }
    if c[k].intensity.Missing? { return None; }
    var intensity := IntensityOf(c[k].intensity);
    if intensity < 0 || intensity > 100 { return None; }
    if c[k].frequency.Missing? { return None; }
    var frequency := Number(c[k].frequency);
    if frequency < -100 || frequency > 100 { return None; }
    return Some(Point(time, intensity, frequency));
  }

  /** The first k points have been accepted and read. */
  ghost predicate PointsRead(c: seq<RawPoint>, k: nat, duration: int, points: seq<Point>)
    requires k <= |c|
  {
    |points| == k && forall m :: 0 <= m < k ==> AcceptsPointAt(c, m, duration) && points[m] == PointOf(c[m])
  }

  lemma ReadOneMore(c: seq<RawPoint>, k: nat, duration: int, points: seq<Point>)
    requires k < |c| && PointsRead(c, k, duration, points) && AcceptsPointAt(c, k, duration)
    ensures PointsRead(c, k + 1, duration, points + [PointOf(c[k])])
  {
  }

  lemma AllRead(c: seq<RawPoint>, duration: int, points: seq<Point>)
    requires PointsRead(c, |c|, duration, points)
    ensures AcceptsPoints(c, duration) && points == Points(c)
  {
  }

  method ParseCurve(curve: Json<seq<RawPoint>>, duration: int) returns (r: Option<seq<Point>>)
    ensures r.Some? <==> AcceptsCurve(curve, duration)
    ensures r.Some? ==> r.value == Points(curve.v)
  {
    if !curve.Value? { return None; }
    var c := curve.v;
    if |c| < CURVE_POINT_NUM_MIN || |c| > CURVE_POINT_NUM_MAX { return None; }
    var previousCurveTime := -1;
    var points: seq<Point> := [];
    for k := 0 to |c|
      invariant previousCurveTime == if k == 0 then -1 else Number(c[k - 1].time)
      invariant PointsRead(c, k, duration, points)
    {
      assert AcceptsPoints(c, duration) ==> AcceptsPointAt(c, k, duration);
      var point := ParsePoint(c, k, previousCurveTime, duration);
      if point.None? {
        assert !AcceptsPoints(c, duration);
        return None;
      }
      previousCurveTime := point.value.time;
      ReadOneMore(c, k, duration, points);
      points := points + [point.value];
    }
    AllRead(c, duration, points);
    return Some(points);
  }

  method ParseEvent(e: RawEvent) returns (r: Option<Event>)
    ensures r.Some? <==> AcceptsEvent(e)
    ensures r.Some? ==> r.value == EventOf(e) && ReadsEvent(e, r.value)
  {
    if AcceptsEvent(e) {
      EventReads(e);
    }
    var tag, duration;
    if e.kind == Value("transient") {
      tag, duration := Transient, TRANSIENT_VIBRATION_DURATION;
    } else if e.kind == Value("continuous") {
      tag := Continuous;
      if e.duration.Missing? { return None; }
      duration := Number(e.duration);
    } else {
      return None;
    }
    var index := if e.index.Missing? then 0 else Number(e.index);
    if e.relativeTime.Missing? || !e.parameters.Value? { return None; }
    var parameters := e.parameters.v;
    if parameters.intensity.Missing? || parameters.frequency.Missing? { return None; }
    var points := [];
    if tag == Continuous {
      var curve := ParseCurve(parameters.curve, duration);
      if curve.None? { return None; }
      points := curve.value;
    }
    var event := Event(tag, Number(e.relativeTime), duration, Number(parameters.intensity),
                       Number(parameters.frequency), index, points);
    if !CheckEventParameters(event) { return None; }
    return Some(event);
  }

  /** The first k events have been accepted and read. */
  ghost predicate EventsRead(items: seq<Json<RawEvent>>, k: nat, events: seq<Event>)
    requires k <= |items|
  {
    |events| == k && forall m :: 0 <= m < k ==> AcceptsAt(items, m) && events[m] == EventOf(items[m].v)
  }

  lemma OneMoreEvent(items: seq<Json<RawEvent>>, k: nat, events: seq<Event>)
    requires k < |items| && EventsRead(items, k, events) && AcceptsAt(items, k)
    ensures EventsRead(items, k + 1, events + [EventOf(items[k].v)])
  {
  }

  lemma AllEventsRead(items: seq<Json<RawEvent>>, events: seq<Event>)
    requires EventsRead(items, |items|, events)
    ensures AcceptsEvents(items) && events == Events(items)
  {
  }

  function TimeBefore(items: seq<Json<RawEvent>>, k: nat): int
    requires k <= |items|
  {
    if k > 0 && items[k - 1].Value? then Number(items[k - 1].v.relativeTime) else 0
  }

  /** One item of a pattern. */
  method ParsePatternItem(items: seq<Json<RawEvent>>, k: nat, previousEventTime: int) returns (r: Option<Event>)
    requires k < |items| && previousEventTime == TimeBefore(items, k)
    ensures r.Some? <==> AcceptsAt(items, k)
    ensures r.Some? ==> r.value == EventOf(items[k].v) && r.value.time == TimeBefore(items, k + 1)
  {
    if !items[k].Value? { return None; }
    var event := ParseEvent(items[k].v);
    if event.None? { return None; }
    if event.value.time < previousEventTime { return None; }
    return event;
  }

  method ParsePattern(pattern: Json<seq<Json<RawEvent>>>) returns (r: Option<seq<Event>>)
    ensures r.Some? <==> AcceptsPattern(pattern)
    ensures r.Some? ==> r.value == Events(pattern.v)
  {
    if !pattern.Value? { return None; }
    var items := pattern.v;
    if |items| <= 0 || |items| > EVENT_NUM_MAX { return None; }
    var previousEventTime := 0;
    var events: seq<Event> := [];
    for k := 0 to |items|
      invariant EventsRead(items, k, events)
      invariant previousEventTime == TimeBefore(items, k)
    {
      assert AcceptsEvents(items) ==> AcceptsAt(items, k);
      var event := ParsePatternItem(items, k, previousEventTime);
      if event.None? {
        assert !AcceptsEvents(items);
        return None;
      }
      previousEventTime := event.value.time;
      OneMoreEvent(items, k, events);
      events := events + [event.value];
    }
    AllEventsRead(items, events);
    return Some(events);
  }

  /** One item of the pattern list. */
  method ParseListItem(list: seq<RawPattern>, k: nat, previousPatternTime: int) returns (r: Option<Pattern>)
    requires k < |list| && previousPatternTime == if k == 0 then -1 else Number(list[k - 1].absoluteTime)
    ensures r.Some? <==> AcceptsPatternAt(list, k)
    ensures r.Some? ==> r.value == PatternOf(list[k])
  {
    if list[k].absoluteTime.Missing? { return None; }
    var time := Number(list[k].absoluteTime);
    if time <= previousPatternTime { return None; }
    var events := ParsePattern(list[k].events);
    if events.None? { return None; }
    return Some(Pattern(time, 0, events.value));
  }

  /** The first k patterns have been accepted and read. */
  ghost predicate PatternsRead(list: seq<RawPattern>, k: nat, patterns: seq<Pattern>)
    requires k <= |list|
  {
    |patterns| == k && forall m :: 0 <= m < k ==> AcceptsPatternAt(list, m) && patterns[m] == PatternOf(list[m])
  }

  lemma OneMorePatternRead(list: seq<RawPattern>, k: nat, patterns: seq<Pattern>)
    requires k < |list| && PatternsRead(list, k, patterns) && AcceptsPatternAt(list, k)
    ensures PatternsRead(list, k + 1, patterns + [PatternOf(list[k])])
  {
  }

  lemma AllPatternsRead(list: seq<RawPattern>, patterns: seq<Pattern>)
    requires PatternsRead(list, |list|, patterns)
    ensures AcceptsPatterns(list) && patterns == Patterns(list)
  {
  }

  method ParsePatternList(list: Json<seq<RawPattern>>) returns (r: Option<seq<Pattern>>)
    ensures r.Some? <==> list.Value? && list.v != [] && AcceptsPatterns(list.v)
    ensures r.Some? ==> r.value == Patterns(list.v)
  {
    if !list.Value? || |list.v| <= 0 { return None; }
    var previousPatternTime := -1;
    var patterns: seq<Pattern> := [];
    for k := 0 to |list.v|
      invariant PatternsRead(list.v, k, patterns)
      invariant previousPatternTime == if k == 0 then -1 else Number(list.v[k - 1].absoluteTime)
    {
      assert AcceptsPatterns(list.v) ==> AcceptsPatternAt(list.v, k);
      var pattern := ParseListItem(list.v, k, previousPatternTime);
      if pattern.None? { return None; }
      previousPatternTime := pattern.value.startTime;
      OneMorePatternRead(list.v, k, patterns);
      patterns := patterns + [pattern.value];
    }
    AllPatternsRead(list.v, patterns);
    return Some(patterns);
  }

  /** The durations of the package and of its patterns are left at 0. */
  method DecodeEffect(f: RawFile) returns (r: Option<Package>)
    ensures r.Some? <==> AcceptsFile(f)
    ensures r.Some? ==> r.value == Package(Decoded(f), 0)
  {
    if f.version == Value(1) {
      var events := ParsePattern(f.pattern);
      if events.None? { return None; }
      return Some(Package([Pattern(0, 0, events.value)], 0));
    } else if f.version == Value(2) {
      var patterns := ParsePatternList(f.patternList);
      if patterns.None? { return None; }
      return Some(Package(patterns.value, 0));
    }
    return None;
  }
}
