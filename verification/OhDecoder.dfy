/** Decoding an OpenHarmony haptic file into a package (DefaultVibratorDecoder), from the values its
    JSON items hold. */
module OhDecoder {
  import opened Haptics
  import opened MixedWave

  const STARTTIME_MAX := 1800000
  const CONTINUOUS_DURATION_MAX := 5000
  const TRANSIENT_VIBRATION_DURATION := 48
  const EVENT_NUM_MAX := 128
  const SUPPORT_CHANNEL_NUMBER := 3
  const PATTERN_CAPACITY := 16
  const CURVE_POINT_MIN := 4
  const CURVE_POINT_MAX := 16

  /** An item that may be missing from the file. */
  datatype Item<T> = Missing | Value(v: T)

  datatype RawPoint = RawPoint(time: Item<int>, intensity: Item<real>, frequency: Item<int>)

  datatype RawEvent = RawEvent(kind: string, duration: Item<int>, startTime: Item<int>, intensity: Item<int>,
                               frequency: Item<int>, curve: Item<seq<RawPoint>>)

  datatype RawChannel = RawChannel(index: Item<int>, pattern: seq<RawEvent>)

  // ----- which items are accepted -----

  function PointOf(p: RawPoint): Point
    requires p.time.Value? && p.intensity.Value? && p.frequency.Value?
  {
    Point(p.time.v, Trunc(p.intensity.v * 100.0), p.frequency.v)
  }

  predicate AcceptsPoint(p: RawPoint, duration: int) {
    && p.time.Value? && p.intensity.Value? && p.frequency.Value?
    && 0 <= p.time.v <= duration
    && 0 <= Trunc(p.intensity.v * 100.0) <= 100
    && -100 <= p.frequency.v <= 100
  }

  predicate AcceptsCurve(c: seq<RawPoint>, duration: int) {
    CURVE_POINT_MIN <= |c| <= CURVE_POINT_MAX && forall k :: 0 <= k < |c| ==> AcceptsPoint(c[k], duration)
  }

  function DurationOf(e: RawEvent): int
    requires e.kind == "continuous" ==> e.duration.Value?
  {
    if e.kind == "continuous" then e.duration.v else TRANSIENT_VIBRATION_DURATION
  }

  predicate CheckEventParameters(time: int, duration: int, intensity: int, frequency: int) {
    && 0 <= time <= STARTTIME_MAX && 0 <= duration <= CONTINUOUS_DURATION_MAX
    && 0 <= intensity <= 100 && 0 <= frequency <= 100
  }

  predicate AcceptsEvent(e: RawEvent) {
    && (e.kind == "transient" || (e.kind == "continuous" && e.duration.Value?))
    && e.startTime.Value? && e.intensity.Value? && e.frequency.Value?
    && CheckEventParameters(e.startTime.v, DurationOf(e), e.intensity.v, e.frequency.v)
    && (e.kind == "continuous" && e.curve.Value? ==> AcceptsCurve(e.curve.v, DurationOf(e)))
  }

  predicate AcceptsChannel(c: RawChannel) {
    && c.index.Value? && 0 <= c.index.v < SUPPORT_CHANNEL_NUMBER
    && AcceptsPattern(c.pattern)
  }

  predicate AcceptsPattern(raws: seq<RawEvent>) {
    |raws| <= EVENT_NUM_MAX && forall k :: 0 <= k < |raws| ==> AcceptsEvent(raws[k])
  }

  predicate AcceptsFile(channelNumber: int, channels: seq<RawChannel>) {
    && 0 < channelNumber < SUPPORT_CHANNEL_NUMBER && |channels| == channelNumber
    && forall k :: 0 <= k < |channels| ==> AcceptsChannel(channels[k])
  }

  /** e is what the decoder may make of an accepted item: the curve in some time-sorted order. */
  ghost predicate Decodes(raw: RawEvent, e: Event)
    requires AcceptsEvent(raw)
  {
    && e.tag == (if raw.kind == "continuous" then Continuous else Transient)
    && e.time == raw.startTime.v && e.duration == (if raw.kind == "continuous" then raw.duration.v else 48)
    && e.intensity == raw.intensity.v && e.frequency == raw.frequency.v && e.index == 0
    && TimeSorted(e.points)
    && if raw.kind == "continuous" && raw.curve.Value? then ReadsCurve(raw.curve.v, e.points) else e.points == []
  }

  /** The point has the time and frequency of the item, and a hundred times its intensity. */
  ghost predicate ReadsPoint(p: RawPoint, q: Point) {
    && p.time == Value(q.time) && p.frequency == Value(q.frequency)
    && p.intensity.Value? && IsHundredfold(p.intensity.v, q.intensity)
  }

  /** The points stand for the items, in some order. */
  ghost predicate ReadsCurve(c: seq<RawPoint>, points: seq<Point>) {
    exists read: seq<Point> ::
      |read| == |c| && (forall k :: 0 <= k < |c| ==> ReadsPoint(c[k], read[k])) && multiset(points) == multiset(read)
  }

  lemma PointsOfReads(c: seq<RawPoint>, duration: int, points: seq<Point>)
    requires AcceptsCurve(c, duration) && multiset(points) == multiset(PointsOf(c, duration))
    ensures ReadsCurve(c, points)
  {
    var read := PointsOf(c, duration);
    forall k | 0 <= k < |c| ensures ReadsPoint(c[k], read[k]) {
      assert AcceptsPoint(c[k], duration);
      TruncIsHundredfold(c[k].intensity.v);
    }
  }

  // ----- what is legal, in terms of what is read -----

  ghost predicate IsLegalPoint(p: RawPoint, duration: int) {
    exists q :: ReadsPoint(p, q) && 0 <= q.time <= duration && 0 <= q.intensity <= 100 && -100 <= q.frequency <= 100
  }

  /** A curve holds 4 to 16 points within the event. */
  ghost predicate IsLegalCurve(c: seq<RawPoint>, duration: int) {
    4 <= |c| <= 16 && forall k :: 0 <= k < |c| ==> IsLegalPoint(c[k], duration)
  }

  /** A start within half an hour, at most 5 s, intensity and frequency in 0..100, and if there is a curve
      that is used, a legal one. */
  ghost predicate IsLegal(raw: RawEvent, duration: int) {
    && ((raw.kind == "transient" && duration == 48) || (raw.kind == "continuous" && raw.duration == Value(duration)))
    && raw.startTime.Value? && 0 <= raw.startTime.v <= 1800000 && 0 <= duration <= 5000
    && raw.intensity.Value? && 0 <= raw.intensity.v <= 100
    && raw.frequency.Value? && 0 <= raw.frequency.v <= 100
    && (raw.kind == "continuous" && raw.curve.Value? ==> IsLegalCurve(raw.curve.v, duration))
  }

  lemma PointLegalIff(p: RawPoint, duration: int)
    ensures AcceptsPoint(p, duration) <==> IsLegalPoint(p, duration)
  {
    if p.time.Value? && p.intensity.Value? && p.frequency.Value? {
      var q := PointOf(p);
      TruncIsHundredfold(p.intensity.v);
      assert ReadsPoint(p, q);
      forall r | ReadsPoint(p, r) ensures r == q {
        HundredfoldUnique(p.intensity.v, r.intensity, q.intensity);
      }
    }
  }

  lemma CurveLegalIff(c: seq<RawPoint>, duration: int)
    ensures AcceptsCurve(c, duration) <==> IsLegalCurve(c, duration)
  {
    forall k | 0 <= k < |c| ensures AcceptsPoint(c[k], duration) <==> IsLegalPoint(c[k], duration) {
      PointLegalIff(c[k], duration);
    }
  }

  /** The decoder accepts exactly the legal events. */
  lemma AcceptedIff(raw: RawEvent)
    ensures AcceptsEvent(raw) <==> exists duration :: IsLegal(raw, duration)
  {
    var duration := if raw.kind == "continuous" && raw.duration.Value? then raw.duration.v else 48;
    if raw.curve.Value? {
      CurveLegalIff(raw.curve.v, duration);
    }
    assert AcceptsEvent(raw) ==> IsLegal(raw, duration);
  }

  function PointsOf(c: seq<RawPoint>, duration: int): seq<Point>
    requires AcceptsCurve(c, duration)
  {
    seq(|c|, k requires 0 <= k < |c| => PointOf(c[k]))
  }

  // ----- sorting: some sorted permutation -----

  ghost predicate SortedBy<T>(s: seq<T>, key: T -> int) {
    forall a, b :: 0 <= a < b < |s| ==> key(s[a]) <= key(s[b])
  }

  function Inserted<T>(r: seq<T>, x: T, key: T -> int): seq<T> {
    if r == [] || key(r[|r| - 1]) <= key(x) then r + [x]
    else Inserted(r[..|r| - 1], x, key) + [r[|r| - 1]]
  }

  lemma {:induction false} InsertedPermutes<T>(r: seq<T>, x: T, key: T -> int)
    ensures multiset(Inserted(r, x, key)) == multiset(r) + multiset{x}
  {
    if r == [] || key(r[|r| - 1]) <= key(x) {
    } else {
      InsertedPermutes(r[..|r| - 1], x, key);
      assert r == r[..|r| - 1] + [r[|r| - 1]];
    }
  }

  lemma {:induction false} InsertedSorted<T>(r: seq<T>, x: T, key: T -> int, top: int)
    requires SortedBy(r, key)
    requires key(x) <= top && (r != [] ==> key(r[|r| - 1]) <= top)
    ensures SortedBy(Inserted(r, x, key), key)
    ensures forall k :: 0 <= k < |Inserted(r, x, key)| ==> key(Inserted(r, x, key)[k]) <= top
  {
    if r == [] || key(r[|r| - 1]) <= key(x) {
    } else {
      InsertedSorted(r[..|r| - 1], x, key, key(r[|r| - 1]));
    }
  }

  method Sort<T>(s: seq<T>, key: T -> int) returns (r: seq<T>)
    ensures SortedBy(r, key) && multiset(r) == multiset(s)
  {
    r := [];
    for n := 0 to |s|
      invariant SortedBy(r, key) && multiset(r) == multiset(s[..n])
    {
      InsertedPermutes(r, s[n], key);
      InsertedSorted(r, s[n], key, if r != [] then Max(key(s[n]), key(r[|r| - 1])) else key(s[n]));
      assert s[..n + 1] == s[..n] + [s[n]];
      r := Inserted(r, s[n], key);
    }
    assert s[..|s|] == s;
  }

  method SortPoints(c: seq<Point>) returns (r: seq<Point>)
    ensures TimeSorted(r) && multiset(r) == multiset(c)
  {
    var time := (p: Point) => p.time;
    r := Sort(c, time);
    assert forall a, b :: 0 <= a < b < |r| ==> time(r[a]) <= time(r[b]);
  }

  method SortEvents(es: seq<Event>) returns (r: seq<Event>)
    ensures StartSorted(r) && multiset(r) == multiset(es)
  {
    var time := (e: Event) => e.time;
    r := Sort(es, time);
    assert forall a, b :: 0 <= a < b < |r| ==> time(r[a]) <= time(r[b]);
  }

  // ----- parsing -----

  method ParseCurve(c: seq<RawPoint>, duration: int) returns (r: Item<seq<Point>>)
    ensures r.Value? <==> AcceptsCurve(c, duration)
    ensures r.Value? ==> TimeSorted(r.v) && ReadsCurve(c, r.v)
  {
    if |c| < CURVE_POINT_MIN || |c| > CURVE_POINT_MAX { return Missing; }
    var points: seq<Point> := [];
    for k := 0 to |c|
      invariant |points| == k
      invariant forall m :: 0 <= m < k ==> AcceptsPoint(c[m], duration) && points[m] == PointOf(c[m])
    {
      if !c[k].time.Value? || c[k].time.v < 0 || c[k].time.v > duration { return Missing; }
      if !c[k].intensity.Value? { return Missing; }
      var intensity := Trunc(c[k].intensity.v * 100.0);
      if intensity < 0 || intensity > 100 { return Missing; }
      if !c[k].frequency.Value? || c[k].frequency.v < -100 || c[k].frequency.v > 100 { return Missing; }
      points := points + [Point(c[k].time.v, intensity, c[k].frequency.v)];
    }
    assert points == PointsOf(c, duration);
    var sorted := SortPoints(points);
    PointsOfReads(c, duration, sorted);
    r := Value(sorted);
  }

  method ParseEvent(raw: RawEvent) returns (r: Item<Event>)
    ensures r.Value? <==> AcceptsEvent(raw)
    ensures r.Value? ==> Decodes(raw, r.v)
  {
    var tag, duration;
    if raw.kind == "continuous" {
      tag := Continuous;
      if !raw.duration.Value? { return Missing; }
      duration := raw.duration.v;
    } else if raw.kind == "transient" {
      tag := Transient;
      duration := TRANSIENT_VIBRATION_DURATION;
    } else {
      return Missing;
    }
    if !raw.startTime.Value? || !raw.intensity.Value? || !raw.frequency.Value? { return Missing; }
    if !CheckEventParameters(raw.startTime.v, duration, raw.intensity.v, raw.frequency.v) { return Missing; }
    var event := Event(tag, raw.startTime.v, duration, raw.intensity.v, raw.frequency.v, 0, []);
    if raw.kind == "continuous" && raw.curve.Value? {
      var curve := ParseCurve(raw.curve.v, duration);
      if curve == Missing { return Missing; }
      event := event.(points := curve.v);
    }
    r := Value(event);
  }

  /** The items of all channels, in file order. */
  function AllItems(channels: seq<RawChannel>): seq<RawEvent> {
    if channels == [] then [] else AllItems(channels[..|channels| - 1]) + channels[|channels| - 1].pattern
  }

  ghost predicate DecodesAt(raws: seq<RawEvent>, es: seq<Event>, k: nat)
    requires k < |raws| && k < |es|
  {
    AcceptsEvent(raws[k]) && Decodes(raws[k], es[k])
  }

  /** The events stand for the first n items. */
  ghost predicate DecodesFirst(raws: seq<RawEvent>, n: nat, es: seq<Event>)
    requires n <= |raws|
  {
    |es| == n && forall k :: 0 <= k < n ==> DecodesAt(raws, es, k)
  }

  ghost predicate DecodesAll(raws: seq<RawEvent>, es: seq<Event>) {
    DecodesFirst(raws, |raws|, es)
  }

  lemma DecodesOneMore(raws: seq<RawEvent>, n: nat, es: seq<Event>, e: Event)
    requires n < |raws| && DecodesFirst(raws, n, es) && AcceptsEvent(raws[n]) && Decodes(raws[n], e)
    ensures DecodesFirst(raws, n + 1, es + [e])
  {
    forall k | 0 <= k < n + 1 ensures DecodesAt(raws, es + [e], k) {
      assert k < n ==> DecodesAt(raws, es, k);
    }
  }

  lemma DecodesBoth(a: seq<RawEvent>, es: seq<Event>, b: seq<RawEvent>, fs: seq<Event>)
    requires DecodesAll(a, es) && DecodesAll(b, fs)
    ensures DecodesAll(a + b, es + fs)
  {
    forall k | 0 <= k < |a + b| ensures DecodesAt(a + b, es + fs, k) {
      if k < |a| { assert DecodesAt(a, es, k); } else { assert DecodesAt(b, fs, k - |a|); }
    }
  }

  method ParsePattern(raws: seq<RawEvent>) returns (ok: bool, es: seq<Event>, patternDuration: int)
    ensures ok <==> AcceptsPattern(raws)
    ensures ok ==> DecodesAll(raws, es) && patternDuration == TotalDuration(es)
  {
    es, patternDuration := [], 0;
    if |raws| > EVENT_NUM_MAX { return false, es, 0; }
    for k := 0 to |raws|
      invariant DecodesFirst(raws, k, es) && patternDuration == TotalDuration(es)
      invariant forall m :: 0 <= m < k ==> AcceptsEvent(raws[m])
    {
      var event := ParseEvent(raws[k]);
      if event == Missing { return false, es, 0; }
      patternDuration := patternDuration + event.v.duration;
      DecodesOneMore(raws, k, es, event.v);
      assert (es + [event.v])[..|es|] == es;
      es := es + [event.v];
    }
    ok := true;
  }

  /** The duration of the package is the sum over every event of every channel; the events are kept,
      in some time-sorted order. */
  method ParseChannel(channelNumber: int, channels: seq<RawChannel>)
    returns (ok: bool, sorted: seq<Event>, parseDuration: int, ghost parsed: seq<Event>)
    requires 0 < channelNumber < SUPPORT_CHANNEL_NUMBER
    ensures ok <==> AcceptsFile(channelNumber, channels)
    ensures ok ==> DecodesAll(AllItems(channels), parsed) && parseDuration == TotalDuration(parsed)
    ensures ok ==> StartSorted(sorted) && multiset(sorted) == multiset(parsed)
  {
    sorted, parseDuration, parsed := [], 0, [];
    if |channels| != channelNumber { return false, sorted, 0, parsed; }
    var events: seq<Event> := [];
    for i := 0 to |channels|
      invariant forall k :: 0 <= k < i ==> AcceptsChannel(channels[k])
      invariant DecodesAll(AllItems(channels[..i]), events) && parseDuration == TotalDuration(events)
    {
      if !channels[i].index.Value? || channels[i].index.v < 0 || channels[i].index.v >= SUPPORT_CHANNEL_NUMBER {
        return false, sorted, 0, parsed;
      }
      var good, es, patternDuration := ParsePattern(channels[i].pattern);
      parseDuration := parseDuration + patternDuration;
      if !good { return false, sorted, 0, parsed; }
      TotalJoin(events, es);
      DecodesBoth(AllItems(channels[..i]), events, channels[i].pattern, es);
      assert channels[..i + 1][..i] == channels[..i];
      events := events + es;
    }
    assert channels[..|channels|] == channels;
    parsed := events;
    sorted := SortEvents(events);
    ok := true;
  }

  // ----- splitting into patterns of sixteen -----

  /** ceil(n / 16) */
  function PatternCount(n: nat): nat {
    (n + PATTERN_CAPACITY - 1) / PATTERN_CAPACITY
  }

  function Chunk(es: seq<Event>, q: nat): (c: seq<Event>)
    requires PATTERN_CAPACITY * q < |es|
    ensures c != []
  {
    es[PATTERN_CAPACITY * q..Min(PATTERN_CAPACITY * q + PATTERN_CAPACITY, |es|)]
  }

  function Relative(es: seq<Event>, startTime: int): (r: seq<Event>)
    ensures |r| == |es|
  {
    seq(|es|, k requires 0 <= k < |es| => es[k].(time := es[k].time - startTime))
  }

  function Slice(c: seq<Event>): Pattern
    requires c != []
  {
    Pattern(c[0].time, 0, Relative(c, c[0].time))
  }

  function SplitUpTo(es: seq<Event>, q: nat): (ps: seq<Pattern>)
    requires q <= PatternCount(|es|)
    ensures |ps| == q
  {
    if q == 0 then [] else SplitUpTo(es, q - 1) + [Slice(Chunk(es, q - 1))]
  }

  /** The slice being filled: the first n events of chunk q. */
  ghost predicate Filling(sorted: seq<Event>, q: nat, n: nat, slice: Pattern) {
    && n < PATTERN_CAPACITY && PATTERN_CAPACITY * q + n < |sorted|
    && slice.startTime == sorted[PATTERN_CAPACITY * q].time && slice.patternDuration == 0
    && slice.events == Relative(sorted[PATTERN_CAPACITY * q..PATTERN_CAPACITY * q + n], slice.startTime)
  }

  lemma FillNone(sorted: seq<Event>, q: nat)
    requires PATTERN_CAPACITY * q < |sorted|
    ensures Filling(sorted, q, 0, Pattern(sorted[PATTERN_CAPACITY * q].time, 0, []))
  {
  }

  lemma FillOne(sorted: seq<Event>, q: nat, n: nat, slice: Pattern, e: Event)
    requires Filling(sorted, q, n, slice)
    requires e == sorted[PATTERN_CAPACITY * q + n].(time := sorted[PATTERN_CAPACITY * q + n].time - slice.startTime)
    ensures var i := PATTERN_CAPACITY * q + n;
            var fuller := slice.(events := slice.events + [e]);
            if n + 1 >= PATTERN_CAPACITY || i == |sorted| - 1 then fuller == Slice(Chunk(sorted, q))
            else Filling(sorted, q, n + 1, fuller)
  {
    var i := PATTERN_CAPACITY * q + n;
    assert sorted[PATTERN_CAPACITY * q..i + 1] == sorted[PATTERN_CAPACITY * q..i] + [sorted[i]];
    if n + 1 >= PATTERN_CAPACITY || i == |sorted| - 1 {
      assert Chunk(sorted, q) == sorted[PATTERN_CAPACITY * q..i + 1];
    }
  }

  /** The first i events have been split: q patterns are done, and the rest is in the slice being filled. */
  ghost predicate SplitSoFar(sorted: seq<Event>, i: nat, patterns: seq<Pattern>, slice: Pattern, q: nat) {
    && q <= PatternCount(|sorted|) && patterns == SplitUpTo(sorted, q)
    && (i < |sorted| ==> PATTERN_CAPACITY * q <= i && Filling(sorted, q, i - PATTERN_CAPACITY * q, slice))
    && (i == |sorted| ==> q == PatternCount(|sorted|))
  }

  lemma SplitOne(sorted: seq<Event>, i: nat, patterns: seq<Pattern>, slice: Pattern, q: nat, e: Event)
    requires i < |sorted| && SplitSoFar(sorted, i, patterns, slice, q)
    requires e == sorted[i].(time := sorted[i].time - slice.startTime)
    ensures var fuller := slice.(events := slice.events + [e]);
            if |fuller.events| >= PATTERN_CAPACITY || i == |sorted| - 1 then
              SplitSoFar(sorted, i + 1, patterns + [fuller],
                         Pattern(if i < |sorted| - 1 then sorted[i + 1].time else 0, 0, []), q + 1)
            else SplitSoFar(sorted, i + 1, patterns, fuller, q)
  {
    FillOne(sorted, q, i - PATTERN_CAPACITY * q, slice, e);
    if PATTERN_CAPACITY * (q + 1) < |sorted| {
      FillNone(sorted, q + 1);
    }
  }

  method PatternSplit(sorted: seq<Event>) returns (patterns: seq<Pattern>)
    ensures patterns == SplitUpTo(sorted, PatternCount(|sorted|))
  {
    patterns := [];
    if sorted == [] { return; }
    var events := sorted;
    var size := |events|;
    var slice := Pattern(events[0].time, 0, []);
    ghost var q: nat := 0;
    FillNone(sorted, 0);
    for i := 0 to size
      invariant |events| == size && forall k :: i <= k < size ==> events[k] == sorted[k]
      invariant SplitSoFar(sorted, i, patterns, slice, q)
    {
      events := events[i := events[i].(time := events[i].time - slice.startTime)];
      SplitOne(sorted, i, patterns, slice, q, events[i]);
      slice := slice.(events := slice.events + [events[i]]);
      if |slice.events| >= PATTERN_CAPACITY || i == size - 1 {
        patterns := patterns + [slice];
        slice := Pattern(if i < size - 1 then events[i + 1].time else 0, 0, []);
        q := q + 1;
      }
    }
  }

  lemma PlacedSlice(c: seq<Event>)
    requires c != []
    ensures Placed(Slice(c)) == c
  {
  }

  lemma FlattenOneMore(ps: seq<Pattern>, p: Pattern)
    ensures Flatten(ps + [p]) == Flatten(ps) + Placed(p)
  {
    assert (ps + [p])[..|ps|] == ps;
  }

  lemma ChunkOneMore(es: seq<Event>, q: nat)
    requires q < PatternCount(|es|)
    ensures es[..Min(PATTERN_CAPACITY * (q + 1), |es|)] == es[..Min(PATTERN_CAPACITY * q, |es|)] + Chunk(es, q)
  {
    assert PATTERN_CAPACITY * q < |es|;
  }

  lemma {:induction false} SplitFlattens(es: seq<Event>, q: nat)
    requires q <= PatternCount(|es|)
    ensures Flatten(SplitUpTo(es, q)) == es[..Min(PATTERN_CAPACITY * q, |es|)]
  {
    if q > 0 {
      SplitFlattens(es, q - 1);
      PlacedSlice(Chunk(es, q - 1));
      FlattenOneMore(SplitUpTo(es, q - 1), Slice(Chunk(es, q - 1)));
      ChunkOneMore(es, q - 1);
    }
  }

  ghost predicate WellSplit(es: seq<Event>, ps: seq<Pattern>) {
    && |ps| == (|es| + 15) / 16
    && (forall q :: 0 <= q < |ps| ==> 1 <= |ps[q].events| <= 16 && ps[q].events[0].time == 0)
    && (forall q :: 0 <= q < |ps| - 1 ==> |ps[q].events| == 16)
    && Flatten(ps) == es
  }

  lemma {:induction false} SplitShape(es: seq<Event>, n: nat, q: nat)
    requires q < n <= PatternCount(|es|)
    ensures SplitUpTo(es, n)[q] == Slice(Chunk(es, q))
  {
    if q < n - 1 {
      SplitShape(es, n - 1, q);
    }
  }

  lemma SliceShape(es: seq<Event>, q: nat)
    requires q < PatternCount(|es|)
    ensures 1 <= |Slice(Chunk(es, q)).events| <= PATTERN_CAPACITY
    ensures Slice(Chunk(es, q)).events[0].time == 0
    ensures q < PatternCount(|es|) - 1 ==> |Slice(Chunk(es, q)).events| == PATTERN_CAPACITY
  {
  }

  /** ceil(n/16) patterns, all but the last full, each opening at event time 0; put back in absolute
      time and concatenated they are the events that were split. */
  lemma SplitIsLossless(es: seq<Event>)
    ensures WellSplit(es, SplitUpTo(es, PatternCount(|es|)))
  {
    var n := PatternCount(|es|);
    SplitFlattens(es, n);
    assert es[..|es|] == es;
    forall q | 0 <= q < n
      ensures var p := SplitUpTo(es, n)[q];
              1 <= |p.events| <= PATTERN_CAPACITY && p.events[0].time == 0
              && (q < n - 1 ==> |p.events| == PATTERN_CAPACITY)
    {
      SplitShape(es, n, q);
      SliceShape(es, q);
    }
  }

  /** Decoding a file whose version and channel number have been read. */
  method DecodeEffect(channelNumber: int, channels: seq<RawChannel>)
    returns (ok: bool, package: Package, ghost parsed: seq<Event>)
    ensures ok <==> AcceptsFile(channelNumber, channels)
    ensures ok ==> DecodesAll(AllItems(channels), parsed) && package.packageDuration == TotalDuration(parsed)
    ensures ok ==> multiset(Flatten(package.patterns)) == multiset(parsed)
    ensures ok ==> StartSorted(Flatten(package.patterns)) && WellSplit(Flatten(package.patterns), package.patterns)
  {
    package, parsed := Package([], 0), [];
    if channelNumber <= 0 || channelNumber >= SUPPORT_CHANNEL_NUMBER { return false, package, parsed; }
    var sorted, parseDuration;
    ok, sorted, parseDuration, parsed := ParseChannel(channelNumber, channels);
    if !ok { return false, package, parsed; }
    var patterns := PatternSplit(sorted);
    package := Package(patterns, parseDuration);
    SplitIsLossless(sorted);
  }
}
