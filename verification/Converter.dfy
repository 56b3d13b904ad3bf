/** The conversions between the OH format and the two HE formats (haptic_format_converter), on the values
    the JSON data hold. A conversion that would look up a key that is not there gives None. */
module Converter {
  import opened Wrappers

  const EVENTS_PER_PATTERN := 16
  const MAX_PAUSE := 1000
  const TRANSIENT_DURATION := 48
  const NO_EVENT_YET := -1

  datatype OhPoint = OhPoint(time: int, intensity: Option<int>, frequency: Option<int>)

  datatype OhEvent = OhEvent(kind: string, startTime: int, duration: Option<int>, intensity: Option<int>,
                             frequency: Option<int>, curve: Option<seq<OhPoint>>)

  datatype HePoint = HePoint(time: int, intensity: int, frequency: int)

  datatype HeParameters = HeParameters(intensity: int, frequency: int, curve: Option<seq<HePoint>>)

  datatype HeEvent = HeEvent(kind: string, relativeTime: int, duration: Option<int>, index: Option<int>,
                             parameters: HeParameters)

  datatype HePattern = HePattern(absoluteTime: int, events: seq<HeEvent>)

  type Channel = seq<OhEvent>

  // ----- splitting a list of events into patterns -----

  predicate Timed(e: HeEvent) {
    e.kind == "continuous" ==> e.duration.Some?
  }

  predicate AllTimed(es: seq<HeEvent>) {
    forall k :: 0 <= k < |es| ==> Timed(es[k])
  }

  function EndOf(e: HeEvent): int
    requires Timed(e)
  {
    e.relativeTime + if e.kind == "continuous" then e.duration.value else TRANSIENT_DURATION
  }

  /** The fields the conversion to version 2 copies. */
  function Stripped(e: HeEvent): HeEvent {
    e.(duration := if e.kind == "continuous" then e.duration else None, index := None)
  }

  function AllStripped(es: seq<HeEvent>): seq<HeEvent> {
    seq(|es|, k requires 0 <= k < |es| => Stripped(es[k]))
  }

  predicate Pauses(lastEventEndTime: int, start: int) {
    lastEventEndTime != NO_EVENT_YET && start - lastEventEndTime > MAX_PAUSE
  }

  datatype Splitting = Splitting(list: seq<HePattern>, current: Option<HePattern>, lastEventEndTime: int)

  const NothingSplit := Splitting([], None, NO_EVENT_YET)

  predicate OpensPattern(s: Splitting, start: int) {
    || s.current.None? || |s.current.value.events| >= EVENTS_PER_PATTERN
    || Pauses(s.lastEventEndTime, start)
  }

  function Finish(s: Splitting): seq<HePattern> {
    if s.current.Some? then s.list + [s.current.value] else s.list
  }

  function Placed(e: HeEvent, absoluteTime: int): HeEvent {
    Stripped(e).(relativeTime := e.relativeTime - absoluteTime)
  }

  function AddEvent(s: Splitting, e: HeEvent): Splitting
    requires Timed(e)
  {
    if OpensPattern(s, e.relativeTime) then
      Splitting(Finish(s), Some(HePattern(e.relativeTime, [Placed(e, e.relativeTime)])), EndOf(e))
    else
      var c := s.current.value;
      Splitting(s.list, Some(c.(events := c.events + [Placed(e, c.absoluteTime)])), EndOf(e))
  }

  function Split(es: seq<HeEvent>): Splitting
    requires AllTimed(es)
  {
    if es == [] then NothingSplit else AddEvent(Split(es[..|es| - 1]), es[|es| - 1])
  }

  function V1ToV2(es: seq<HeEvent>): seq<HePattern>
    requires AllTimed(es)
  {
    Finish(Split(es))
  }

  method ConvertHeV1ToV2(pattern: seq<HeEvent>) returns (r: Option<seq<HePattern>>)
    ensures r.Some? <==> AllTimed(pattern)
    ensures r.Some? ==> r.value == V1ToV2(pattern)
  {
    var patternList: seq<HePattern> := [];
    var currentPattern: Option<HePattern> := None;
    var lastEventEndTime := NO_EVENT_YET;
    for k := 0 to |pattern|
      invariant AllTimed(pattern[..k])
      invariant Splitting(patternList, currentPattern, lastEventEndTime) == Split(pattern[..k])
    {
      var event := pattern[k];
      if event.kind == "continuous" && event.duration.None? { return None; }
      assert Timed(event) && pattern[..k + 1][..k] == pattern[..k];
      var start := event.relativeTime;
      if currentPattern.None? || |currentPattern.value.events| >= EVENTS_PER_PATTERN
         || (lastEventEndTime != NO_EVENT_YET && start - lastEventEndTime > MAX_PAUSE) {
        if currentPattern.Some? {
          patternList := patternList + [currentPattern.value];
        }
        currentPattern := Some(HePattern(start, []));
      }
      var copy := HeEvent(event.kind, start - currentPattern.value.absoluteTime,
                          if event.kind == "continuous" then event.duration else None, None, event.parameters);
      assert currentPattern.value.events == [] ==> currentPattern.value.events + [copy] == [copy];
      currentPattern := Some(HePattern(currentPattern.value.absoluteTime, currentPattern.value.events + [copy]));
      lastEventEndTime := start + if event.kind == "continuous" then event.duration.value else TRANSIENT_DURATION;
    }
    assert pattern[..|pattern|] == pattern;
    if currentPattern.Some? {
      patternList := patternList + [currentPattern.value];
    }
    return Some(patternList);
  }

  // ----- and back -----

  function Absolute(p: HePattern): seq<HeEvent> {
    seq(|p.events|, k requires 0 <= k < |p.events| =>
      p.events[k].(relativeTime := p.events[k].relativeTime + p.absoluteTime))
  }

  function V2ToV1(list: seq<HePattern>): seq<HeEvent> {
    if list == [] then [] else V2ToV1(list[..|list| - 1]) + Absolute(list[|list| - 1])
  }

  method ConvertHeV2ToV1(patternList: seq<HePattern>) returns (pattern: seq<HeEvent>)
    ensures pattern == V2ToV1(patternList)
  {
    pattern := [];
    for n := 0 to |patternList|
      invariant pattern == V2ToV1(patternList[..n])
    {
      assert patternList[..n + 1][..n] == patternList[..n];
      var entry := patternList[n];
      for k := 0 to |entry.events|
        invariant pattern == V2ToV1(patternList[..n]) + Absolute(entry)[..k]
      {
        var event := entry.events[k];
        event := event.(relativeTime := event.relativeTime + entry.absoluteTime);
        assert Absolute(entry)[..k + 1] == Absolute(entry)[..k] + [event];
        pattern := pattern + [event];
      }
      assert Absolute(entry)[..|entry.events|] == Absolute(entry);
    }
    assert patternList[..|patternList|] == patternList;
  }

  // ----- from OH -----

  /** Four points, the least a curve may have. */
  const DefaultCurve: seq<HePoint> := [HePoint(0, 100, 0), HePoint(1, 100, 0), HePoint(2, 100, 0), HePoint(3, 100, 0)]

  function Or(o: Option<int>, default: int): int {
    if o.Some? then o.value else default
  }

  function V1Curve(c: seq<OhPoint>): seq<HePoint> {
    seq(|c|, k requires 0 <= k < |c| => HePoint(c[k].time, Or(c[k].intensity, 0), Or(c[k].frequency, 0)))
  }

  function V2Curve(c: seq<OhPoint>): seq<HePoint> {
    if c == [] then []
    else
      var p := c[|c| - 1];
      V2Curve(c[..|c| - 1])
      + if p.intensity.Some? || p.frequency.Some? then [HePoint(p.time, Or(p.intensity, 100), Or(p.frequency, 0))] else []
  }

  predicate HasV1Keys(e: OhEvent) {
    e.intensity.Some? && e.frequency.Some? && (e.kind == "continuous" ==> e.duration.Some?)
  }

  predicate HasV2Keys(e: OhEvent) {
    e.intensity.Some? && (e.kind == "continuous" ==> e.duration.Some?)
  }

  function ToV1(e: OhEvent): HeEvent
    requires HasV1Keys(e)
  {
    var continuous := e.kind == "continuous";
    HeEvent(e.kind, e.startTime, if continuous then e.duration else None, None,
            HeParameters(e.intensity.value, e.frequency.value,
                         if !continuous then None else if e.curve.Some? then Some(V1Curve(e.curve.value)) else Some(DefaultCurve)))
  }

  /** What version 2 makes of an event, before it is placed in a pattern. */
  function ToV2(e: OhEvent): HeEvent
    requires HasV2Keys(e)
  {
    var continuous := e.kind == "continuous";
    HeEvent(e.kind, e.startTime, if continuous then e.duration else None, None,
            HeParameters(e.intensity.value, Or(e.frequency, 50),
                         if !continuous then None else if e.curve.Some? then Some(V2Curve(e.curve.value)) else Some(DefaultCurve)))
  }

  function AllEvents(channels: seq<Channel>): seq<OhEvent> {
    if channels == [] then [] else AllEvents(channels[..|channels| - 1]) + channels[|channels| - 1]
  }

  predicate AllHaveV1Keys(es: seq<OhEvent>) {
    forall k :: 0 <= k < |es| ==> HasV1Keys(es[k])
  }

  predicate AllHaveV2Keys(es: seq<OhEvent>) {
    forall k :: 0 <= k < |es| ==> HasV2Keys(es[k])
  }

  function EachToV1(es: seq<OhEvent>): seq<HeEvent>
    requires AllHaveV1Keys(es)
  {
    seq(|es|, k requires 0 <= k < |es| => ToV1(es[k]))
  }

  function EachToV2(es: seq<OhEvent>): (r: seq<HeEvent>)
    requires AllHaveV2Keys(es)
    ensures AllTimed(r)
  {
    seq(|es|, k requires 0 <= k < |es| => ToV2(es[k]))
  }

  /** Four points of full strength if the event has no curve; otherwise all its points, with intensity and
      frequency 0 where they are not stated. */
  predicate IsV1Curve(c: Option<seq<OhPoint>>, r: seq<HePoint>) {
    if c.None? then r == [HePoint(0, 100, 0), HePoint(1, 100, 0), HePoint(2, 100, 0), HePoint(3, 100, 0)]
    else
      && |r| == |c.value|
      && forall k :: 0 <= k < |r| ==>
           && r[k].time == c.value[k].time
           && (if c.value[k].intensity.Some? then c.value[k].intensity == Some(r[k].intensity) else r[k].intensity == 0)
           && (if c.value[k].frequency.Some? then c.value[k].frequency == Some(r[k].frequency) else r[k].frequency == 0)
  }

  predicate StatesAnything(p: OhPoint) {
    p.intensity.Some? || p.frequency.Some?
  }

  /** The same four points; otherwise the points that state anything, with intensity 100 and frequency 0
      where they are not stated. */
  predicate IsV2Curve(c: Option<seq<OhPoint>>, r: seq<HePoint>) {
    if c.None? then r == [HePoint(0, 100, 0), HePoint(1, 100, 0), HePoint(2, 100, 0), HePoint(3, 100, 0)]
    else
      var kept := Filtered(c.value, StatesAnything);
      && |r| == |kept|
      && forall k :: 0 <= k < |r| ==>
           && r[k].time == kept[k].time
           && (if kept[k].intensity.Some? then kept[k].intensity == Some(r[k].intensity) else r[k].intensity == 100)
           && (if kept[k].frequency.Some? then kept[k].frequency == Some(r[k].frequency) else r[k].frequency == 0)
  }

  /** Field by field: type and time, the duration of a continuous event and of no other, no index. */
  predicate IsTimedAs(e: OhEvent, r: HeEvent) {
    && r.kind == e.kind && r.relativeTime == e.startTime && r.index == None
    && (if e.kind == "continuous" then r.duration == e.duration && r.duration.Some? else r.duration == None)
    && (r.parameters.curve.Some? <==> e.kind == "continuous")
  }

  predicate IsV1Of(e: OhEvent, r: HeEvent) {
    && IsTimedAs(e, r)
    && e.intensity == Some(r.parameters.intensity) && e.frequency == Some(r.parameters.frequency)
    && (r.parameters.curve.Some? ==> IsV1Curve(e.curve, r.parameters.curve.value))
  }

  /** A frequency that is not stated is 50. */
  predicate IsV2Of(e: OhEvent, r: HeEvent) {
    && IsTimedAs(e, r)
    && e.intensity == Some(r.parameters.intensity)
    && (if e.frequency.Some? then e.frequency == Some(r.parameters.frequency) else r.parameters.frequency == 50)
    && (r.parameters.curve.Some? ==> IsV2Curve(e.curve, r.parameters.curve.value))
  }

  lemma ToV1Is(e: OhEvent)
    requires HasV1Keys(e)
    ensures IsV1Of(e, ToV1(e))
  {
  }

  lemma {:induction false} V2CurveIs(c: seq<OhPoint>)
    ensures IsV2Curve(Some(c), V2Curve(c))
  {
    if c != [] {
      V2CurveIs(c[..|c| - 1]);
    }
  }

  lemma ToV2Is(e: OhEvent)
    requires HasV2Keys(e)
    ensures IsV2Of(e, ToV2(e))
  {
    if e.curve.Some? {
      V2CurveIs(e.curve.value);
    }
  }

  method ConvertCurveV1(c: seq<OhPoint>) returns (r: seq<HePoint>)
    ensures r == V1Curve(c)
  {
    r := [];
    for k := 0 to |c|
      invariant r == V1Curve(c[..k])
    {
      r := r + [HePoint(c[k].time, Or(c[k].intensity, 0), Or(c[k].frequency, 0))];
    }
    assert c[..|c|] == c;
  }

  method ConvertCurveV2(c: seq<OhPoint>) returns (r: seq<HePoint>)
    ensures r == V2Curve(c)
  {
    r := [];
    for k := 0 to |c|
      invariant r == V2Curve(c[..k])
    {
      assert c[..k + 1][..k] == c[..k];
      if c[k].intensity.Some? || c[k].frequency.Some? {
        r := r + [HePoint(c[k].time, Or(c[k].intensity, 100), Or(c[k].frequency, 0))];
      }
    }
    assert c[..|c|] == c;
  }

  method ConvertEventV1(e: OhEvent) returns (r: Option<HeEvent>)
    ensures r.Some? <==> HasV1Keys(e)
    ensures r.Some? ==> r.value == ToV1(e) && IsV1Of(e, r.value)
  {
    if HasV1Keys(e) {
      ToV1Is(e);
    }
    if e.intensity.None? || e.frequency.None? { return None; }
    var heEvent := HeEvent(e.kind, e.startTime, None, None, HeParameters(e.intensity.value, e.frequency.value, None));
    if e.kind == "continuous" {
      if e.duration.None? { return None; }
      var curve := DefaultCurve;
      if e.curve.Some? {
        curve := ConvertCurveV1(e.curve.value);
      }
      heEvent := heEvent.(duration := e.duration, parameters := heEvent.parameters.(curve := Some(curve)));
    }
    return Some(heEvent);
  }

  method ConvertOhToHeV1(channels: seq<Channel>) returns (r: Option<seq<HeEvent>>)
    ensures r.Some? <==> AllHaveV1Keys(AllEvents(channels))
    ensures r.Some? ==> r.value == EachToV1(AllEvents(channels))
  {
    var pattern: seq<HeEvent> := [];
    ghost var all := AllEvents(channels);
    for n := 0 to |channels|
      invariant AllEvents(channels[..n]) <= all
      invariant AllHaveV1Keys(AllEvents(channels[..n])) && pattern == EachToV1(AllEvents(channels[..n]))
    {
      EventsUpTo(channels, n);
      ghost var before := AllEvents(channels[..n]);
      for k := 0 to |channels[n]|
        invariant AllHaveV1Keys(before + channels[n][..k]) && pattern == EachToV1(before + channels[n][..k])
      {
        assert all[|before| + k] == channels[n][k];
        var event := ConvertEventV1(channels[n][k]);
        if event.None? { return None; }
        assert before + channels[n][..k + 1] == before + channels[n][..k] + [channels[n][k]];
        pattern := pattern + [event.value];
      }
      assert channels[n][..|channels[n]|] == channels[n];
    }
    assert channels[..|channels|] == channels;
    return Some(pattern);
  }

  lemma {:induction false} EventsUpTo(channels: seq<Channel>, n: nat)
    requires n < |channels|
    ensures AllEvents(channels[..n + 1]) == AllEvents(channels[..n]) + channels[n]
    ensures AllEvents(channels[..n + 1]) <= AllEvents(channels)
    decreases |channels| - n
  {
    assert channels[..n + 1][..n] == channels[..n];
    if n + 1 < |channels| {
      EventsUpTo(channels, n + 1);
    } else {
      assert channels[..n + 1] == channels;
    }
  }

  method ConvertEventV2(e: OhEvent, absoluteTime: int) returns (r: HeEvent)
    requires HasV2Keys(e)
    ensures r == Placed(ToV2(e), absoluteTime)
  {
    if e.kind == "continuous" {
      var curve := DefaultCurve;
      if e.curve.Some? {
        curve := ConvertCurveV2(e.curve.value);
      }
      return HeEvent(e.kind, e.startTime - absoluteTime, e.duration, None,
                     HeParameters(e.intensity.value, Or(e.frequency, 50), Some(curve)));
    } else {
      return HeEvent(e.kind, e.startTime - absoluteTime, None, None,
                     HeParameters(e.intensity.value, Or(e.frequency, 50), None));
    }
  }

  /** One event of the loop over all channels. */
  method SplitOff(s: Splitting, e: OhEvent) returns (r: Option<Splitting>)
    ensures r.Some? <==> HasV2Keys(e)
    ensures r.Some? ==> r.value == AddEvent(s, ToV2(e))
  {
    if e.kind == "continuous" && e.duration.None? { return None; }
    var patternList, currentPattern := s.list, s.current;
    var start := e.startTime;
    var end := start + if e.kind == "continuous" then e.duration.value else TRANSIENT_DURATION;
    if currentPattern.None? || |currentPattern.value.events| >= EVENTS_PER_PATTERN
       || (s.lastEventEndTime != NO_EVENT_YET && start - s.lastEventEndTime > MAX_PAUSE) {
      if currentPattern.Some? {
        patternList := patternList + [currentPattern.value];
      }
      currentPattern := Some(HePattern(start, []));
    }
    if e.intensity.None? { return None; }
    var heEvent := ConvertEventV2(e, currentPattern.value.absoluteTime);
    assert currentPattern.value.events == [] ==> currentPattern.value.events + [heEvent] == [heEvent];
    currentPattern := Some(HePattern(currentPattern.value.absoluteTime, currentPattern.value.events + [heEvent]));
    return Some(Splitting(patternList, currentPattern, end));
  }

  method SplitChannel(s: Splitting, channel: Channel, ghost before: seq<OhEvent>) returns (r: Option<Splitting>)
    requires AllHaveV2Keys(before) && s == Split(EachToV2(before))
    ensures r.Some? <==> AllHaveV2Keys(channel)
    ensures r.Some? ==> AllHaveV2Keys(before + channel) && r.value == Split(EachToV2(before + channel))
  {
    var now := s;
    assert before + channel[..0] == before;
    for k := 0 to |channel|
      invariant AllHaveV2Keys(channel[..k]) && AllHaveV2Keys(before + channel[..k])
      invariant now == Split(EachToV2(before + channel[..k]))
    {
      var next := SplitOff(now, channel[k]);
      if next.None? { return None; }
      SplitNext(before + channel[..k], channel[k]);
      assert before + channel[..k + 1] == before + channel[..k] + [channel[k]];
      now := next.value;
    }
    assert channel[..|channel|] == channel;
    return Some(now);
  }

  method ConvertOhToHeV2(channels: seq<Channel>) returns (r: Option<seq<HePattern>>)
    ensures r.Some? <==> AllHaveV2Keys(AllEvents(channels))
    ensures r.Some? ==> r.value == V1ToV2(EachToV2(AllEvents(channels)))
  {
    var s := NothingSplit;
    for n := 0 to |channels|
      invariant AllHaveV2Keys(AllEvents(channels[..n])) && s == Split(EachToV2(AllEvents(channels[..n])))
    {
      EventsUpTo(channels, n);
      if AllHaveV2Keys(AllEvents(channels)) {
        ChannelHasKeys(channels, n);
      }
      var next := SplitChannel(s, channels[n], AllEvents(channels[..n]));
      if next.None? { return None; }
      s := next.value;
    }
    assert channels[..|channels|] == channels;
    return Some(Finish(s));
  }

  lemma ChannelHasKeys(channels: seq<Channel>, n: nat)
    requires n < |channels| && AllHaveV2Keys(AllEvents(channels))
    ensures AllHaveV2Keys(channels[n])
  {
    EventsUpTo(channels, n);
    KeysOfPart(AllEvents(channels[..n]), channels[n], AllEvents(channels));
  }

  lemma KeysOfPart(before: seq<OhEvent>, part: seq<OhEvent>, all: seq<OhEvent>)
    requires before + part <= all && AllHaveV2Keys(all)
    ensures AllHaveV2Keys(part)
  {
    forall k | 0 <= k < |part| ensures HasV2Keys(part[k]) {
      assert (before + part)[|before| + k] == all[|before| + k];
    }
  }

  lemma SplitNext(es: seq<OhEvent>, e: OhEvent)
    requires AllHaveV2Keys(es) && HasV2Keys(e)
    ensures AllHaveV2Keys(es + [e])
    ensures Split(EachToV2(es + [e])) == AddEvent(Split(EachToV2(es)), ToV2(e))
  {
    var r := EachToV2(es + [e]);
    assert r[..|r| - 1] == EachToV2(es);
  }
}
