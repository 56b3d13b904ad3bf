/** Marshalling and unmarshalling with a parcel's cursor. */
module Parcels {
  import opened Wrappers
  import opened Haptics
  import opened ParcelCodec

  class Parcel {
    const capacity: nat
    var data: seq<int>
    var cursor: nat

    constructor (capacity: nat)
      ensures Valid() && this.capacity == capacity && data == [] && Unread() == []
    {
      this.capacity, data, cursor := capacity, [], 0;
    }

    ghost predicate Valid()
      reads this
    {
      cursor <= |data| <= capacity
    }

    /** What has not been read yet. */
    ghost function Unread(): seq<int>
      reads this
      requires Valid()
    {
      data[cursor..]
    }

    /** Fails when there is no room left. */
    method WriteInt32(v: int) returns (ok: bool)
      requires Valid()
      modifies `data
      ensures Valid() && (ok <==> |old(data)| < capacity)
      ensures data == if ok then old(data) + [v] else old(data)
    {
      ok := |data| < capacity;
      if ok {
        data := data + [v];
      }
    }

    /** Fails, without moving, at the end of the data. */
    method ReadInt32() returns (ok: bool, v: int)
      requires Valid()
      modifies `cursor
      ensures Valid()
      ensures ok <==> old(Unread()) != []
      ensures ok ==> v == old(Unread())[0] && Unread() == old(Unread())[1..]
      ensures !ok ==> v == 0 && Unread() == old(Unread())
    {
      if cursor == |data| { return false, 0; }
      ok, v := true, data[cursor];
      cursor := cursor + 1;
    }
  }

  // ----- writing -----

  /** All of the target has been written, or as much of it as there was room for. */
  ghost predicate Wrote(now: seq<int>, capacity: nat, ok: bool, target: seq<int>) {
    if ok then now == target else now < target && |now| == capacity
  }

  /** A first part of what is to be written has been. */
  lemma WrotePart(before: seq<int>, now: seq<int>, capacity: nat, ok: bool, part: seq<int>, rest: seq<int>,
                  target: seq<int>)
    requires before + (part + rest) == target && Wrote(now, capacity, ok, before + part)
    ensures if ok then now + rest == target else Wrote(now, capacity, false, target)
  {
    Assoc(before, part, rest);
    assert before + part <= target;
  }

  method WriteInts(parcel: Parcel, vs: seq<int>) returns (ok: bool)
    requires parcel.Valid()
    modifies parcel`data
    ensures parcel.Valid() && Wrote(parcel.data, parcel.capacity, ok, old(parcel.data) + vs)
  {
    ghost var before := parcel.data;
    ok := true;
    for k := 0 to |vs|
      invariant parcel.Valid() && ok && parcel.data == before + vs[..k]
    {
      ok := parcel.WriteInt32(vs[k]);
      if !ok { return; }
    }
  }

  lemma FirstPoint(ps: seq<Point>, k: nat)
    requires k < |ps|
    ensures EncodePoints(ps[k..]) == EncodePoint(ps[k]) + EncodePoints(ps[k + 1..])
  {
    assert ps[k..][1..] == ps[k + 1..];
  }

  method MarshalPoints(parcel: Parcel, ps: seq<Point>) returns (ok: bool)
    requires parcel.Valid()
    modifies parcel`data
    ensures parcel.Valid() && Wrote(parcel.data, parcel.capacity, ok, old(parcel.data) + EncodePoints(ps))
  {
    ghost var target := parcel.data + EncodePoints(ps);
    assert ps[0..] == ps;
    ok := true;
    for k := 0 to |ps|
      invariant parcel.Valid() && ok && parcel.data + EncodePoints(ps[k..]) == target
    {
      ghost var before := parcel.data;
      FirstPoint(ps, k);
      ok := WriteInts(parcel, [ps[k].time, ps[k].intensity, ps[k].frequency]);
      WrotePart(before, parcel.data, parcel.capacity, ok, EncodePoint(ps[k]), EncodePoints(ps[k + 1..]), target);
      if !ok { return; }
    }
    assert parcel.data + [] == parcel.data;
  }

  method MarshalEvent(parcel: Parcel, e: Event) returns (ok: bool)
    requires parcel.Valid()
    modifies parcel`data
    ensures parcel.Valid() && Wrote(parcel.data, parcel.capacity, ok, old(parcel.data) + EncodeEvent(e))
  {
    ghost var before := parcel.data;
    var fields := [TagCode(e.tag), e.time, e.duration, e.intensity, e.frequency, e.index, |e.points|];
    ok := WriteInts(parcel, fields);
    WrotePart(before, parcel.data, parcel.capacity, ok, fields, EncodePoints(e.points), before + EncodeEvent(e));
    if !ok { return; }
    ok := MarshalPoints(parcel, e.points);
  }

  lemma FirstEvent(es: seq<Event>, k: nat)
    requires k < |es|
    ensures EncodeEvents(es[k..]) == EncodeEvent(es[k]) + EncodeEvents(es[k + 1..])
  {
    assert es[k..][1..] == es[k + 1..];
  }

  method MarshalEvents(parcel: Parcel, es: seq<Event>) returns (ok: bool)
    requires parcel.Valid()
    modifies parcel`data
    ensures parcel.Valid() && Wrote(parcel.data, parcel.capacity, ok, old(parcel.data) + EncodeEvents(es))
  {
    ghost var target := parcel.data + EncodeEvents(es);
    assert es[0..] == es;
    ok := true;
    for k := 0 to |es|
      invariant parcel.Valid() && ok && parcel.data + EncodeEvents(es[k..]) == target
    {
      ghost var before := parcel.data;
      FirstEvent(es, k);
      ok := MarshalEvent(parcel, es[k]);
      WrotePart(before, parcel.data, parcel.capacity, ok, EncodeEvent(es[k]), EncodeEvents(es[k + 1..]), target);
      if !ok { return; }
    }
    assert parcel.data + [] == parcel.data;
  }

  /** VibratePattern::Marshalling: all of the pattern, or what there is room for, and then it reports so. */
  method MarshalPattern(parcel: Parcel, p: Pattern) returns (ok: bool)
    requires parcel.Valid()
    modifies parcel`data
    ensures parcel.Valid() && Wrote(parcel.data, parcel.capacity, ok, old(parcel.data) + EncodePattern(p))
  {
    ghost var before := parcel.data;
    var head := [p.startTime, p.patternDuration, |p.events|];
    ok := WriteInts(parcel, head);
    WrotePart(before, parcel.data, parcel.capacity, ok, head, EncodeEvents(p.events), before + EncodePattern(p));
    if !ok { return; }
    ok := MarshalEvents(parcel, p.events);
  }

  lemma FirstPattern(ps: seq<Pattern>, k: nat)
    requires k < |ps|
    ensures EncodePatterns(ps[k..]) == EncodePattern(ps[k]) + EncodePatterns(ps[k + 1..])
  {
    assert ps[k..][1..] == ps[k + 1..];
  }

  method MarshalPatterns(parcel: Parcel, ps: seq<Pattern>) returns (ok: bool)
    requires parcel.Valid()
    modifies parcel`data
    ensures parcel.Valid() && Wrote(parcel.data, parcel.capacity, ok, old(parcel.data) + EncodePatterns(ps))
  {
    ghost var target := parcel.data + EncodePatterns(ps);
    assert ps[0..] == ps;
    ok := true;
    for k := 0 to |ps|
      invariant parcel.Valid() && ok && parcel.data + EncodePatterns(ps[k..]) == target
    {
      ghost var before := parcel.data;
      FirstPattern(ps, k);
      ok := MarshalPattern(parcel, ps[k]);
      WrotePart(before, parcel.data, parcel.capacity, ok, EncodePattern(ps[k]), EncodePatterns(ps[k + 1..]), target);
      if !ok { return; }
    }
    assert parcel.data + [] == parcel.data;
  }

  /** VibratePackage::Marshalling */
  method MarshalPackage(parcel: Parcel, p: Package) returns (ok: bool)
    requires parcel.Valid()
    modifies parcel`data
    ensures parcel.Valid() && Wrote(parcel.data, parcel.capacity, ok, old(parcel.data) + EncodePackage(p))
  {
    ghost var before := parcel.data;
    var head := [p.packageDuration, |p.patterns|];
    ok := WriteInts(parcel, head);
    WrotePart(before, parcel.data, parcel.capacity, ok, head, EncodePatterns(p.patterns), before + EncodePackage(p));
    if !ok { return; }
    ok := MarshalPatterns(parcel, p.patterns);
  }

  // ----- reading -----

  /** What has been read so far, put before what the rest decodes to. */
  function Ahead<T>(done: seq<T>, r: Read<seq<T>>): Read<seq<T>> {
    if r.Fail? then Fail else Got(done + r.value, r.rest)
  }

  /** The method's result is that of the decoding function; on success the cursor stands after it. */
  ghost predicate Reads<T>(parcel: Parcel, ok: bool, value: T, r: Read<T>)
    requires parcel.Valid()
    reads parcel
  {
    (ok <==> r.Got?) && (ok ==> r == Got(value, parcel.Unread()))
  }

  method UnmarshalPoint(parcel: Parcel) returns (ok: bool, p: Point)
    requires parcel.Valid()
    modifies parcel`cursor
    ensures parcel.Valid() && Reads(parcel, ok, p, DecodePoint(old(parcel.Unread())))
  {
    p := Point(0, 0, 0);
    var time, intensity, frequency;
    ok, time := parcel.ReadInt32();
    if !ok { return; }
    ok, intensity := parcel.ReadInt32();
    if !ok { return; }
    ok, frequency := parcel.ReadInt32();
    p := Point(time, intensity, frequency);
  }

  lemma AheadOne<T>(done: seq<T>, x: T, r: Read<seq<T>>)
    ensures Ahead(done + [x], r) == Ahead(done, if r.Fail? then Fail else Got([x] + r.value, r.rest))
  {
    if r.Got? {
      assert done + ([x] + r.value) == done + [x] + r.value;
    }
  }

  lemma NothingAhead<T>(r: Read<seq<T>>, done: seq<T>, rest: seq<int>)
    ensures Ahead([], r) == r
    ensures Ahead(done, Got([], rest)) == Got(done, rest)
  {
    assert r.Got? ==> [] + r.value == r.value;
    assert done + [] == done;
  }

  method UnmarshalPoints(parcel: Parcel, n: int) returns (ok: bool, points: seq<Point>)
    requires parcel.Valid()
    modifies parcel`cursor
    ensures parcel.Valid() && Reads(parcel, ok, points, DecodePoints(old(parcel.Unread()), n))
  {
    points := [];
    ghost var whole := DecodePoints(parcel.Unread(), n);
    var k := 0;
    NothingAhead(whole, points, []);
    while k < n
      invariant 0 <= k && (n >= 0 ==> k <= n) && (n < 0 ==> k == 0) && parcel.Valid()
      invariant whole == Ahead(points, DecodePoints(parcel.Unread(), n - k))
    {
      var p;
      ok, p := UnmarshalPoint(parcel);
      if !ok { return; }
      AheadOne(points, p, DecodePoints(parcel.Unread(), n - k - 1));
      points := points + [p];
      k := k + 1;
    }
    NothingAhead(whole, points, parcel.Unread());
    ok := true;
  }

  /** The numbers that follow the tag of an event. */
  method ReadFields(parcel: Parcel) returns (ok: bool, fields: seq<int>)
    requires parcel.Valid()
    modifies parcel`cursor
    ensures parcel.Valid() && (ok <==> |old(parcel.Unread())| >= 6)
    ensures ok ==> fields == old(parcel.Unread())[..6] && parcel.Unread() == old(parcel.Unread())[6..]
  {
    fields := [];
    ghost var s := parcel.Unread();
    for k := 0 to 6
      invariant parcel.Valid() && |s| >= k && parcel.Unread() == s[k..] && fields == s[..k]
    {
      var v;
      ok, v := parcel.ReadInt32();
      if !ok { return; }
      fields := fields + [v];
    }
    ok := true;
  }

  method UnmarshalEvent(parcel: Parcel, strict: bool) returns (ok: bool, e: Event)
    requires parcel.Valid()
    modifies parcel`cursor
    ensures parcel.Valid() && Reads(parcel, ok, e, DecodeEvent(old(parcel.Unread()), strict))
  {
    e := Event(UnknownTag, 0, 0, 0, 0, 0, []);
    ghost var s := parcel.Unread();
    var tag;
    ok, tag := parcel.ReadInt32();
    if !ok { return; }
    if tag != 0 && tag != 1 { return false, e; }
    var fields;
    ok, fields := ReadFields(parcel);
    if !ok { return; }
    assert fields == s[1..7] && parcel.Unread() == s[7..];
    var pointSize := fields[5];
    if pointSize > MAX_POINT_SIZE || (strict && pointSize < 0) { return false, e; }
    var points;
    ok, points := UnmarshalPoints(parcel, pointSize);
    e := Event(if tag == 0 then Continuous else Transient, fields[0], fields[1], fields[2], fields[3], fields[4], points);
  }

  /** One more event has been read, or could not be. */
  lemma EventRead(whole: Read<seq<Event>>, done: seq<Event>, s: seq<int>, n: int, strict: bool,
                  ok: bool, e: Event, rest: seq<int>)
    requires n > 0 && whole == Ahead(done, DecodeEvents(s, n, strict))
    requires (ok <==> DecodeEvent(s, strict).Got?) && (ok ==> DecodeEvent(s, strict) == Got(e, rest))
    ensures !ok ==> whole.Fail?
    ensures ok ==> whole == Ahead(done + [e], DecodeEvents(rest, n - 1, strict))
  {
    if ok {
      AheadOne(done, e, DecodeEvents(rest, n - 1, strict));
    }
  }

  /** One turn of the loop over the events. */
  method UnmarshalNextEvent(parcel: Parcel, strict: bool, events: seq<Event>, ghost whole: Read<seq<Event>>, ghost n: int)
    returns (ok: bool, more: seq<Event>)
    requires parcel.Valid() && n > 0 && whole == Ahead(events, DecodeEvents(parcel.Unread(), n, strict))
    modifies parcel`cursor
    ensures parcel.Valid() && (!ok ==> whole.Fail?)
    ensures ok ==> whole == Ahead(more, DecodeEvents(parcel.Unread(), n - 1, strict))
  {
    ghost var s := parcel.Unread();
    var e;
    ok, e := UnmarshalEvent(parcel, strict);
    EventRead(whole, events, s, n, strict, ok, e, parcel.Unread());
    more := events + [e];
  }

  method UnmarshalEvents(parcel: Parcel, n: int, strict: bool) returns (ok: bool, events: seq<Event>)
    requires parcel.Valid()
    modifies parcel`cursor
    ensures parcel.Valid() && Reads(parcel, ok, events, DecodeEvents(old(parcel.Unread()), n, strict))
  {
    events := [];
    ghost var whole := DecodeEvents(parcel.Unread(), n, strict);
    var k := 0;
    NothingAhead(whole, events, []);
    while k < n
      invariant 0 <= k && (n >= 0 ==> k <= n) && (n < 0 ==> k == 0) && parcel.Valid()
      invariant whole == Ahead(events, DecodeEvents(parcel.Unread(), n - k, strict))
    {
      ok, events := UnmarshalNextEvent(parcel, strict, events, whole, n - k);
      if !ok { return; }
      k := k + 1;
    }
    NothingAhead(whole, events, parcel.Unread());
    ok := true;
  }

  /** VibratePattern::Unmarshalling when not strict; the same reading inside a package when strict. */
  method UnmarshalPattern(parcel: Parcel, strict: bool) returns (ok: bool, p: Pattern)
    requires parcel.Valid()
    modifies parcel`cursor
    ensures parcel.Valid() && Reads(parcel, ok, p, DecodePattern(old(parcel.Unread()), strict))
  {
    p := Pattern(0, 0, []);
    var startTime, patternDuration, eventSize;
    ok, startTime := parcel.ReadInt32();
    if !ok { return; }
    ok, patternDuration := parcel.ReadInt32();
    if !ok { return; }
    ok, eventSize := parcel.ReadInt32();
    if !ok { return; }
    if eventSize > MAX_EVENT_SIZE || (strict && eventSize < 0) { return false, p; }
    var events;
    ok, events := UnmarshalEvents(parcel, eventSize, strict);
    p := Pattern(startTime, patternDuration, events);
  }

  method UnmarshalPatterns(parcel: Parcel, patternNum: nat) returns (ok: bool, patterns: seq<Pattern>)
    requires parcel.Valid()
    modifies parcel`cursor
    ensures parcel.Valid() && Reads(parcel, ok, patterns, DecodePatterns(old(parcel.Unread()), patternNum))
  {
    patterns := [];
    ghost var whole := DecodePatterns(parcel.Unread(), patternNum);
    NothingAhead(whole, patterns, []);
    for k := 0 to patternNum
      invariant parcel.Valid() && whole == Ahead(patterns, DecodePatterns(parcel.Unread(), patternNum - k))
    {
      var q;
      ok, q := UnmarshalPattern(parcel, true);
      if !ok { return; }
      AheadOne(patterns, q, DecodePatterns(parcel.Unread(), patternNum - k - 1));
      patterns := patterns + [q];
    }
    NothingAhead(whole, patterns, parcel.Unread());
    ok := true;
  }

  /** VibratePackage::Unmarshalling */
  method UnmarshalPackage(parcel: Parcel) returns (ok: bool, p: Package)
    requires parcel.Valid()
    modifies parcel`cursor
    ensures parcel.Valid() && Reads(parcel, ok, p, DecodePackage(old(parcel.Unread())))
  {
    p := Package([], 0);
    var packageDuration, patternNum;
    ok, packageDuration := parcel.ReadInt32();
    if !ok { return; }
    ok, patternNum := parcel.ReadInt32();
    if !ok { return; }
    if patternNum < 0 || patternNum > MAX_PATTERN_NUM { return false, p; }
    var patterns;
    ok, patterns := UnmarshalPatterns(parcel, patternNum);
    p := Package(patterns, packageDuration);
  }
}
