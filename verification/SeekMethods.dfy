/** SeekTimeOnPackage on the client structures. */
module SeekMethods {
  import opened Haptics
  import opened MixedWave
  import opened Seek
  import opened ClientStructs

  /** Copies the first pointNum points of an event. */
  method CopyPoints(m: Memory, e: VibratorEvent) returns (points: seq<Point>)
    requires EventReadable(m, e)
    ensures points == EventView(m, e).points
  {
    points := [];
    for k := 0 to e.pointNum
      invariant points == if k == 0 then [] else m.points[e.points][..k]
    {
      points := points + [m.points[e.points][k]];
    }
  }

  method ConvertVibratorPattern(m: Memory, p: VibratorPattern) returns (r: Pattern)
    requires PatternReadable(m, p)
    ensures r == Verbatim(PatternView(m, p))
  {
    r := Pattern(p.time, p.patternDuration, []);
    if p.eventNum < 0 || p.eventNum > MAX_PATTERN_EVENT_NUM { return; }
    if p.events == NULL { return; }
    ghost var views := PatternView(m, p).events;
    for j := 0 to p.eventNum
      invariant r == Pattern(p.time, p.patternDuration, views[..j])
    {
      var e := m.events[p.events][j];
      var points := CopyPoints(m, e);
      r := r.(events := r.events
        + [Event(e.kind, e.time, e.duration, e.intensity, e.frequency, e.index, points)]);
    }
  }

  method SkipEventAndConvertVibratorEvent(m: Memory, e: VibratorEvent, startTime: int, patternStartTime: int)
    returns (skip: bool, kept: seq<Event>, duration: int)
    ensures skip <==> Begun(EventView(m, e), patternStartTime, startTime)
    ensures skip ==> kept == Remains(EventView(m, e), patternStartTime, startTime) && duration == TotalDuration(kept)
  {
    var eventStartTime := e.time + patternStartTime;
    kept, duration := [], 0;
    if startTime > eventStartTime {
      if e.kind == Continuous && eventStartTime + e.duration - startTime >= MIN_VIBRATOR_EVENT_TIME {
        duration := eventStartTime + e.duration - startTime;
        kept := [Event(e.kind, 0, duration, e.intensity, e.frequency, e.index, [])];
        assert kept[..0] == [];
      }
      return true, kept, duration;
    }
    skip := false;
  }

  /** What the loop over the events of a pattern does with one of them. */
  method CutEvent(m: Memory, e: VibratorEvent, patternStartTime: int, seekTime: int, packageDuration: int)
    returns (kept: seq<Event>, keptDuration: int, duration: int)
    requires EventReadable(m, e)
    ensures kept == Remains(EventView(m, e), patternStartTime, seekTime) && keptDuration == TotalDuration(kept)
    ensures duration == DurationAfter(packageDuration, EventView(m, e), patternStartTime, seekTime)
  {
    duration := packageDuration;
    var skip;
    skip, kept, keptDuration := SkipEventAndConvertVibratorEvent(m, e, seekTime, patternStartTime);
    if skip {
      TotalOfRemains(EventView(m, e), patternStartTime, seekTime);
      duration := duration - e.duration;
      duration := duration + keptDuration;
      duration := if duration < 0 then 0 else duration;
      return;
    }
    var points: seq<Point> := [];
    if !(e.pointNum < CURVE_POINT_NUM_MIN || e.pointNum > CURVE_POINT_NUM_MAX) {
      points := CopyPoints(m, e);
    }
    kept := [Event(e.kind, e.time + patternStartTime - seekTime, e.duration, e.intensity, e.frequency, e.index, points)];
    keptDuration := e.duration;
    assert kept[..0] == [];
  }

  lemma CutOneMore(es: seq<Event>, j: nat, t: int, s: int, duration: int)
    requires j < |es|
    ensures CutEvents(es[..j + 1], t, s) == CutEvents(es[..j], t, s) + Remains(es[j], t, s)
    ensures DurationOver(duration, es[..j + 1], t, s) == DurationAfter(DurationOver(duration, es[..j], t, s), es[j], t, s)
    ensures TotalDuration(CutEvents(es[..j + 1], t, s))
         == TotalDuration(CutEvents(es[..j], t, s)) + TotalDuration(Remains(es[j], t, s))
  {
    assert es[..j + 1][..j] == es[..j];
    TotalJoin(CutEvents(es[..j], t, s), Remains(es[j], t, s));
  }

  /** The loop over the events of a pattern that began before the seek time. */
  method CutPatternEvents(m: Memory, p: VibratorPattern, seekTime: int, packageDuration: int)
    returns (es: seq<Event>, patternDuration: int, duration: int)
    requires PatternReadable(m, p) && 0 < p.eventNum <= EVENT_NUM_MAX
    ensures var views := PatternView(m, p).events;
            && es == CutEvents(views, p.time, seekTime)
            && duration == DurationOver(packageDuration, views, p.time, seekTime)
            && patternDuration == TotalDuration(es)
  {
    es, patternDuration, duration := [], 0, packageDuration;
    ghost var views := PatternView(m, p).events;
    for j := 0 to p.eventNum
      invariant es == CutEvents(views[..j], p.time, seekTime)
      invariant duration == DurationOver(packageDuration, views[..j], p.time, seekTime)
      invariant patternDuration == TotalDuration(es)
    {
      CutOneMore(views, j, p.time, seekTime, packageDuration);
      var kept, keptDuration;
      kept, keptDuration, duration := CutEvent(m, m.events[p.events][j], p.time, seekTime, duration);
      es := es + kept;
      patternDuration := patternDuration + keptDuration;
    }
    assert views[..p.eventNum] == views;
  }

  lemma CutOneMorePattern(ps: seq<Pattern>, i: nat, s: int, duration: int)
    requires i < |ps|
    ensures CutPatterns(ps[..i + 1], s) == CutPatterns(ps[..i], s) + CutPattern(ps[i], s)
    ensures DurationOfPatterns(duration, ps[..i + 1], s)
         == DurationOfPattern(DurationOfPatterns(duration, ps[..i], s), ps[i], s)
  {
    assert ps[..i + 1][..i] == ps[..i];
  }

  /** The loop over the patterns, for one of them. */
  method SeekPattern(m: Memory, q: VibratorPattern, seekTime: int, packageDuration: int)
    returns (kept: seq<Pattern>, duration: int)
    requires PatternReadable(m, q)
    ensures kept == CutPattern(PatternView(m, q), seekTime)
    ensures duration == DurationOfPattern(packageDuration, PatternView(m, q), seekTime)
  {
    kept, duration := [], packageDuration;
    if q.time >= seekTime {
      var pattern := ConvertVibratorPattern(m, q);
      return [pattern], duration;
    }
    if q.eventNum <= 0 || q.eventNum > EVENT_NUM_MAX { return; }
    var es, patternDuration;
    es, patternDuration, duration := CutPatternEvents(m, q, seekTime, packageDuration);
    if es != [] {
      kept := [Pattern(seekTime, patternDuration, es)];
    }
  }

  method ConvertSeekVibratorPackage(m: Memory, p: VibratorPackage, seekTime: int) returns (r: Package)
    requires PackageReadable(m, p)
    ensures r == Converted(PackageView(m, p), seekTime)
  {
    r := Package([], p.packageDuration);
    if p.patternNum < 0 || p.patternNum > MAX_PATTERN_NUM { return; }
    ghost var views := PackageView(m, p).patterns;
    for i := 0 to p.patternNum
      invariant r.patterns == CutPatterns(views[..i], seekTime)
      invariant r.packageDuration == DurationOfPatterns(p.packageDuration, views[..i], seekTime)
    {
      CutOneMorePattern(views, i, seekTime, p.packageDuration);
      var kept, duration := SeekPattern(m, m.patterns[p.patterns][i], seekTime, r.packageDuration);
      r := Package(r.patterns + kept, duration);
    }
    assert views[..p.patternNum] == views;
  }

  // ----- back to client structures -----

  method AllocPoints(heap: Heap, s: seq<Point>) returns (p: Pointer)
    requires heap.Valid()
    modifies heap
    ensures heap.Valid() && p != NULL && !IsLive(old(heap.mem), p)
    ensures heap.mem == old(heap.mem).(points := old(heap.mem).points[p := s])
  {
    p := heap.CallocPoints(|s|);
    for k := 0 to |s|
      invariant heap.Valid()
      invariant p in heap.mem.points && |heap.mem.points[p]| == |s| && heap.mem.points[p][..k] == s[..k]
      invariant heap.mem == old(heap.mem).(points := old(heap.mem).points[p := heap.mem.points[p]])
    {
      heap.PutPoint(p, k, s[k]);
    }
    assert heap.mem.points[p] == s;
  }

  /** The structure stands for the event, on a block of its own. */
  ghost predicate Holds(m: Memory, c: VibratorEvent, e: Event) {
    EventReadable(m, c) && EventView(m, c) == e && c.points != NULL && c.points in m.points
  }

  /** The point blocks of the first n events are new since before, and no two of them the same. */
  ghost predicate OwnPoints(before: Memory, now: Memory, es: seq<VibratorEvent>, n: nat)
    requires n <= |es|
  {
    && (forall k :: 0 <= k < n ==> es[k].points in now.points && !IsLive(before, es[k].points))
    && (forall a, b :: 0 <= a < b < n ==> es[a].points != es[b].points)
  }

  /** The first n events of the block stand for those given, each on a point block of its own. */
  ghost predicate EventsFilled(before: Memory, now: Memory, block: Pointer, es: seq<Event>, n: nat) {
    && Extends(before, now) && block in now.events && n <= |now.events[block]| == |es|
    && (forall k :: 0 <= k < n ==> Holds(now, now.events[block][k], es[k]))
    && OwnPoints(before, now, now.events[block], n)
  }

  lemma EventFilled(before: Memory, m: Memory, now: Memory, block: Pointer, es: seq<Event>, n: nat, c: VibratorEvent)
    requires EventsFilled(before, m, block, es, n) && n < |es| && block !in before.events
    requires !IsLive(m, c.points) && c.points != NULL && c == ClientEvent(es[n], c.points)
    requires now == m.(points := m.points[c.points := es[n].points],
                       events := m.events[block := m.events[block][n := c]])
    ensures EventsFilled(before, now, block, es, n + 1)
  {
    var cs := m.events[block];
    forall k | 0 <= k < n ensures Holds(now, cs[k], es[k]) && cs[k].points != c.points {
      assert Holds(m, cs[k], es[k]);
    }
  }

  /** The structure of an event whose points are in the block. */
  function ClientEvent(e: Event, points: Pointer): VibratorEvent {
    VibratorEvent(e.tag, e.time, e.duration, e.intensity, e.frequency, e.index, |e.points|, points)
  }

  method AllocEvents(heap: Heap, es: seq<Event>) returns (p: Pointer)
    requires heap.Valid()
    modifies heap
    ensures heap.Valid() && p != NULL && !IsLive(old(heap.mem), p)
    ensures EventsFilled(old(heap.mem), heap.mem, p, es, |es|)
  {
    p := heap.CallocEvents(|es|);
    for j := 0 to |es|
      invariant heap.Valid() && EventsFilled(old(heap.mem), heap.mem, p, es, j)
    {
      ghost var m := heap.mem;
      var e := es[j];
      var points := AllocPoints(heap, e.points);
      var c := VibratorEvent(e.tag, e.time, e.duration, e.intensity, e.frequency, e.index, |e.points|, points);
      heap.PutEvent(p, j, c);
      EventFilled(old(heap.mem), m, heap.mem, p, es, j, c);
    }
  }

  lemma {:induction false} RebuiltAt(ps: seq<Pattern>, i: nat)
    requires i < |ps|
    ensures Rebuilt(ps)[i] == ps[i].(patternDuration := LastEnd(ps[..i + 1]))
  {
    if i < |ps| - 1 {
      RebuiltAt(ps[..|ps| - 1], i);
      assert ps[..|ps| - 1][..i + 1] == ps[..i + 1];
    } else {
      assert ps[..i + 1] == ps;
    }
  }

  ghost predicate HoldsPattern(m: Memory, c: VibratorPattern, p: Pattern) {
    PatternReadable(m, c) && PatternView(m, c) == p && c.eventNum >= 0 && c.events != NULL && c.events in m.events
  }

  lemma HoldsKept(m: Memory, m': Memory, c: VibratorPattern, p: Pattern)
    requires Extends(m, m') && HoldsPattern(m, c, p)
    ensures HoldsPattern(m', c, p)
  {
    PatternKept(m, m', c);
  }

  lemma HoldsFilled(m: Memory, c: VibratorPattern, p: Pattern)
    requires c.events != NULL && c.events in m.events && c.eventNum == |m.events[c.events]| == |p.events|
    requires c.time == p.startTime && c.patternDuration == p.patternDuration
    requires forall k :: 0 <= k < |p.events| ==> Holds(m, m.events[c.events][k], p.events[k])
    ensures HoldsPattern(m, c, p)
  {
    assert m.events[c.events][..c.eventNum] == m.events[c.events];
    assert EventViews(m, m.events[c.events]) == p.events;
  }

  /** The event block of the pattern and its point blocks are new since before, no two of them the same. */
  ghost predicate OwnPattern(before: Memory, now: Memory, c: VibratorPattern) {
    && c.events in now.events && !IsLive(before, c.events)
    && OwnPoints(before, now, now.events[c.events], |now.events[c.events]|)
  }

  /** The two patterns share no block. */
  ghost predicate Unshared(m: Memory, c: VibratorPattern, d: VibratorPattern)
    requires c.events in m.events && d.events in m.events
  {
    && c.events != d.events
    && forall j, k :: 0 <= j < |m.events[c.events]| && 0 <= k < |m.events[d.events]| ==>
         m.events[c.events][j].points != m.events[d.events][k].points
  }

  /** The first n patterns of a block own theirs. */
  ghost predicate OwnPatterns(before: Memory, now: Memory, block: Pointer, n: int) {
    && block in now.patterns && 0 <= n <= |now.patterns[block]| && !IsLive(before, block)
    && (forall k :: 0 <= k < n ==> OwnPattern(before, now, now.patterns[block][k]))
    && (forall a, b :: 0 <= a < b < n ==> Unshared(now, now.patterns[block][a], now.patterns[block][b]))
  }

  lemma OwnPatternKept(before: Memory, m: Memory, m': Memory, c: VibratorPattern)
    requires OwnPattern(before, m, c)
    requires forall p :: p in m.points ==> p in m'.points
    requires forall p :: p in m.events ==> p in m'.events && m'.events[p] == m.events[p]
    ensures OwnPattern(before, m', c)
  {
  }

  /** Blocks that are new since m are new since before, and shared with nothing that m holds. */
  lemma OwnOneMore(before: Memory, m: Memory, between: Memory, after: Memory, block: Pointer, n: nat, c: VibratorPattern)
    requires OwnPatterns(before, m, block, n) && n < |m.patterns[block]|
    requires Extends(before, m) && Extends(m, between) && OwnPattern(m, between, c)
    requires after == between.(patterns := between.patterns[block := between.patterns[block][n := c]])
    ensures OwnPatterns(before, after, block, n + 1)
  {
    var qs := m.patterns[block];
    forall k | 0 <= k < n ensures OwnPattern(before, after, qs[k]) && Unshared(after, qs[k], c) {
      OwnPatternKept(before, m, after, qs[k]);
    }
    forall a, b | 0 <= a < b < n ensures Unshared(after, qs[a], qs[b]) {
      assert Unshared(m, qs[a], qs[b]);
    }
  }

  /** One turn of the loop over the patterns. */
  method AllocPattern(heap: Heap, p: Pattern, patternDuration: int) returns (c: VibratorPattern)
    requires heap.Valid()
    modifies heap
    ensures heap.Valid() && Extends(old(heap.mem), heap.mem) && OwnPattern(old(heap.mem), heap.mem, c)
    ensures HoldsPattern(heap.mem, c, p.(patternDuration := patternDuration))
  {
    var events := AllocEvents(heap, p.events);
    c := VibratorPattern(p.startTime, |p.events|, patternDuration, events);
    HoldsFilled(heap.mem, c, p.(patternDuration := patternDuration));
  }

  /** Writing a pattern block leaves what the patterns stand for alone. */
  lemma HoldsElsewhere(m: Memory, m': Memory, c: VibratorPattern, p: Pattern)
    requires m'.points == m.points && m'.events == m.events && HoldsPattern(m, c, p)
    ensures HoldsPattern(m', c, p)
  {
    assert EventViews(m', Taken(m.events, c.events, c.eventNum)) == EventViews(m, Taken(m.events, c.events, c.eventNum));
  }

  ghost predicate HoldsFirst(m: Memory, block: Pointer, ps: seq<Pattern>, n: nat) {
    && block in m.patterns && n <= |m.patterns[block]| == |ps|
    && forall k :: 0 <= k < n ==> HoldsPattern(m, m.patterns[block][k], ps[k])
  }

  lemma HoldsOneMore(before: Memory, between: Memory, after: Memory, block: Pointer, ps: seq<Pattern>, n: nat,
                     c: VibratorPattern)
    requires HoldsFirst(before, block, ps, n) && n < |ps| && Extends(before, between)
    requires HoldsPattern(between, c, ps[n])
    requires after == between.(patterns := between.patterns[block := between.patterns[block][n := c]])
    ensures HoldsFirst(after, block, ps, n + 1)
  {
    forall k | 0 <= k < n + 1 ensures HoldsPattern(after, after.patterns[block][k], ps[k]) {
      if k < n {
        HoldsKept(before, between, before.patterns[block][k], ps[k]);
        HoldsElsewhere(between, after, before.patterns[block][k], ps[k]);
      } else {
        HoldsElsewhere(between, after, c, ps[n]);
      }
    }
  }

  /** The first n patterns of the block stand for those given, each on blocks of its own. */
  ghost predicate PatternsFilled(before: Memory, now: Memory, block: Pointer, ps: seq<Pattern>, n: nat) {
    Extends(before, now) && HoldsFirst(now, block, ps, n) && OwnPatterns(before, now, block, n)
  }

  lemma PatternFilled(before: Memory, m: Memory, between: Memory, after: Memory, block: Pointer, ps: seq<Pattern>,
                      n: nat, c: VibratorPattern)
    requires PatternsFilled(before, m, block, ps, n) && n < |ps| && block !in before.patterns
    requires Extends(m, between) && HoldsPattern(between, c, ps[n]) && OwnPattern(m, between, c)
    requires after == between.(patterns := between.patterns[block := between.patterns[block][n := c]])
    ensures PatternsFilled(before, after, block, ps, n + 1)
  {
    HoldsOneMore(m, between, after, block, ps, n, c);
    OwnOneMore(before, m, between, after, block, n, c);
  }

  lemma PatternsAreFilled(before: Memory, now: Memory, c: VibratorPackage, p: Package)
    requires c.patterns != NULL && PatternsFilled(before, now, c.patterns, p.patterns, |p.patterns|)
    requires c.patternNum == |p.patterns| && c.packageDuration == p.packageDuration
    ensures OwnPatterns(before, now, c.patterns, c.patternNum)
    ensures PackageReadable(now, c) && PackageView(now, c) == p
  {
    PackageFilled(now, c, p);
  }

  /** Back to client structures, on blocks of its own. */
  method ConvertVibratorPackage(heap: Heap, inPkg: Package) returns (outPkg: VibratorPackage)
    requires heap.Valid()
    modifies heap
    ensures heap.Valid() && Extends(old(heap.mem), heap.mem)
    ensures OwnPatterns(old(heap.mem), heap.mem, outPkg.patterns, outPkg.patternNum)
    ensures PackageReadable(heap.mem, outPkg) && PackageView(heap.mem, outPkg) == BackToClient(inPkg)
  {
    var ps := inPkg.patterns;
    var patterns := heap.CallocPatterns(|ps|);
    var clientPatternDuration := 0;
    ghost var rebuilt := Rebuilt(ps);
    for i := 0 to |ps|
      invariant heap.Valid() && PatternsFilled(old(heap.mem), heap.mem, patterns, rebuilt, i)
      invariant clientPatternDuration == LastEnd(ps[..i])
    {
      ghost var before := heap.mem;
      if |ps[i].events| > 0 {
        clientPatternDuration := ps[i].events[|ps[i].events| - 1].time + ps[i].events[|ps[i].events| - 1].duration;
      }
      LastEndSnoc(ps, i);
      RebuiltAt(ps, i);
      var pattern := AllocPattern(heap, ps[i], clientPatternDuration);
      ghost var between := heap.mem;
      heap.PutPattern(patterns, i, pattern);
      PatternFilled(old(heap.mem), before, between, heap.mem, patterns, rebuilt, i, pattern);
    }
    assert ps[..|ps|] == ps;
    outPkg := VibratorPackage(|ps|, inPkg.packageDuration, patterns);
    PatternsAreFilled(old(heap.mem), heap.mem, outPkg, Package(rebuilt, inPkg.packageDuration));
  }

  lemma LastEndSnoc(ps: seq<Pattern>, i: nat)
    requires i < |ps|
    ensures LastEnd(ps[..i + 1])
         == if ps[i].events != [] then End(ps[i].events[|ps[i].events| - 1]) else LastEnd(ps[..i])
  {
    assert ps[..i + 1][..i] == ps[..i];
  }

  lemma PackageFilled(m: Memory, c: VibratorPackage, p: Package)
    requires c.patterns != NULL && c.patterns in m.patterns && c.patternNum == |m.patterns[c.patterns]| == |p.patterns|
    requires c.packageDuration == p.packageDuration
    requires forall k :: 0 <= k < |p.patterns| ==> HoldsPattern(m, m.patterns[c.patterns][k], p.patterns[k])
    ensures PackageReadable(m, c) && PackageView(m, c) == p
  {
    assert m.patterns[c.patterns][..c.patternNum] == m.patterns[c.patterns];
    assert PatternViews(m, m.patterns[c.patterns]) == p.patterns;
  }

  /** The result stands for the cut package, on pattern, event and point blocks of its own, no two the
      same; the input and all other blocks are as before. */
  method SeekTimeOnPackage(heap: Heap, seekTime: int, completePackage: VibratorPackage)
    returns (seekPackage: VibratorPackage)
    requires heap.Valid() && PackageReadable(heap.mem, completePackage)
    modifies heap
    ensures heap.Valid() && Extends(old(heap.mem), heap.mem) && PackageReadable(heap.mem, seekPackage)
    ensures OwnPatterns(old(heap.mem), heap.mem, seekPackage.patterns, seekPackage.patternNum)
    ensures PackageView(heap.mem, seekPackage) == SeekTime(PackageView(old(heap.mem), completePackage), seekTime)
  {
    var convertPackage := ConvertSeekVibratorPackage(heap.mem, completePackage, seekTime);
    seekPackage := ConvertVibratorPackage(heap, convertPackage);
  }
}
