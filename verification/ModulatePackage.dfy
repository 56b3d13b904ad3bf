/** ModulatePackage itself: all patterns, all blocks. */
module ModulatePackages {
  import opened ClientStructs
  import opened Modulate
  import opened ModulateMethods

  // ----- the blocks of several patterns -----

  ghost function PatternPoints(m: Memory, q: VibratorPattern): set<Pointer> {
    if q.events != NULL && q.events in m.events && 0 <= q.eventNum <= |m.events[q.events]|
    then PointsOf(m.events[q.events], q.eventNum) else {}
  }

  ghost function AllPoints(m: Memory, qs: seq<VibratorPattern>, n: nat): set<Pointer>
    requires n <= |qs|
  {
    if n == 0 then {} else AllPoints(m, qs, n - 1) + PatternPoints(m, qs[n - 1])
  }

  ghost function EventBlock(q: VibratorPattern): set<Pointer> {
    if q.events == NULL then {} else {q.events}
  }

  ghost function AllEvents(qs: seq<VibratorPattern>, n: nat): set<Pointer>
    requires n <= |qs|
  {
    if n == 0 then {} else AllEvents(qs, n - 1) + EventBlock(qs[n - 1])
  }

  /** The pattern's blocks are live and its point blocks distinct; a pattern with no event block has none. */
  ghost predicate Owned(m: Memory, q: VibratorPattern) {
    q.events != NULL ==>
      && q.events in m.events && 0 < q.eventNum == |m.events[q.events]|
      && Separate(m.events[q.events], q.eventNum)
      && PatternPoints(m, q) <= m.points.Keys
  }

  ghost predicate Apart(m: Memory, q: VibratorPattern, q': VibratorPattern) {
    EventBlock(q) !! EventBlock(q') && PatternPoints(m, q) !! PatternPoints(m, q')
  }

  /** The first n patterns own blocks that no two of them share. */
  ghost predicate AllOwned(m: Memory, qs: seq<VibratorPattern>, n: nat)
    requires n <= |qs|
  {
    && (forall k :: 0 <= k < n ==> Owned(m, qs[k]))
    && (forall a, b :: 0 <= a < b < n ==> Apart(m, qs[a], qs[b]))
  }

  // ----- freeing several patterns -----

  /** Blocks already freed (gone) and those of the first n patterns make up all there is to free. */
  ghost predicate Freed(before: Memory, now: Memory, qs: seq<VibratorPattern>, n: nat, gp: set<Pointer>, ge: set<Pointer>)
    requires n <= |qs|
  {
    && now.points == before.points - gp && now.events == before.events - ge
    && gp + AllPoints(before, qs, n) == AllPoints(before, qs, |qs|)
    && ge + AllEvents(qs, n) == AllEvents(qs, |qs|)
    && forall k :: 0 <= k < n ==> gp !! PatternPoints(before, qs[k]) && ge !! EventBlock(qs[k])
  }

  lemma FreedOneMore(before: Memory, m: Memory, now: Memory, qs: seq<VibratorPattern>, i: nat,
                     gp: set<Pointer>, ge: set<Pointer>)
    requires i < |qs| && AllOwned(before, qs, |qs|) && Freed(before, m, qs, i + 1, gp, ge)
    requires now.points == m.points - PatternPoints(before, qs[i])
    requires now.events == m.events - EventBlock(qs[i])
    ensures Freed(before, now, qs, i, gp + PatternPoints(before, qs[i]), ge + EventBlock(qs[i]))
  {
    forall k | 0 <= k < i
      ensures gp + PatternPoints(before, qs[i]) !! PatternPoints(before, qs[k])
              && ge + EventBlock(qs[i]) !! EventBlock(qs[k])
    {
      assert Apart(before, qs[k], qs[i]);
    }
    assert before.points - gp - PatternPoints(before, qs[i]) == before.points - (gp + PatternPoints(before, qs[i]));
    assert before.events - ge - EventBlock(qs[i]) == before.events - (ge + EventBlock(qs[i]));
  }

  lemma StillOwned(before: Memory, m: Memory, qs: seq<VibratorPattern>, i: nat, gp: set<Pointer>, ge: set<Pointer>)
    requires i < |qs| && AllOwned(before, qs, |qs|) && Freed(before, m, qs, i + 1, gp, ge)
    ensures qs[i].events != NULL ==>
              && qs[i].events in m.events && m.events[qs[i].events] == before.events[qs[i].events]
              && PatternPoints(before, qs[i]) <= m.points.Keys
  {
    assert Owned(before, qs[i]) && gp !! PatternPoints(before, qs[i]) && ge !! EventBlock(qs[i]);
    if qs[i].events != NULL {
      assert qs[i].events in EventBlock(qs[i]);
    }
  }

  /** The loop that frees has n patterns of the block to go. */
  ghost predicate Freeing(before: Memory, now: Memory, block: Pointer, qs: seq<VibratorPattern>, n: nat,
                          gp: set<Pointer>, ge: set<Pointer>)
  {
    && block in before.patterns && block in now.patterns
    && n <= |qs| <= |now.patterns[block]| == |before.patterns[block]|
    && now.patterns == before.patterns[block := now.patterns[block]]
    && (forall k :: 0 <= k < n ==> now.patterns[block][k] == qs[k])
    && Freed(before, now, qs, n, gp, ge)
  }

  /** One turn of that loop. */
  method FreePattern(heap: Heap, block: Pointer, i: nat, ghost before: Memory, ghost qs: seq<VibratorPattern>,
                     ghost gp: set<Pointer>, ghost ge: set<Pointer>)
    requires heap.Valid() && AllOwned(before, qs, |qs|) && i < |qs|
    requires Freeing(before, heap.mem, block, qs, i + 1, gp, ge)
    modifies heap`mem
    ensures heap.Valid()
    ensures Freeing(before, heap.mem, block, qs, i, gp + PatternPoints(before, qs[i]), ge + EventBlock(qs[i]))
  {
    ghost var m := heap.mem;
    var q := heap.mem.patterns[block][i];
    assert Owned(before, q);
    StillOwned(before, m, qs, i, gp, ge);
    FreePatternEvents(heap, q);
    FreedOneMore(before, m, heap.mem, qs, i, gp, ge);
    heap.PutPattern(block, i, q.(events := NULL));
  }

  lemma FreedNothing(before: Memory, qs: seq<VibratorPattern>)
    ensures Freed(before, before, qs, |qs|, {}, {})
  {
    assert before.points - {} == before.points && before.events - {} == before.events;
    assert {} + AllPoints(before, qs, |qs|) == AllPoints(before, qs, |qs|);
    assert {} + AllEvents(qs, |qs|) == AllEvents(qs, |qs|);
  }

  method FreePartiallyAllocatedVibratorPatterns(heap: Heap, patterns: Pointer, partialIdx: int)
    requires heap.Valid() && partialIdx >= -1
    requires patterns != NULL ==>
               && patterns in heap.mem.patterns && partialIdx < |heap.mem.patterns[patterns]|
               && AllOwned(heap.mem, heap.mem.patterns[patterns][..partialIdx + 1], partialIdx + 1)
    modifies heap`mem
    ensures heap.Valid()
    ensures patterns != NULL ==>
      var b := old(heap.mem);
      var qs := b.patterns[patterns][..partialIdx + 1];
      heap.mem == Memory(b.points - AllPoints(b, qs, |qs|), b.events - AllEvents(qs, |qs|), b.patterns - {patterns})
  {
    if patterns == NULL { return; }
    ghost var b := heap.mem;
    ghost var qs := b.patterns[patterns][..partialIdx + 1];
    ghost var gp, ge: set<Pointer> := {}, {};
    FreedNothing(b, qs);
    var i := partialIdx;
    while i >= 0
      invariant -1 <= i <= partialIdx && heap.Valid()
      invariant Freeing(b, heap.mem, patterns, qs, i + 1, gp, ge)
    {
      FreePattern(heap, patterns, i, b, qs, gp, ge);
      gp, ge := gp + PatternPoints(b, qs[i]), ge + EventBlock(qs[i]);
      i := i - 1;
    }
    assert gp + {} == gp && ge + {} == ge;
    heap.FreePatterns(patterns);
    assert heap.mem.patterns == b.patterns - {patterns};
  }

  /** The call that frees the events of one pattern. */
  method FreePatternEvents(heap: Heap, q: VibratorPattern)
    requires heap.Valid()
    requires q.events != NULL ==>
               && q.events in heap.mem.events && 0 < q.eventNum == |heap.mem.events[q.events]|
               && Separate(heap.mem.events[q.events], q.eventNum)
               && PatternPoints(heap.mem, q) <= heap.mem.points.Keys
    modifies heap`mem
    ensures heap.Valid()
    ensures heap.mem == old(heap.mem).(points := old(heap.mem).points - PatternPoints(old(heap.mem), q),
                                       events := old(heap.mem).events - EventBlock(q))
  {
    FreePartiallyAllocatedVibratorEvents(heap, q.events, if q.events == NULL then -1 else q.eventNum - 1);
    assert q.events == NULL ==> heap.mem.points - {} == heap.mem.points && heap.mem.events - {} == heap.mem.events;
  }

  // ----- building the result -----

  /** The input package and the modulation curve can be read without reading amiss. */
  ghost predicate PackageGiven(m: Memory, mod: VibratorEvent, p: VibratorPackage) {
    && (mod.pointNum > 0 && mod.points != NULL ==> EventReadable(m, mod))
    && (p.patternNum > 0 && p.patterns != NULL ==>
          && p.patterns in m.patterns && p.patternNum <= |m.patterns[p.patterns]|
          && forall k :: 0 <= k < p.patternNum ==> PatternGiven(m, CurveOf(m, mod), m.patterns[p.patterns][k]))
  }

  function CurveOf(m: Memory, mod: VibratorEvent): Curve {
    Curve(mod.time, mod.duration, Taken(m.points, mod.points, mod.pointNum))
  }

  predicate CurveAccepted(m: Memory, mod: VibratorEvent) {
    mod.time >= 0 && mod.duration >= 0 && mod.pointNum > 0 && mod.points != NULL
  }

  /** What ModulatePackage insists on. */
  predicate Accepted(m: Memory, mod: VibratorEvent, p: VibratorPackage) {
    && p.patternNum > 0 && p.patterns != NULL && CurveAccepted(m, mod)
    && Intervals(CurveOf(m, mod)) != []
    && p.patterns in m.patterns && p.patternNum <= |m.patterns[p.patterns]|
    && forall k :: 0 <= k < p.patternNum ==> PatternAccepted(m, m.patterns[p.patterns][k])
  }

  /** A result pattern and the pattern it was made from. */
  ghost predicate PatternMade(iv: seq<Interval>, before: Memory, now: Memory, p: VibratorPattern, q: VibratorPattern) {
    && q == p.(events := q.events) && q.events != NULL && p.eventNum > 0
    && Owned(now, q)
    && p.events in before.events && p.eventNum <= |before.events[p.events]|
    && AllMade(iv, before, now, p.time, before.events[p.events], now.events[q.events], p.eventNum)
  }

  /** The first n of the result patterns, and their blocks: all that the heap has beyond before. */
  ghost predicate PackageBuilt(iv: seq<Interval>, before: Memory, now: Memory, src: seq<VibratorPattern>,
                               block: Pointer, n: nat)
  {
    && block in now.patterns && n <= |src| == |now.patterns[block]|
    && AllOwned(now, now.patterns[block], n)
    && Adds(before, now, AllPoints(now, now.patterns[block], n), AllEvents(now.patterns[block], n), {block})
    && forall k :: 0 <= k < n ==> PatternMade(iv, before, now, src[k], now.patterns[block][k])
  }

  lemma {:induction false} AllPointsKept(m: Memory, m': Memory, qs: seq<VibratorPattern>, qs': seq<VibratorPattern>, n: nat)
    requires n <= |qs| && n <= |qs'| && (forall k :: 0 <= k < n ==> qs'[k] == qs[k] && Owned(m, qs[k]))
    requires forall p :: p in m.events ==> p in m'.events && m'.events[p] == m.events[p]
    ensures AllPoints(m', qs', n) == AllPoints(m, qs, n) && AllEvents(qs', n) == AllEvents(qs, n)
    ensures forall k :: 0 <= k < n ==> PatternPoints(m', qs[k]) == PatternPoints(m, qs[k])
  {
    if n > 0 {
      AllPointsKept(m, m', qs, qs', n - 1);
    }
  }

  lemma {:induction false} AllPointsHas(m: Memory, qs: seq<VibratorPattern>, n: nat, k: nat)
    requires k < n <= |qs|
    ensures PatternPoints(m, qs[k]) <= AllPoints(m, qs, n) && EventBlock(qs[k]) <= AllEvents(qs, n)
  {
    if k < n - 1 {
      AllPointsHas(m, qs, n - 1, k);
    }
  }

  lemma OwnedStays(m: Memory, m': Memory, q: VibratorPattern)
    requires Owned(m, q) && q.events != NULL
    requires forall r :: r in m.points ==> r in m'.points
    requires q.events in m'.events && m'.events[q.events] == m.events[q.events]
    ensures Owned(m', q)
  {
    assert PatternPoints(m', q) == PatternPoints(m, q);
  }

  lemma PatternMadeKept(iv: seq<Interval>, before: Memory, m: Memory, m': Memory, p: VibratorPattern, q: VibratorPattern)
    requires PatternMade(iv, before, m, p, q)
    requires forall r :: r in m.points ==> r in m'.points && m'.points[r] == m.points[r]
    requires forall r :: r in m.events ==> r in m'.events && m'.events[r] == m.events[r]
    ensures PatternMade(iv, before, m', p, q)
  {
    OwnedStays(m, m', q);
    var from, es := before.events[p.events], m.events[q.events];
    forall k | 0 <= k < p.eventNum ensures MadeAt(iv, before, m', p.time, from, es, k) {
      assert MadeAt(iv, before, m, p.time, from, es, k);
      MadeKept(iv, before, m, m', p.time, from[k], es[k]);
    }
    assert m'.events[q.events] == es;
  }

  /** What ModulateVibratorPattern delivers on a heap that has grown, in terms of the heap at the outset. */
  lemma FreshlyMade(c: Curve, before: Memory, m: Memory, now: Memory, p: VibratorPattern, q: VibratorPattern)
    requires Extends(before, m) && PatternGiven(before, c, p) && PatternAccepted(before, p) && Intervals(c) != []
    requires q == p.(events := q.events) && q.events != NULL
    requires Built(m, now, q.events, p.eventNum, p.eventNum) && p.events in m.events
    requires p.eventNum <= |m.events[p.events]|
    requires AllMade(Intervals(c), m, now, p.time, m.events[p.events], now.events[q.events], p.eventNum)
    ensures PatternMade(Intervals(c), before, now, p, q)
    ensures Adds(m, now, PatternPoints(now, q), EventBlock(q), {})
  {
    forall k | 0 <= k < p.eventNum
      ensures MadeAt(Intervals(c), before, now, p.time, before.events[p.events], now.events[q.events], k)
    {
      assert MadeAt(Intervals(c), m, now, p.time, m.events[p.events], now.events[q.events], k);
      GivenKept(before, m, c, before.events[p.events][k]);
    }
  }

  lemma AddsPattern(before: Memory, m: Memory, between: Memory, after: Memory, block: Pointer, i: nat, q: VibratorPattern)
    requires block in m.patterns && i < |m.patterns[block]| && (forall k :: 0 <= k < i ==> Owned(m, m.patterns[block][k]))
    requires Adds(before, m, AllPoints(m, m.patterns[block], i), AllEvents(m.patterns[block], i), {block})
    requires Adds(m, between, PatternPoints(between, q), EventBlock(q), {})
    requires after == between.(patterns := between.patterns[block := between.patterns[block][i := q]])
    ensures Adds(before, after, AllPoints(after, after.patterns[block], i + 1), AllEvents(after.patterns[block], i + 1), {block})
  {
    var qs, qs' := m.patterns[block], after.patterns[block];
    AllPointsKept(m, after, qs, qs', i);
    assert PatternPoints(after, q) == PatternPoints(between, q);
    AddsMore(before, m, between, AllPoints(m, qs, i), AllEvents(qs, i), {block}, PatternPoints(between, q), EventBlock(q), {});
    assert {block} + {} == {block};
    AddsPatternWritten(before, between, AllPoints(m, qs, i) + PatternPoints(between, q),
                       AllEvents(qs, i) + EventBlock(q), block, qs');
  }

  lemma PackageOneMore(iv: seq<Interval>, before: Memory, m: Memory, between: Memory, after: Memory,
                       src: seq<VibratorPattern>, block: Pointer, i: nat, q: VibratorPattern)
    requires PackageBuilt(iv, before, m, src, block, i) && i < |src|
    requires PatternMade(iv, before, between, src[i], q)
    requires Adds(m, between, PatternPoints(between, q), EventBlock(q), {})
    requires after == between.(patterns := between.patterns[block := between.patterns[block][i := q]])
    ensures PackageBuilt(iv, before, after, src, block, i + 1)
  {
    var qs, qs' := m.patterns[block], after.patterns[block];
    AddsPattern(before, m, between, after, block, i, q);
    AllOwnedOneMore(m, after, qs, qs', i, q);
    forall k | 0 <= k < i + 1 ensures PatternMade(iv, before, after, src[k], qs'[k]) {
      if k < i {
        PatternMadeKept(iv, before, m, after, src[k], qs[k]);
      } else {
        PatternMadeKept(iv, before, between, after, src[i], q);
      }
    }
  }

  lemma AddsPatternWritten(before: Memory, m: Memory, ps: set<Pointer>, es: set<Pointer>, block: Pointer,
                           v: seq<VibratorPattern>)
    requires Adds(before, m, ps, es, {block})
    ensures Adds(before, m.(patterns := m.patterns[block := v]), ps, es, {block})
  {
  }

  lemma AllOwnedOneMore(m: Memory, after: Memory, qs: seq<VibratorPattern>, qs': seq<VibratorPattern>, i: nat, q: VibratorPattern)
    requires i < |qs| && i < |qs'| && AllOwned(m, qs, i) && Owned(after, q)
    requires (forall k :: 0 <= k < i ==> qs'[k] == qs[k]) && qs'[i] == q
    requires forall p :: p in m.points ==> p in after.points
    requires forall p :: p in m.events ==> p in after.events && after.events[p] == m.events[p]
    requires m.points.Keys !! PatternPoints(after, q) && m.events.Keys !! EventBlock(q)
    ensures AllOwned(after, qs', i + 1)
  {
    forall k | 0 <= k < i
      ensures Owned(after, qs[k]) && PatternPoints(after, qs[k]) == PatternPoints(m, qs[k]) && Apart(after, qs[k], q)
    {
      assert Owned(m, qs[k]);
    }
    forall a, b | 0 <= a < b < i ensures Apart(after, qs[a], qs[b]) {
      assert Apart(m, qs[a], qs[b]);
    }
  }

  lemma OwnsNothing(m: Memory, now: Memory, ms: seq<VibratorPattern>, qs: seq<VibratorPattern>, i: nat)
    requires i < |ms| && i < |qs| && AllOwned(m, ms, i) && qs[i].events == NULL
    requires (forall k :: 0 <= k < i ==> qs[k] == ms[k]) && now.points == m.points && now.events == m.events
    ensures AllOwned(now, qs, i + 1)
    ensures AllPoints(now, qs, i + 1) == AllPoints(m, ms, i) && AllEvents(qs, i + 1) == AllEvents(ms, i)
  {
    assert PatternPoints(now, qs[i]) == {} && EventBlock(qs[i]) == {};
    AllOwnedOneMore(m, now, ms, qs, i, qs[i]);
    AllPointsKept(m, now, ms, qs, i);
  }

  lemma WrittenThenFreed(before: Memory, m: Memory, now: Memory, ps: set<Pointer>, es: set<Pointer>, block: Pointer)
    requires Adds(before, m, ps, es, {block}) && block in now.patterns
    requires now == m.(patterns := m.patterns[block := now.patterns[block]])
    ensures Memory(now.points - ps, now.events - es, now.patterns - {block}) == before
  {
    AddsPatternWritten(before, m, ps, es, block, now.patterns[block]);
    FreedAll(before, now, ps, es, {block});
  }

  /** The pattern block and the blocks of its first i + 1 patterns are all that there is to free. */
  ghost predicate PatternsGivenUp(before: Memory, now: Memory, block: Pointer, i: nat) {
    && block in now.patterns && i < |now.patterns[block]|
    && var qs := now.patterns[block][..i + 1];
    && AllOwned(now, qs, i + 1)
    && Memory(now.points - AllPoints(now, qs, i + 1), now.events - AllEvents(qs, i + 1), now.patterns - {block}) == before
  }

  /** After a refused pattern, everything built so far is what there is to free. */
  lemma GiveUpPatterns(iv: seq<Interval>, before: Memory, m: Memory, now: Memory, src: seq<VibratorPattern>,
                       block: Pointer, i: nat, q: VibratorPattern)
    requires PackageBuilt(iv, before, m, src, block, i) && i < |src| && q.events == NULL
    requires now == m.(patterns := m.patterns[block := m.patterns[block][i := q]])
    ensures PatternsGivenUp(before, now, block, i)
  {
    var ms, qs := m.patterns[block], now.patterns[block][..i + 1];
    assert forall k :: 0 <= k < i ==> qs[k] == ms[k];
    OwnsNothing(m, now, ms, qs, i);
    var ps, es := AllPoints(m, ms, i), AllEvents(ms, i);
    assert AllPoints(now, qs, i + 1) == ps && AllEvents(qs, i + 1) == es;
    WrittenThenFreed(before, m, now, ps, es, block);
  }

  ghost predicate AllGiven(m: Memory, c: Curve, ps: seq<VibratorPattern>) {
    forall k :: 0 <= k < |ps| ==> PatternGiven(m, c, ps[k])
  }

  predicate AllAccepted(m: Memory, ps: seq<VibratorPattern>, n: nat)
    requires n <= |ps|
  {
    forall k :: 0 <= k < n ==> PatternAccepted(m, ps[k])
  }

  lemma AcceptedOneMore(m: Memory, ps: seq<VibratorPattern>, n: nat)
    requires n < |ps|
    ensures AllAccepted(m, ps, n + 1) <==> AllAccepted(m, ps, n) && PatternAccepted(m, ps[n])
    ensures AllAccepted(m, ps, |ps|) ==> PatternAccepted(m, ps[n])
  {
  }

  /** The first n patterns have been accepted and modulated. */
  ghost predicate ModulatedSoFar(iv: seq<Interval>, before: Memory, now: Memory, src: seq<VibratorPattern>,
                                 block: Pointer, n: nat)
  {
    PackageBuilt(iv, before, now, src, block, n) && AllAccepted(before, src, n) && (n > 0 ==> iv != [])
  }

  /** One pattern of the package, into its place in the block, or all of it given up. */
  method ModulatePatternInto(heap: Heap, curve: Curve, patterns: Pointer, block: Pointer, i: nat, ghost before: Memory,
                             ghost src: seq<VibratorPattern>)
    returns (good: bool)
    requires heap.Valid() && i < |src| && block != NULL
    requires patterns in before.patterns && src <= before.patterns[patterns] && AllGiven(before, curve, src)
    requires ModulatedSoFar(Intervals(curve), before, heap.mem, src, block, i)
    modifies heap
    ensures heap.Valid()
    ensures good ==> ModulatedSoFar(Intervals(curve), before, heap.mem, src, block, i + 1)
    ensures !good ==> heap.mem == before && !(AllAccepted(before, src, |src|) && Intervals(curve) != [])
  {
    ghost var m := heap.mem;
    var p := heap.mem.patterns[patterns][i];
    AcceptedOneMore(before, src, i);
    PatternGivenKept(before, m, curve, p);
    var q;
    good, q := ModulateVibratorPattern(heap, curve, p);
    ghost var between := heap.mem;
    heap.PutPattern(block, i, q);
    if !good {
      GiveUpPatterns(Intervals(curve), before, m, heap.mem, src, block, i, q);
      FreePartiallyAllocatedVibratorPatterns(heap, block, i);
    } else {
      FreshlyMade(curve, before, m, between, p, q);
      PackageOneMore(Intervals(curve), before, m, between, heap.mem, src, block, i, q);
    }
  }

  /** The loop over the patterns of a block. */
  method ModulatePatterns(heap: Heap, curve: Curve, patterns: Pointer, n: nat, ghost src: seq<VibratorPattern>)
    returns (ok: bool, block: Pointer)
    requires heap.Valid() && patterns in heap.mem.patterns && 0 < n <= |heap.mem.patterns[patterns]|
    requires src == heap.mem.patterns[patterns][..n] && AllGiven(heap.mem, curve, src)
    modifies heap
    ensures heap.Valid() && block != NULL
    ensures ok <==> AllAccepted(old(heap.mem), src, n) && Intervals(curve) != []
    ensures ok ==> ModulatedSoFar(Intervals(curve), old(heap.mem), heap.mem, src, block, n)
    ensures !ok ==> heap.mem == old(heap.mem)
  {
    ghost var before := heap.mem;
    ok := true;
    block := heap.CallocPatterns(n);
    BuiltEmpty(Intervals(curve), before, heap.mem, src, block);
    for i := 0 to n
      invariant heap.Valid() && ok && ModulatedSoFar(Intervals(curve), before, heap.mem, src, block, i)
    {
      ok := ModulatePatternInto(heap, curve, patterns, block, i, before, src);
      if !ok { break; }
    }
  }

  method ModulatePackage(heap: Heap, modulationCurve: VibratorEvent, p: VibratorPackage, out: VibratorPackage)
    returns (ok: bool, r: VibratorPackage)
    requires heap.Valid() && PackageGiven(heap.mem, modulationCurve, p)
    modifies heap
    ensures heap.Valid()
    ensures ok <==> Accepted(old(heap.mem), modulationCurve, p)
    ensures !ok ==> heap.mem == old(heap.mem) && (r == out || r == p.(patterns := NULL))
    ensures ok ==> r == p.(patterns := r.patterns) && r.patterns != NULL
    ensures ok ==> PackageBuilt(Intervals(CurveOf(old(heap.mem), modulationCurve)), old(heap.mem), heap.mem,
                                old(heap.mem).patterns[p.patterns][..p.patternNum], r.patterns, p.patternNum)
  {
    r := out;
    if p.patternNum <= 0 || p.patterns == NULL { return false, r; }
    if modulationCurve.time < 0 || modulationCurve.duration < 0 || modulationCurve.pointNum <= 0
      || modulationCurve.points == NULL
    {
      return false, r;
    }
    r := p.(patterns := NULL);
    var curve := CurveOf(heap.mem, modulationCurve);
    ghost var all := heap.mem.patterns[p.patterns];
    ghost var src := all[..p.patternNum];
    assert forall k :: 0 <= k < p.patternNum ==> src[k] == all[k];
    var block;
    ok, block := ModulatePatterns(heap, curve, p.patterns, p.patternNum, src);
    if ok {
      r := p.(patterns := block);
    }
  }

  lemma BuiltEmpty(iv: seq<Interval>, before: Memory, now: Memory, src: seq<VibratorPattern>, block: Pointer)
    requires block !in before.patterns
    requires now == before.(patterns := before.patterns[block := seq(|src|, _ => ZeroPattern)])
    ensures PackageBuilt(iv, before, now, src, block, 0)
  {
  }

  lemma PatternGivenKept(before: Memory, m: Memory, c: Curve, p: VibratorPattern)
    requires Extends(before, m) && PatternGiven(before, c, p)
    ensures PatternGiven(m, c, p) && (p.eventNum > 0 && p.events != NULL ==> (PatternAccepted(m, p) <==> PatternAccepted(before, p)))
  {
    if p.eventNum > 0 && p.events != NULL {
      forall k | 0 <= k < p.eventNum ensures EventGiven(m, c, before.events[p.events][k]) {
        GivenKept(before, m, c, before.events[p.events][k]);
      }
    }
  }

  // ----- what the caller gets -----

  /** The result shares no block with anything that was live before, nor two of its patterns a block. */
  lemma ResultSharesNothing(iv: seq<Interval>, before: Memory, now: Memory, src: seq<VibratorPattern>, block: Pointer)
    requires PackageBuilt(iv, before, now, src, block, |src|)
    ensures block !in before.patterns
    ensures forall k :: 0 <= k < |src| ==>
              var q := now.patterns[block][k];
              q.events !in before.events && PatternPoints(now, q) !! before.points.Keys
    ensures forall a, b :: 0 <= a < b < |src| ==> Apart(now, now.patterns[block][a], now.patterns[block][b])
  {
    var qs := now.patterns[block];
    forall k | 0 <= k < |src| ensures qs[k].events !in before.events && PatternPoints(now, qs[k]) !! before.points.Keys {
      AllPointsHas(now, qs, |src|, k);
      assert PatternMade(iv, before, now, src[k], qs[k]);
      assert qs[k].events in EventBlock(qs[k]);
    }
  }

  ghost predicate EventsPointwise(c: Curve, before: Memory, now: Memory, p: VibratorPattern, q: VibratorPattern) {
    && q == p.(events := q.events)
    && p.events in before.events && q.events in now.events
    && 0 < p.eventNum <= |before.events[p.events]| && p.eventNum <= |now.events[q.events]|
    && forall j :: 0 <= j < p.eventNum ==>
         ModulatedPointwise(c, before, p.time, before.events[p.events][j], EventView(now, now.events[q.events][j]))
  }

  /** For a good curve, the modulated package is the pointwise image of the package it was made from:
      every pattern keeps its time, duration and number of events, every event is changed only by the
      step of the curve in force at its points or its start. */
  lemma ModulatedPackageIsPointwise(c: Curve, before: Memory, now: Memory, src: seq<VibratorPattern>, block: Pointer)
    requires GoodCurve(c) && PackageBuilt(Intervals(c), before, now, src, block, |src|)
    ensures forall k :: 0 <= k < |src| ==> EventsPointwise(c, before, now, src[k], now.patterns[block][k])
  {
    IntervalsTile(c);
    forall k | 0 <= k < |src| ensures EventsPointwise(c, before, now, src[k], now.patterns[block][k]) {
      PatternIsPointwise(c, before, now, src[k], now.patterns[block][k]);
    }
  }

  lemma PatternIsPointwise(c: Curve, before: Memory, now: Memory, p: VibratorPattern, q: VibratorPattern)
    requires GoodCurve(c) && Intervals(c) != [] && PatternMade(Intervals(c), before, now, p, q)
    ensures EventsPointwise(c, before, now, p, q)
  {
    forall j | 0 <= j < p.eventNum
      ensures ModulatedPointwise(c, before, p.time, before.events[p.events][j], EventView(now, now.events[q.events][j]))
    {
      assert MadeAt(Intervals(c), before, now, p.time, before.events[p.events], now.events[q.events], j);
      ModulationIsPointwise(c, before, p.time, before.events[p.events][j]);
    }
  }
}
