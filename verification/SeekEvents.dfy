/** What seeking does to each event, read off the package it is given. */
module SeekEvents {
  import opened Wrappers
  import opened Haptics
  import opened MixedWave
  import opened Seek

  /** An event of a pattern, and where the pattern starts. */
  datatype Origin = Origin(start: int, event: Event)

  function Origins(p: Pattern): (os: seq<Origin>)
    ensures |os| == |p.events|
  {
    seq(|p.events|, k requires 0 <= k < |p.events| => Origin(p.startTime, p.events[k]))
  }

  /** Its pattern has not begun, or it has not, or it goes on for 100 ms. */
  predicate Survives(o: Origin, s: int) {
    || o.start >= s || o.start + o.event.time >= s
    || (o.event.tag == Continuous && o.start + o.event.time + o.event.duration - s >= 100)
  }

  /** A pattern that has not begun may hold up to 1000 events, one that has 1 to 16; any other loses all. */
  predicate HasUsableCount(p: Pattern, s: int) {
    if p.startTime >= s then |p.events| <= 1000 else 1 <= |p.events| <= 16
  }

  function SurvivorsOf(p: Pattern, s: int): seq<Origin> {
    if HasUsableCount(p, s) then Filtered(Origins(p), (o: Origin) => Survives(o, s)) else []
  }

  function Survivors(ps: seq<Pattern>, s: int): seq<Origin> {
    if ps == [] then [] else Survivors(ps[..|ps| - 1], s) + SurvivorsOf(ps[|ps| - 1], s)
  }

  /** r is what is left of the event, in absolute time. One that has not begun is as it was, without its
      curve if its pattern has begun and the curve does not have 4 to 16 points; one that has begun goes
      on from s to its end, without a curve. */
  ghost predicate IsSought(o: Origin, s: int, r: Event) {
    var e := o.event;
    && r.tag == e.tag && r.intensity == e.intensity && r.frequency == e.frequency && r.index == e.index
    && if o.start >= s || o.start + e.time >= s then
         && r.time == o.start + e.time && r.duration == e.duration
         && r.points == if o.start >= s || 4 <= |e.points| <= 16 then e.points else []
       else r.time == s && r.time + r.duration == o.start + e.time + e.duration && r.points == []
  }

  ghost predicate AreSought(os: seq<Origin>, s: int, rs: seq<Event>) {
    |rs| == |os| && forall k :: 0 <= k < |os| ==> IsSought(os[k], s, rs[k])
  }

  lemma SoughtJoin(os: seq<Origin>, os': seq<Origin>, s: int, rs: seq<Event>, rs': seq<Event>)
    requires AreSought(os, s, rs) && AreSought(os', s, rs')
    ensures AreSought(os + os', s, rs + rs')
  {
  }

  lemma PlacedJoin(start: int, duration: int, a: seq<Event>, b: seq<Event>)
    ensures Placed(Pattern(start, duration, a + b)) == Placed(Pattern(start, duration, a)) + Placed(Pattern(start, duration, b))
  {
  }

  lemma RemainsSought(e: Event, t: int, s: int, duration: int)
    requires t < s
    ensures AreSought(if Survives(Origin(t, e), s) then [Origin(t, e)] else [], s,
                      Placed(Pattern(s, duration, Remains(e, t, s))))
  {
  }

  lemma FilteredSnoc(es: seq<Event>, t: int, duration: int, keep: Origin -> bool)
    requires es != []
    ensures Filtered(Origins(Pattern(t, duration, es)), keep)
         == Filtered(Origins(Pattern(t, duration, es[..|es| - 1])), keep)
            + if keep(Origin(t, es[|es| - 1])) then [Origin(t, es[|es| - 1])] else []
  {
    var os := Origins(Pattern(t, duration, es));
    assert os[..|os| - 1] == Origins(Pattern(t, duration, es[..|es| - 1]));
  }

  lemma {:induction false} CutSought(es: seq<Event>, t: int, s: int, before: int, after: int)
    requires t < s
    ensures AreSought(Filtered(Origins(Pattern(t, before, es)), (o: Origin) => Survives(o, s)), s,
                      Placed(Pattern(s, after, CutEvents(es, t, s))))
  {
    if es != [] {
      var n := |es| - 1;
      CutSought(es[..n], t, s, before, after);
      RemainsSought(es[n], t, s, after);
      FilteredSnoc(es, t, before, (o: Origin) => Survives(o, s));
      PlacedJoin(s, after, CutEvents(es[..n], t, s), Remains(es[n], t, s));
      SoughtJoin(Filtered(Origins(Pattern(t, before, es[..n])), (o: Origin) => Survives(o, s)),
                 if Survives(Origin(t, es[n]), s) then [Origin(t, es[n])] else [], s,
                 Placed(Pattern(s, after, CutEvents(es[..n], t, s))), Placed(Pattern(s, after, Remains(es[n], t, s))));
    }
  }

  lemma FlattenOne(p: Pattern)
    ensures Flatten([p]) == Placed(p)
  {
    assert [p][..0] == [];
  }

  lemma BegunSought(p: Pattern, s: int)
    requires p.startTime < s && HasUsableCount(p, s)
    ensures AreSought(SurvivorsOf(p, s), s, Flatten(CutPattern(p, s)))
  {
    var es := CutEvents(p.events, p.startTime, s);
    var q := Pattern(s, TotalDuration(es), es);
    FlattenOne(q);
    assert Flatten(CutPattern(p, s)) == Placed(q);
    CutSought(p.events, p.startTime, s, p.patternDuration, TotalDuration(es));
    assert Origins(p) == Origins(Pattern(p.startTime, p.patternDuration, p.events));
  }

  lemma UnbegunStays(p: Pattern, s: int)
    requires p.startTime >= s
    ensures AreSought(Origins(p), s, Placed(p))
  {
  }

  lemma UnbegunSought(p: Pattern, s: int)
    requires p.startTime >= s
    ensures AreSought(SurvivorsOf(p, s), s, Flatten(CutPattern(p, s)))
  {
    FlattenOne(Verbatim(p));
    if HasUsableCount(p, s) {
      AllKept(Origins(p), (o: Origin) => Survives(o, s));
      UnbegunStays(p, s);
      assert SurvivorsOf(p, s) == Origins(p);
    } else {
      assert Placed(Verbatim(p)) == [];
    }
  }

  lemma PatternSought(p: Pattern, s: int)
    ensures AreSought(SurvivorsOf(p, s), s, Flatten(CutPattern(p, s)))
  {
    if p.startTime >= s {
      UnbegunSought(p, s);
    } else if HasUsableCount(p, s) {
      BegunSought(p, s);
    }
  }

  lemma FlattenMore(ps: seq<Pattern>, p: Pattern)
    ensures Flatten(ps + [p]) == Flatten(ps) + Placed(p)
  {
    assert (ps + [p])[..|ps|] == ps;
  }

  lemma {:induction false} FlattenJoin(a: seq<Pattern>, b: seq<Pattern>)
    ensures Flatten(a + b) == Flatten(a) + Flatten(b)
  {
    if b == [] {
      assert a + b == a;
    } else {
      var front, last := b[..|b| - 1], b[|b| - 1];
      FlattenJoin(a, front);
      FlattenMore(a + front, last);
      assert a + b == a + front + [last];
      Reassociated(Flatten(a), Flatten(front), Placed(last));
    }
  }

  lemma {:induction false} PatternsSought(ps: seq<Pattern>, s: int)
    ensures AreSought(Survivors(ps, s), s, Flatten(CutPatterns(ps, s)))
  {
    if ps != [] {
      var n := |ps| - 1;
      PatternsSought(ps[..n], s);
      PatternSought(ps[n], s);
      FlattenJoin(CutPatterns(ps[..n], s), CutPattern(ps[n], s));
      SoughtJoin(Survivors(ps[..n], s), SurvivorsOf(ps[n], s), s,
                 Flatten(CutPatterns(ps[..n], s)), Flatten(CutPattern(ps[n], s)));
    }
  }

  lemma {:induction false} FlattenIgnoresDurations(ps: seq<Pattern>, qs: seq<Pattern>)
    requires SamePatterns(ps, qs)
    ensures Flatten(ps) == Flatten(qs)
  {
    if ps != [] {
      FlattenIgnoresDurations(ps[..|ps| - 1], qs[..|qs| - 1]);
      assert SamePattern(ps[|ps| - 1], qs[|qs| - 1]);
    }
  }

  /** For every package, well-formed or not: the result holds what is left of each event that survives,
      one for one and in their order. */
  lemma SeekKeepsEvents(p: Package, s: int)
    ensures AreSought(if |p.patterns| <= 1000 then Survivors(p.patterns, s) else [], s,
                      Flatten(SeekTime(p, s).patterns))
  {
    if |p.patterns| <= 1000 {
      var cut := CutPatterns(p.patterns, s);
      PatternsSought(p.patterns, s);
      RebuiltSame(cut);
      FlattenIgnoresDurations(Rebuilt(cut), cut);
    }
  }

  /** A pattern of the result is as long as its last event takes to end; an empty one as long as the
      pattern ahead of it. */
  ghost predicate EndsWithLast(ps: seq<Pattern>, k: nat)
    requires k < |ps|
  {
    ps[k].patternDuration ==
      if ps[k].events != [] then
        ps[k].events[|ps[k].events| - 1].time + ps[k].events[|ps[k].events| - 1].duration
      else if k == 0 then 0 else ps[k - 1].patternDuration
  }

  lemma RebuiltSnoc(ps: seq<Pattern>)
    requires ps != []
    ensures Rebuilt(ps) == Rebuilt(ps[..|ps| - 1]) + [ps[|ps| - 1].(patternDuration := LastEnd(ps))]
  {
  }

  lemma {:induction false} RebuiltEnds(ps: seq<Pattern>, k: nat)
    requires k < |ps|
    ensures EndsWithLast(Rebuilt(ps), k)
    ensures Rebuilt(ps)[|ps| - 1].patternDuration == LastEnd(ps)
  {
    var n := |ps| - 1;
    RebuiltSnoc(ps);
    var front, all := Rebuilt(ps[..n]), Rebuilt(ps);
    if n > 0 {
      RebuiltEnds(ps[..n], if k < n then k else n - 1);
    }
    if k < n {
      assert all[k] == front[k] && (k > 0 ==> all[k - 1] == front[k - 1]);
    } else if n > 0 {
      assert all[n - 1] == front[n - 1];
    }
  }

  lemma SeekRebuildsDurations(p: Package, s: int, k: nat)
    requires k < |SeekTime(p, s).patterns|
    ensures EndsWithLast(SeekTime(p, s).patterns, k)
  {
    RebuiltEnds(Converted(p, s).patterns, k);
  }
}
