/** What the flat list holds, read off the events alone: runs of events that overlap, each played as one
    event, cut short where the next one follows closely. */
module FlatEvents {
  import opened Haptics
  import opened CurveMerge
  import opened MixedWave

  // ----- a run of events -----

  /** When the event ends, as no event is shorter than 15 ms. */
  function LongEnd(e: Event): int {
    e.time + if e.duration < 15 then 15 else e.duration
  }

  ghost predicate IsLatestEnd(run: seq<Event>, t: int) {
    (forall j :: 0 <= j < |run| ==> LongEnd(run[j]) <= t) && exists j :: 0 <= j < |run| && LongEnd(run[j]) == t
  }

  ghost predicate AllPrepared(run: seq<Event>, cs: seq<Event>) {
    |cs| == |run| && forall j :: 0 <= j < |run| ==> IsPrepared(run[j], cs[j])
  }

  /** The curves of some events, merged in their order. */
  function JoinedCurve(cs: seq<Event>): seq<Point> {
    if cs == [] then [] else Merge(JoinedCurve(cs[..|cs| - 1]), cs[|cs| - 1].points)
  }

  /** The curve is that of the events of the run, each prepared, merged in their order. */
  ghost predicate IsJoinedCurve(run: seq<Event>, c: seq<Point>) {
    exists cs :: AllPrepared(run, cs) && c == JoinedCurve(cs)
  }

  /** A run as one event: it has the start, strength, frequency and index of its first, ends with the last
      of them to end, and is continuous unless it is one event that is not. */
  ghost predicate IsRunEvent(run: seq<Event>, o: Event) {
    && run != [] && o.time == run[0].time
    && o.intensity == run[0].intensity && o.frequency == run[0].frequency && o.index == run[0].index
    && o.tag == (if |run| == 1 then run[0].tag else Continuous)
    && IsLatestEnd(run, o.time + o.duration) && IsJoinedCurve(run, o.points)
  }

  /** The event begins before the run has ended, and the run is not a lone transient. */
  ghost predicate JoinsOn(run: seq<Event>, e: Event) {
    && !(|run| == 1 && run[0].tag == Transient)
    && exists j :: 0 <= j < |run| && e.time < LongEnd(run[j])
  }

  /** o is the run event with 20 ms cleared ahead of the next start: cut where it ends less than 20 ms
      before, unless it is a transient, and to nothing at most. */
  ghost predicate IsCleared(uncut: Event, next: int, o: Event) {
    && o == uncut.(duration := o.duration)
    && if uncut.tag == Transient || next - (uncut.time + uncut.duration) >= 20 then o.duration == uncut.duration
       else if next - 20 >= uncut.time then o.time + o.duration == next - 20
       else o.duration == 0
  }

  // ----- the flat list -----

  ghost predicate IsRun(es: seq<Event>, from: nat, to: nat)
    requires from < to <= |es|
  {
    && (forall k :: from < k < to ==> JoinsOn(es[from..k], es[k]))
    && (to < |es| ==> !JoinsOn(es[from..to], es[to]))
  }

  /** The m-th flat event is the m-th run, from one cut to the next, cleared for the run that follows. */
  ghost predicate FlatAt(es: seq<Event>, flat: seq<Event>, cuts: seq<nat>, uncut: seq<Event>, m: nat)
    requires m < |flat| == |uncut| && |cuts| == |flat| + 1
  {
    && cuts[m] < cuts[m + 1] <= |es|
    && IsRun(es, cuts[m], cuts[m + 1]) && IsRunEvent(es[cuts[m]..cuts[m + 1]], uncut[m])
    && if m == |flat| - 1 then flat[m] == uncut[m]
       else cuts[m + 1] < |es| && IsCleared(uncut[m], es[cuts[m + 1]].time, flat[m])
  }

  /** The cuts divide the events into as many runs as there are flat events. */
  ghost predicate IsFlat(es: seq<Event>, flat: seq<Event>, cuts: seq<nat>, uncut: seq<Event>) {
    && |uncut| == |flat| && |cuts| == |flat| + 1 && cuts[0] == 0 && cuts[|flat|] == |es|
    && forall m :: 0 <= m < |flat| ==> FlatAt(es, flat, cuts, uncut, m)
  }

  lemma OneIsRun(e: Event)
    ensures IsRunEvent([e], PreProcessed(e))
  {
    EventIsPrepared(e);
    var cs := [PreProcessed(e)];
    assert cs[..0] == [] && AllPrepared([e], cs) && JoinedCurve(cs) == PreProcessed(e).points;
    assert LongEnd([e][0]) == End(PreProcessed(e));
  }

  lemma JoinedCurves(run: seq<Event>, e: Event, c: seq<Point>)
    requires IsJoinedCurve(run, c)
    ensures IsJoinedCurve(run + [e], Merge(c, PreProcessed(e).points))
  {
    var p := PreProcessed(e);
    EventIsPrepared(e);
    var cs :| AllPrepared(run, cs) && c == JoinedCurve(cs);
    assert (cs + [p])[..|cs|] == cs && AllPrepared(run + [e], cs + [p]);
  }

  lemma LatestOfBoth(run: seq<Event>, e: Event, t: int)
    requires IsLatestEnd(run, t)
    ensures IsLatestEnd(run + [e], Max(t, LongEnd(e)))
  {
    var r := run + [e];
    var j :| 0 <= j < |run| && LongEnd(run[j]) == t;
    assert LongEnd(r[j]) == t && LongEnd(r[|run|]) == LongEnd(e);
  }

  lemma JoinedIsRun(run: seq<Event>, e: Event, o: Event)
    requires IsRunEvent(run, o) && JoinsOn(run, e)
    ensures o.tag != Transient && e.time < End(o)
    ensures IsRunEvent(run + [e], Joined(o, PreProcessed(e)))
  {
    JoinedCurves(run, e, o.points);
    LatestOfBoth(run, e, End(o));
    assert LongEnd(e) == End(PreProcessed(e));
  }

  lemma ClosedRun(run: seq<Event>, e: Event, o: Event)
    requires IsRunEvent(run, o) && !JoinsOn(run, e)
    ensures o.tag == Transient || e.time >= End(o)
    ensures IsCleared(o, e.time, if o.tag == Transient then o else Trimmed(o, e.time))
  {
    var j :| 0 <= j < |run| && LongEnd(run[j]) == End(o);
  }

  /** Runs that are over stay what they were when an event follows. */
  lemma EarlierRunStays(es: seq<Event>, e: Event, from: nat, to: nat)
    requires from < to <= |es| && IsRun(es, from, to) && (to == |es| ==> !JoinsOn(es[from..], e))
    ensures IsRun(es + [e], from, to) && (es + [e])[from..to] == es[from..to]
  {
    var all := es + [e];
    assert all[from..to] == es[from..to];
    assert to == |es| ==> es[from..to] == es[from..];
    forall k | from < k < to ensures JoinsOn(all[from..k], all[k]) {
      assert all[from..k] == es[from..k] && JoinsOn(es[from..k], es[k]);
    }
  }

  lemma RunGrows(es: seq<Event>, e: Event, from: nat)
    requires from < |es| && IsRun(es, from, |es|) && JoinsOn(es[from..], e)
    ensures IsRun(es + [e], from, |es| + 1) && (es + [e])[from..] == es[from..] + [e]
  {
    var all := es + [e];
    forall k | from < k < |es| + 1 ensures JoinsOn(all[from..k], all[k]) {
      if k < |es| {
        assert all[from..k] == es[from..k] && JoinsOn(es[from..k], es[k]);
      } else {
        assert all[from..k] == es[from..];
      }
    }
  }

  lemma LoneIsRun(es: seq<Event>, e: Event)
    ensures IsRun(es + [e], |es|, |es| + 1) && (es + [e])[|es|..] == [e]
  {
  }

  lemma EarlierStays(es: seq<Event>, e: Event, flat: seq<Event>, cuts: seq<nat>, uncut: seq<Event>,
                     flat': seq<Event>, cuts': seq<nat>, uncut': seq<Event>, m: nat)
    requires |uncut| == |flat| && |cuts| == |flat| + 1 && |uncut'| == |flat'| && |cuts'| == |flat'| + 1
    requires m < |flat| - 1 && m < |flat'| - 1 && FlatAt(es, flat, cuts, uncut, m)
    requires flat'[m] == flat[m] && uncut'[m] == uncut[m] && cuts'[m] == cuts[m] && cuts'[m + 1] == cuts[m + 1]
    ensures FlatAt(es + [e], flat', cuts', uncut', m)
  {
    EarlierRunStays(es, e, cuts[m], cuts[m + 1]);
  }

  lemma LastRun(es: seq<Event>, flat: seq<Event>, cuts: seq<nat>, uncut: seq<Event>)
    requires flat != [] && IsFlat(es, flat, cuts, uncut)
    ensures var last := |flat| - 1;
            && cuts[last] < cuts[last + 1] == |es| && IsRun(es, cuts[last], |es|)
            && IsRunEvent(es[cuts[last]..], uncut[last]) && flat[last] == uncut[last]
  {
    var last := |flat| - 1;
    assert FlatAt(es, flat, cuts, uncut, last);
    assert es[cuts[last]..cuts[last + 1]] == es[cuts[last]..];
  }

  lemma MakesFlat(es: seq<Event>, flat: seq<Event>, cuts: seq<nat>, uncut: seq<Event>, m: nat,
                  from: nat, to: nat, run: seq<Event>)
    requires m < |flat| == |uncut| && |cuts| == |flat| + 1 && cuts[m] == from && cuts[m + 1] == to
    requires from < to <= |es| && run == es[from..to] && IsRun(es, from, to) && IsRunEvent(run, uncut[m])
    requires if m == |flat| - 1 then flat[m] == uncut[m]
             else to < |es| && IsCleared(uncut[m], es[to].time, flat[m])
    ensures FlatAt(es, flat, cuts, uncut, m)
  {
  }

  /** The run of joined with the event takes the place of the last. */
  lemma FlatJoined(es: seq<Event>, e: Event, flat: seq<Event>, cuts: seq<nat>, uncut: seq<Event>,
                   last: nat, joined: Event, flat': seq<Event>, cuts': seq<nat>, uncut': seq<Event>)
    requires flat != [] && IsFlat(es, flat, cuts, uncut) && last == |flat| - 1
    requires cuts[last] < |es| && IsRun(es + [e], cuts[last], |es| + 1)
    requires IsRunEvent((es + [e])[cuts[last]..], joined)
    requires flat' == flat[last := joined] && uncut' == uncut[last := joined]
    requires cuts' == cuts[last + 1 := |es| + 1]
    ensures IsFlat(es + [e], flat', cuts', uncut')
  {
    var all := es + [e];
    forall m | 0 <= m < last ensures FlatAt(all, flat', cuts', uncut', m) {
      EarlierStays(es, e, flat, cuts, uncut, flat', cuts', uncut', m);
    }
    assert all[cuts[last]..|es| + 1] == all[cuts[last]..];
    MakesFlat(all, flat', cuts', uncut', last, cuts[last], |es| + 1, all[cuts[last]..]);
  }

  /** The last run is over, and the event is a run of its own. */
  lemma FlatOpened(es: seq<Event>, e: Event, flat: seq<Event>, cuts: seq<nat>, uncut: seq<Event>,
                   last: nat, cleared: Event, p: Event, flat': seq<Event>, cuts': seq<nat>, uncut': seq<Event>)
    requires flat != [] && IsFlat(es, flat, cuts, uncut) && last == |flat| - 1 && cuts[last] < |es|
    requires IsRun(es + [e], cuts[last], |es|) && IsRunEvent((es + [e])[cuts[last]..|es|], uncut[last])
    requires IsCleared(uncut[last], e.time, cleared)
    requires IsRun(es + [e], |es|, |es| + 1) && IsRunEvent([e], p)
    requires flat' == flat[..last] + [cleared, p] && uncut' == uncut + [p] && cuts' == cuts + [|es| + 1]
    ensures IsFlat(es + [e], flat', cuts', uncut')
  {
    var all := es + [e];
    forall m | 0 <= m < last ensures FlatAt(all, flat', cuts', uncut', m) {
      EarlierStays(es, e, flat, cuts, uncut, flat', cuts', uncut', m);
    }
    MakesFlat(all, flat', cuts', uncut', last, cuts[last], |es|, all[cuts[last]..|es|]);
    MakesFlat(all, flat', cuts', uncut', last + 1, |es|, |es| + 1, [e]);
  }

  lemma FlatJoins(es: seq<Event>, e: Event, flat: seq<Event>, cuts: seq<nat>, uncut: seq<Event>, from: nat, o: Event)
    returns (cuts': seq<nat>, uncut': seq<Event>)
    requires flat != [] && IsFlat(es, flat, cuts, uncut)
    requires from == cuts[|flat| - 1] < |es| && o == uncut[|flat| - 1] == flat[|flat| - 1]
    requires IsRun(es, from, |es|) && IsRunEvent(es[from..], o) && JoinsOn(es[from..], e)
    ensures IsFlat(es + [e], Added(flat, PreProcessed(e)), cuts', uncut')
  {
    var last, joined := |flat| - 1, Joined(o, PreProcessed(e));
    JoinedIsRun(es[from..], e, o);
    RunGrows(es, e, from);
    AddedJoins(flat, o, PreProcessed(e));
    cuts', uncut' := cuts[last + 1 := |es| + 1], uncut[last := joined];
    FlatJoined(es, e, flat, cuts, uncut, last, joined, Added(flat, PreProcessed(e)), cuts', uncut');
  }

  lemma AddedJoins(flat: seq<Event>, o: Event, p: Event)
    requires flat != [] && o == flat[|flat| - 1] && o.tag != Transient && p.time < End(o)
    ensures Added(flat, p) == flat[|flat| - 1 := Joined(o, p)]
  {
  }

  lemma AddedOpens(flat: seq<Event>, o: Event, p: Event)
    requires flat != [] && o == flat[|flat| - 1] && (o.tag == Transient || p.time >= End(o))
    ensures Added(flat, p)
         == flat[..|flat| - 1] + [if o.tag == Transient then o else Trimmed(o, p.time), p]
  {
    assert flat == flat[..|flat| - 1] + [o];
  }

  lemma FlatOpens(es: seq<Event>, e: Event, flat: seq<Event>, cuts: seq<nat>, uncut: seq<Event>, from: nat, o: Event)
    returns (cuts': seq<nat>, uncut': seq<Event>)
    requires flat != [] && IsFlat(es, flat, cuts, uncut)
    requires from == cuts[|flat| - 1] < |es| && o == uncut[|flat| - 1] == flat[|flat| - 1]
    requires IsRun(es, from, |es|) && IsRunEvent(es[from..], o) && !JoinsOn(es[from..], e)
    ensures IsFlat(es + [e], Added(flat, PreProcessed(e)), cuts', uncut')
  {
    var last, p := |flat| - 1, PreProcessed(e);
    ClosedRun(es[from..], e, o);
    EarlierRunStays(es, e, from, |es|);
    assert es[from..|es|] == es[from..];
    OneIsRun(e);
    LoneIsRun(es, e);
    AddedOpens(flat, o, p);
    cuts', uncut' := cuts + [|es| + 1], uncut + [p];
    FlatOpened(es, e, flat, cuts, uncut, last, if o.tag == Transient then o else Trimmed(o, e.time), p,
               Added(flat, p), cuts', uncut');
  }

  lemma FlatOneMore(es: seq<Event>, e: Event, flat: seq<Event>, cuts: seq<nat>, uncut: seq<Event>)
    returns (cuts': seq<nat>, uncut': seq<Event>)
    requires flat != [] && IsFlat(es, flat, cuts, uncut)
    ensures IsFlat(es + [e], Added(flat, PreProcessed(e)), cuts', uncut')
  {
    LastRun(es, flat, cuts, uncut);
    var from, o := cuts[|flat| - 1], uncut[|flat| - 1];
    if JoinsOn(es[from..], e) {
      cuts', uncut' := FlatJoins(es, e, flat, cuts, uncut, from, o);
    } else {
      cuts', uncut' := FlatOpens(es, e, flat, cuts, uncut, from, o);
    }
  }

  /** For events in any order: the flat list is the list of their runs, each as one event, cleared for the
      next. An event belongs to the run ahead of it exactly when it begins before one of that run has ended,
      and the run is not a lone transient. */
  lemma {:induction false} FlatListIs(es: seq<Event>) returns (cuts: seq<nat>, uncut: seq<Event>)
    ensures IsFlat(es, Mix(es), cuts, uncut)
  {
    if es == [] {
      cuts, uncut := [0], [];
    } else {
      var n := |es| - 1;
      var front, e := es[..n], es[n];
      assert es == front + [e];
      cuts, uncut := FlatListIs(front);
      var flat := Mix(front);
      if flat == [] {
        OneIsRun(e);
        LoneIsRun([], e);
        assert front == [] && [] + [e] == [e];
        cuts, uncut := [0, 1], [PreProcessed(e)];
        assert es[0..1] == [e] && FlatAt(es, Mix(es), cuts, uncut, 0);
      } else {
        cuts, uncut := FlatOneMore(front, e, flat, cuts, uncut);
      }
    }
  }
}
