/** How the events of a list fall into runs that MixedWaveProcess joins, read off the events alone: when
    the flat events start in time order, and when the joined curves are in time order and in range. No
    order of the events is asked for. */
module MixRuns {
  import opened Haptics
  import opened CurveMerge
  import opened CurveMergeProofs
  import opened CurveMergeValues
  import opened MixedWave

  /** What is open to joining after some events. Alone: nothing; there is no event yet, or the last one
      was a transient that joined no run. Open: a run, to which whatever begins before end is joined,
      with the times of all its curves, the latest end of a curve, and whether all its joins have met. */
  datatype Run = Alone | Open(end: int, knots: set<int>, last: int, ordered: bool)

  function AbsoluteCurve(e: Event): (c: seq<Point>)
    ensures c != []
  {
    PreProcessed(e).points
  }

  function LastTime(c: seq<Point>): int
    requires c != []
  {
    c[|c| - 1].time
  }

  predicate JoinsRun(run: Run, e: Event) {
    run.Open? && e.time < run.end
  }

  /** The curve begins after the run's curves have ended, or the earlier of the two ends is a time of both. */
  predicate Meets(run: Run, c: seq<Point>)
    requires run.Open? && c != []
  {
    || run.last < c[0].time
    || (Min(run.last, LastTime(c)) in run.knots && Min(run.last, LastTime(c)) in Times(c))
  }

  function RunWith(run: Run, e: Event): Run {
    var p, c := PreProcessed(e), AbsoluteCurve(e);
    if JoinsRun(run, e) then
      Open(Max(run.end, End(p)), run.knots + Times(c), Max(run.last, LastTime(c)), run.ordered && Meets(run, c))
    else if e.tag == Transient then Alone
    else Open(End(p), Times(c), LastTime(c), true)
  }

  function RunAfter(es: seq<Event>): Run {
    if es == [] then Alone else RunWith(RunAfter(es[..|es| - 1]), es[|es| - 1])
  }

  /** The run tells what the last flat event is. */
  ghost predicate Describes(run: Run, output: seq<Event>) {
    if output == [] then run.Alone?
    else
      var last := output[|output| - 1];
      && (run.Alone? <==> last.tag == Transient)
      && last.duration >= 0 && last.points != []
      && (run.Open? ==> run.end == End(last) && run.knots == Times(last.points))
  }

  lemma RunWithDescribes(run: Run, before: seq<Event>, e: Event)
    requires Describes(run, before)
    ensures Describes(RunWith(run, e), Added(before, PreProcessed(e))) && Added(before, PreProcessed(e)) != []
  {
    if JoinsRun(run, e) {
      var last := before[|before| - 1];
      MergeKeepsExactlyTheTimes(last.points, AbsoluteCurve(e));
      MergeNonEmpty(last.points, AbsoluteCurve(e));
    }
  }

  lemma {:induction false} RunDescribes(es: seq<Event>)
    ensures Describes(RunAfter(es), Mix(es)) && (es != [] ==> Mix(es) != [])
  {
    if es != [] {
      RunDescribes(es[..|es| - 1]);
      RunWithDescribes(RunAfter(es[..|es| - 1]), Mix(es[..|es| - 1]), es[|es| - 1]);
    }
  }

  // ----- the starts of the flat events -----

  lemma SortedSnoc(a: seq<Event>, x: Event)
    ensures StartSorted(a + [x]) <==> StartSorted(a) && (a != [] ==> a[|a| - 1].time <= x.time)
  {
    var c := a + [x];
    assert forall i :: 0 <= i < |a| ==> c[i] == a[i];
    if StartSorted(c) && a != [] {
      assert c[|a| - 1].time <= c[|a|].time;
    }
    if StartSorted(c) {
      forall i, j | 0 <= i < j < |a| ensures a[i].time <= a[j].time {
        assert c[i].time <= c[j].time;
      }
    }
  }

  lemma SameStarts(a: seq<Event>, b: seq<Event>)
    requires |a| == |b| && forall k :: 0 <= k < |a| ==> a[k].time == b[k].time
    ensures StartSorted(a) <==> StartSorted(b)
  {
  }

  /** Only an event that follows a lone transient can start before the flat event ahead of it. */
  lemma AddedSortedIff(run: Run, before: seq<Event>, e: Event)
    requires Describes(run, before)
    ensures StartSorted(Added(before, PreProcessed(e)))
       <==> StartSorted(before) && (run.Alone? && before != [] ==> before[|before| - 1].time <= e.time)
    ensures Added(before, PreProcessed(e))[0].time == if before == [] then e.time else before[0].time
  {
    var p, after := PreProcessed(e), Added(before, PreProcessed(e));
    if run.Alone? {
      SortedSnoc(before, p);
    } else {
      var n := |before| - 1;
      if e.time >= run.end {
        var front := before[..n] + [Trimmed(before[n], e.time)];
        assert after == front + [p];
        SameStarts(before, front);
        SortedSnoc(front, p);
      } else {
        SameStarts(before, after);
      }
    }
  }

  /** An event that follows a lone transient does not start before it. */
  ghost predicate InOrderAt(es: seq<Event>, k: nat)
    requires 0 < k < |es|
  {
    RunAfter(es[..k]).Alone? ==> es[k - 1].time <= es[k].time
  }

  ghost predicate TransientsInOrder(es: seq<Event>) {
    forall k :: 0 < k < |es| ==> InOrderAt(es, k)
  }

  lemma TransientsInOrderSnoc(es: seq<Event>)
    requires es != []
    ensures TransientsInOrder(es)
       <==> TransientsInOrder(es[..|es| - 1]) && (|es| > 1 ==> InOrderAt(es, |es| - 1))
  {
    var n := |es| - 1;
    forall k | 0 < k < n ensures InOrderAt(es[..n], k) <==> InOrderAt(es, k) {
      assert es[..n][..k] == es[..k];
    }
  }

  /** A lone transient starts where it was put. */
  lemma AloneStarts(es: seq<Event>)
    requires es != [] && RunAfter(es).Alone?
    ensures Mix(es) != [] && Mix(es)[|Mix(es)| - 1].time == es[|es| - 1].time
  {
    RunDescribes(es[..|es| - 1]);
  }

  /** For events in any order: the flat events start in time order exactly when no event that follows a
      lone transient starts before it; what is joined to a run, or follows one, cannot start early. The
      first flat event starts with the first event. */
  lemma {:induction false} MixStartsIff(es: seq<Event>)
    requires es != []
    ensures Mix(es) != [] && Mix(es)[0].time == es[0].time
    ensures StartSorted(Mix(es)) <==> TransientsInOrder(es)
  {
    var n := |es| - 1;
    RunDescribes(es[..n]);
    AddedSortedIff(RunAfter(es[..n]), Mix(es[..n]), es[n]);
    TransientsInOrderSnoc(es);
    if n > 0 {
      MixStartsIff(es[..n]);
      if RunAfter(es[..n]).Alone? {
        AloneStarts(es[..n]);
      }
    }
  }

  // ----- the order of the joined curves -----

  /** The event's own curve is in strict time order. */
  ghost predicate CleanCurve(e: Event) {
    TimeIncreasing(AbsoluteCurve(e))
  }

  ghost predicate AllClean(es: seq<Event>) {
    forall k :: 0 <= k < |es| ==> CleanCurve(es[k])
  }

  /** If event k is joined to a run, it meets it. */
  ghost predicate MeetsAt(es: seq<Event>, k: nat)
    requires k < |es|
  {
    JoinsRun(RunAfter(es[..k]), es[k]) ==> Meets(RunAfter(es[..k]), AbsoluteCurve(es[k]))
  }

  ghost predicate JoinsMeet(es: seq<Event>) {
    forall k :: 0 <= k < |es| ==> MeetsAt(es, k)
  }

  ghost predicate AllIncreasing(output: seq<Event>) {
    forall m :: 0 <= m < |output| ==> TimeIncreasing(output[m].points)
  }

  /** The curve of the last flat event is in order exactly when the joins of its run have met; it then
      ends when the run does. */
  ghost predicate Ordered(run: Run, output: seq<Event>) {
    run.Open? && output != [] ==>
      var c := output[|output| - 1].points;
      && (TimeIncreasing(c) <==> run.ordered)
      && (run.ordered ==> c != [] && LastTime(c) == run.last)
  }

  lemma RunWithOrdered(run: Run, before: seq<Event>, e: Event)
    requires Describes(run, before) && Ordered(run, before) && CleanCurve(e)
    ensures Ordered(RunWith(run, e), Added(before, PreProcessed(e)))
  {
    if JoinsRun(run, e) {
      var l, r := before[|before| - 1].points, AbsoluteCurve(e);
      if run.ordered {
        MergeIncreasingIff(l, r);
        if TimeIncreasing(Merge(l, r)) {
          MergeEndsLatest(l, r);
        }
      } else {
        MergeKeepsDisorder(l, r);
      }
    }
  }

  lemma {:induction false} RunOrdered(es: seq<Event>)
    requires AllClean(es)
    ensures Ordered(RunAfter(es), Mix(es))
  {
    if es != [] {
      var n := |es| - 1;
      RunOrdered(es[..n]);
      RunDescribes(es[..n]);
      RunWithOrdered(RunAfter(es[..n]), Mix(es[..n]), es[n]);
    }
  }

  lemma AllIncreasingSnoc(a: seq<Event>, x: Event)
    ensures AllIncreasing(a + [x]) <==> AllIncreasing(a) && TimeIncreasing(x.points)
  {
    var c := a + [x];
    assert forall m :: 0 <= m < |a| ==> c[m] == a[m];
    if AllIncreasing(c) {
      assert TimeIncreasing(c[|a|].points);
      forall m | 0 <= m < |a| ensures TimeIncreasing(a[m].points) {
        assert TimeIncreasing(c[m].points);
      }
    }
  }

  lemma LastIncreasing(output: seq<Event>)
    requires output != []
    ensures AllIncreasing(output)
       <==> AllIncreasing(output[..|output| - 1]) && TimeIncreasing(output[|output| - 1].points)
  {
    AllIncreasingSnoc(output[..|output| - 1], output[|output| - 1]);
    assert output == output[..|output| - 1] + [output[|output| - 1]];
  }

  /** One more event leaves all curves in order exactly when they were and it meets the run it joins. */
  lemma AddedIncreasingIff(run: Run, before: seq<Event>, e: Event)
    requires Describes(run, before) && Ordered(run, before) && CleanCurve(e)
    ensures AllIncreasing(Added(before, PreProcessed(e)))
       <==> AllIncreasing(before) && (JoinsRun(run, e) ==> Meets(run, AbsoluteCurve(e)))
  {
    var p, after := PreProcessed(e), Added(before, PreProcessed(e));
    if before == [] || run.Alone? {
      AllIncreasingSnoc(before, p);
    } else {
      var n := |before| - 1;
      LastIncreasing(before);
      if e.time >= run.end {
        AllIncreasingSnoc(before[..n], Trimmed(before[n], e.time));
        AllIncreasingSnoc(before[..n] + [Trimmed(before[n], e.time)], p);
        assert after == before[..n] + [Trimmed(before[n], e.time)] + [p];
      } else {
        AllIncreasingSnoc(before[..n], Joined(before[n], p));
        RunWithOrdered(run, before, e);
      }
    }
  }

  lemma JoinsMeetSnoc(es: seq<Event>)
    requires es != []
    ensures JoinsMeet(es) <==> JoinsMeet(es[..|es| - 1]) && MeetsAt(es, |es| - 1)
  {
    var n := |es| - 1;
    forall k | 0 <= k < n ensures MeetsAt(es[..n], k) <==> MeetsAt(es, k) {
      assert es[..n][..k] == es[..k];
    }
  }

  /** For events in any order whose own curves are in strict time order: every flat curve is in strict
      time order exactly when each event that joins a run meets it, that is, when the earlier of the two
      ends is a time of both or the run's curves have ended before. */
  lemma {:induction false} MixIncreasingIff(es: seq<Event>)
    requires AllClean(es)
    ensures AllIncreasing(Mix(es)) <==> JoinsMeet(es)
  {
    if es != [] {
      var n := |es| - 1;
      assert forall k :: 0 <= k < n ==> CleanCurve(es[k]);
      MixIncreasingIff(es[..n]);
      RunDescribes(es[..n]);
      RunOrdered(es[..n]);
      AddedIncreasingIff(RunAfter(es[..n]), Mix(es[..n]), es[n]);
      JoinsMeetSnoc(es);
    }
  }

  // ----- the range of the joined curves -----

  /** If event k is joined to a run, the joins of that run so far have met. */
  ghost predicate JoinsOrderedAt(es: seq<Event>, k: nat)
    requires k < |es|
  {
    JoinsRun(RunAfter(es[..k]), es[k]) ==> RunAfter(es[..k]).ordered
  }

  /** Nothing is joined to a run that is already out of order. */
  ghost predicate JoinsOrdered(es: seq<Event>) {
    forall k :: 0 <= k < |es| ==> JoinsOrderedAt(es, k)
  }

  ghost predicate AllInRange(output: seq<Event>) {
    forall m :: 0 <= m < |output| ==> InRange(output[m].points)
  }

  lemma AddedInRange(run: Run, before: seq<Event>, e: Event)
    requires Describes(run, before) && Ordered(run, before) && CleanCurve(e) && AllInRange(before)
    requires JoinsRun(run, e) ==> run.ordered
    ensures AllInRange(Added(before, PreProcessed(e)))
  {
    PreProcessedCurve(e);
    if JoinsRun(run, e) {
      MergeStaysInRange(before[|before| - 1].points, AbsoluteCurve(e));
    }
  }

  /** Every value of the flat list is in range as long as nothing is joined to a run that is already out
      of order; a join that is the last of its run need not meet. */
  lemma {:induction false} MixStaysInRange(es: seq<Event>)
    requires AllClean(es) && JoinsOrdered(es)
    ensures AllInRange(Mix(es))
  {
    if es != [] {
      var n := |es| - 1;
      forall k | 0 <= k < n ensures CleanCurve(es[..n][k]) && JoinsOrderedAt(es[..n], k) {
        assert CleanCurve(es[k]) && JoinsOrderedAt(es, k) && es[..n][..k] == es[..k];
      }
      MixStaysInRange(es[..n]);
      RunDescribes(es[..n]);
      RunOrdered(es[..n]);
      assert JoinsOrderedAt(es, n);
      AddedInRange(RunAfter(es[..n]), Mix(es[..n]), es[n]);
    }
  }

  /** Where all joins meet, no run gets out of order. */
  lemma MeetingJoinsAreOrdered(es: seq<Event>)
    requires JoinsMeet(es)
    ensures JoinsOrdered(es)
  {
    forall k | 0 <= k < |es| ensures JoinsOrderedAt(es, k) {
      RunMet(es, k);
    }
  }

  lemma {:induction false} RunMet(es: seq<Event>, k: nat)
    requires JoinsMeet(es) && k <= |es|
    ensures RunAfter(es[..k]).Open? ==> RunAfter(es[..k]).ordered
  {
    if k > 0 {
      RunMet(es, k - 1);
      assert es[..k][..k - 1] == es[..k - 1] && MeetsAt(es, k - 1);
    }
  }
}
