/** An accepted file whose flat list leaves the range the device accepts: three events of one pattern,
    where the join of the first two is out of time order when the third is joined to it. */
module HeRange {
  import opened Haptics
  import opened CurveMerge
  import opened MixedWave
  import opened MixRuns
  import H = HeDecoder

  function Knot(time: int, frequency: int): H.RawPoint {
    H.RawPoint(H.Value(time), H.Value(0.0), H.Value(frequency))
  }

  /** A continuous event with four knots, frequencies 0 but at the first and the last. */
  function Tone(start: int, t1: int, t2: int, t3: int, first: int, last: int): H.RawEvent {
    H.RawEvent(H.Value("continuous"), H.Value(t3), H.Missing, H.Value(start),
               H.Value(H.RawParameters(H.Value(100), H.Value(0),
                       H.Value([Knot(0, first), Knot(t1, 0), Knot(t2, 0), Knot(t3, last)]))))
  }

  function ToneCurve(start: int, t1: int, t2: int, t3: int, first: int, last: int): seq<Point> {
    [Point(start, 0, first), Point(start + t1, 0, 0), Point(start + t2, 0, 0), Point(start + t3, 0, last)]
  }

  lemma ToneAccepted(start: int, t1: int, t2: int, t3: int, first: int, last: int)
    requires start >= 0 && 0 < t1 < t2 < t3 <= H.CONTINUOUS_DURATION_MAX && 15 <= t3
    requires 0 <= first <= 100 && 0 <= last <= 100
    ensures H.AcceptsEvent(Tone(start, t1, t2, t3, first, last))
    ensures PreProcessed(H.EventOf(Tone(start, t1, t2, t3, first, last)))
         == Event(Continuous, start, t3, 100, 0, 0, ToneCurve(start, t1, t2, t3, first, last))
  {
    var c := Tone(start, t1, t2, t3, first, last).parameters.v.curve.v;
    forall k | 0 <= k < |c| ensures H.AcceptsPointAt(c, k, t3) {}
    var e := H.EventOf(Tone(start, t1, t2, t3, first, last));
    assert e.points == [Point(0, 0, first), Point(t1, 0, 0), Point(t2, 0, 0), Point(t3, 0, last)];
    assert forall k :: 0 <= k < 4 ==> ShiftPoint(e.points[k], e) == ToneCurve(start, t1, t2, t3, first, last)[k];
    assert PreProcessed(e).points == ToneCurve(start, t1, t2, t3, first, last);
  }

  const Tones := [H.Value(Tone(0, 1, 50, 1000, 0, 0)), H.Value(Tone(20, 1, 2, 80, 0, 100)),
                  H.Value(Tone(70, 1, 2, 30, 100, 0))]

  const TonesFile := H.RawFile(H.Value(1), H.Value(Tones), H.Missing)

  lemma TonesAccepted()
    ensures H.AcceptsFile(TonesFile)
    ensures Flatten(H.Decoded(TonesFile))
         == [H.EventOf(Tones[0].v), H.EventOf(Tones[1].v), H.EventOf(Tones[2].v)]
    ensures StartSorted(Flatten(H.Decoded(TonesFile)))
  {
    ToneAccepted(0, 1, 50, 1000, 0, 0);
    ToneAccepted(20, 1, 2, 80, 0, 100);
    ToneAccepted(70, 1, 2, 30, 100, 0);
    forall k | 0 <= k < |Tones| ensures H.AcceptsAt(Tones, k) {}
    var ps := H.Decoded(TonesFile);
    assert ps[..0] == [] && Placed(ps[0]) == H.Events(Tones);
  }

  // ----- the two joins -----

  const A := ToneCurve(0, 1, 50, 1000, 0, 0)
  const B := ToneCurve(20, 1, 2, 80, 0, 100)
  const C := ToneCurve(70, 1, 2, 30, 100, 0)

  /** The knot at 1000 ms is emitted before the one at 100 ms. */
  lemma FirstJoin()
    ensures var m := Merge(A, B);
            && |m| == 8 && (forall k :: 0 <= k < 6 ==> m[k].time <= 50)
            && m[0].time == 0 && m[6] == Point(1000, 0, 0) && m[7] == Point(100, 0, 100)
  {
    assert MergeFrom(A, B, 4, 4) == [];
    assert MergeFrom(A, B, 4, 3) == [B[3]];
    assert MergeFrom(A, B, 3, 3) == [A[3]] + MergeFrom(A, B, 4, 3);
    assert MergeFrom(A, B, 2, 3) == [BlendWith(A[2], B[2], B[3])] + MergeFrom(A, B, 3, 3);
    assert MergeFrom(A, B, 2, 2) == [BlendWith(B[2], A[1], A[2])] + MergeFrom(A, B, 2, 3);
    assert MergeFrom(A, B, 2, 1) == [BlendWith(B[1], A[1], A[2])] + MergeFrom(A, B, 2, 2);
    assert MergeFrom(A, B, 2, 0) == [BlendWith(B[0], A[1], A[2])] + MergeFrom(A, B, 2, 1);
    assert MergeFrom(A, B, 1, 0) == [A[1]] + MergeFrom(A, B, 2, 0);
    assert MergeFrom(A, B, 0, 0) == [A[0]] + MergeFrom(A, B, 1, 0);
  }

  /** What lies before the overlap, or after it, is passed on. */
  lemma {:induction false} LeftPassedOn(l: seq<Point>, r: seq<Point>, n: nat)
    requires l != [] && r != [] && n <= |l|
    requires forall k :: 0 <= k < n ==> Outside(l, r, l[k].time)
    ensures Merge(l, r) == l[..n] + MergeFrom(l, r, n, 0)
  {
    if n > 0 {
      LeftPassedOn(l, r, n - 1);
      assert l[..n] == l[..n - 1] + [l[n - 1]];
    }
  }

  /** The third curve is blended with the segment from 1000 ms back to 100 ms, which at 70 ms has the
      frequency 103. */
  lemma SecondJoin(m: seq<Point>)
    requires |m| == 8 && (forall k :: 0 <= k < 6 ==> m[k].time <= 50)
    requires m[0].time == 0 && m[6] == Point(1000, 0, 0) && m[7] == Point(100, 0, 100)
    ensures |Merge(m, C)| > 7 && Merge(m, C)[7] == Point(70, 0, 101)
  {
    LeftPassedOn(m, C, 7);
    assert Interpolation(1000, 100, 0, 100, 70) == 103;
    assert BlendWith(C[0], m[6], m[7]) == Point(70, 0, 101);
    assert MergeFrom(m, C, 7, 0) == [BlendWith(C[0], m[6], m[7])] + MergeFrom(m, C, 7, 1);
  }

  lemma ThirdOutOfRange()
    ensures |Merge(Merge(A, B), C)| > 7 && Merge(Merge(A, B), C)[7] == Point(70, 0, 101)
  {
    FirstJoin();
    SecondJoin(Merge(A, B));
  }

  lemma JoinsTheOne(es: seq<Event>, one: Event, e: Event)
    requires Mix(es) == [one] && one.tag == Continuous && e.time < End(one)
    ensures Mix(es + [e]) == [Joined(one, PreProcessed(e))]
  {
    assert (es + [e])[..|es|] == es;
  }

  /** Three events, each begun before the first has ended, join into one. */
  lemma MixThree(a: Event, b: Event, c: Event)
    requires a.tag == Continuous && b.time < End(PreProcessed(a)) && c.time < End(PreProcessed(a))
    ensures var flat := Mix([a, b, c]);
            |flat| == 1
            && flat[0].points == Merge(Merge(AbsoluteCurve(a), AbsoluteCurve(b)), AbsoluteCurve(c))
  {
    assert [a][..0] == [];
    var ab := Joined(PreProcessed(a), PreProcessed(b));
    JoinsTheOne([a], PreProcessed(a), b);
    JoinsTheOne([a, b], ab, c);
    assert [a] + [b] == [a, b] && [a, b] + [c] == [a, b, c];
  }

  lemma TonesMix()
    requires H.AcceptsFile(TonesFile)
    ensures var flat := Mix(Flatten(H.Decoded(TonesFile)));
            |flat| == 1 && flat[0].points == Merge(Merge(A, B), C)
  {
    TonesAccepted();
    ToneAccepted(0, 1, 50, 1000, 0, 0);
    ToneAccepted(20, 1, 2, 80, 0, 100);
    ToneAccepted(70, 1, 2, 30, 100, 0);
    MixThree(H.EventOf(Tones[0].v), H.EventOf(Tones[1].v), H.EventOf(Tones[2].v));
  }

  lemma OutOfRange(flat: seq<Event>, k: nat)
    requires |flat| == 1 && k < |flat[0].points| && !PointInRange(flat[0].points[k])
    ensures !AllInRange(flat)
  {
    assert !InRange(flat[0].points);
  }

  /** A file of one pattern, events in time order, is accepted, and the flat list it is played from holds
      one event with a point of frequency 101. */
  lemma AcceptedFileCanLeaveRange()
    ensures H.AcceptsFile(TonesFile) && StartSorted(Flatten(H.Decoded(TonesFile)))
    ensures var flat := Mix(Flatten(H.Decoded(TonesFile)));
            && |flat| == 1 && |flat[0].points| > 7 && flat[0].points[7].frequency == 101
            && !AllInRange(flat)
  {
    TonesAccepted();
    TonesMix();
    ThirdOutOfRange();
    OutOfRange(Mix(Flatten(H.Decoded(TonesFile))), 7);
  }
}
