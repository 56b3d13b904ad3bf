/** From a decoded file to the waits of the thread that plays it: nothing is played out of turn and
    the whole takes as long as the flat event list says. */
module EndToEnd {
  import opened Wrappers
  import opened Haptics
  import opened MixRuns
  import opened MixedWave
  import opened CompositeEffects
  import opened Playback
  import opened OhDecoder

  predicate GoodEvent(e: Event) {
    e.time >= 0 && e.duration >= 0 && e.tag != UnknownTag
  }

  ghost predicate AllGood(es: seq<Event>) {
    forall k :: 0 <= k < |es| ==> GoodEvent(es[k])
  }

  /** In time order from time zero on, every event continuous or transient. */
  ghost predicate Orderly(es: seq<Event>) {
    StartSorted(es) && AllGood(es)
  }

  /** What the decoder delivers is orderly. */
  lemma DecodedIsOrderly(raws: seq<RawEvent>, parsed: seq<Event>, flat: seq<Event>)
    requires DecodesAll(raws, parsed) && StartSorted(flat) && multiset(flat) == multiset(parsed)
    ensures Orderly(flat)
  {
    forall k | 0 <= k < |flat| ensures GoodEvent(flat[k]) {
      assert flat[k] in multiset(flat);
      assert flat[k] in parsed;
      var m :| 0 <= m < |parsed| && parsed[m] == flat[k];
      assert DecodesAt(raws, parsed, m);
    }
  }

  // ----- choosing events by position keeps the order -----

  ghost predicate Within(es: seq<Event>, lo: int, hi: int) {
    forall k :: 0 <= k < |es| ==> lo <= es[k].time <= hi && GoodEvent(es[k])
  }

  lemma OrderlyParts(a: seq<Event>, b: seq<Event>)
    requires Orderly(a + b)
    ensures Orderly(a) && Orderly(b)
    ensures forall i, j :: 0 <= i < |a| && 0 <= j < |b| ==> a[i].time <= b[j].time
  {
    var c := a + b;
    assert forall i :: 0 <= i < |a| ==> c[i] == a[i];
    assert forall j :: 0 <= j < |b| ==> c[|a| + j] == b[j];
    forall i, j | 0 <= i < j < |b| ensures b[i].time <= b[j].time {
      assert c[|a| + i].time <= c[|a| + j].time;
    }
    forall j | 0 <= j < |b| ensures GoodEvent(b[j]) {
      assert GoodEvent(c[|a| + j]);
    }
    forall i | 0 <= i < |a| ensures GoodEvent(a[i]) {
      assert GoodEvent(c[i]);
    }
    forall i, j | 0 <= i < |a| && 0 <= j < |b| ensures a[i].time <= b[j].time {
      assert c[i].time <= c[|a| + j].time;
    }
  }

  lemma OrderlyJoin(a: seq<Event>, b: seq<Event>, lo: int, mid: int, hi: int)
    requires Orderly(a) && Orderly(b) && Within(a, lo, mid) && Within(b, mid, hi) && lo <= mid <= hi
    ensures Orderly(a + b) && Within(a + b, lo, hi)
  {
  }

  /** The chosen events of one pattern, in absolute time. */
  lemma {:induction false} KeptOrderly(es: seq<Event>, start: int, position: int, lo: int, hi: int)
    requires Orderly(Placed(Pattern(start, 0, es))) && Within(Placed(Pattern(start, 0, es)), lo, hi)
    ensures var kept := Placed(Pattern(start, 0, KeptEvents(es, position)));
            Orderly(kept) && Within(kept, lo, hi)
  {
    if es != [] {
      var n := |es| - 1;
      var all := Placed(Pattern(start, 0, es));
      var front := Placed(Pattern(start, 0, es[..n]));
      assert all == front + [all[n]];
      OrderlyParts(front, [all[n]]);
      forall k | 0 <= k < n ensures lo <= front[k].time <= all[n].time && GoodEvent(front[k]) {
        assert front[k] == all[k];
      }
      KeptOrderly(es[..n], start, position, lo, all[n].time);
      var kept := Placed(Pattern(start, 0, KeptEvents(es[..n], position)));
      if Selects(es[n], position) {
        assert Placed(Pattern(start, 0, KeptEvents(es, position))) == kept + [all[n]];
        OrderlyJoin(kept, [all[n]], lo, all[n].time, hi);
      } else {
        assert KeptEvents(es, position) == KeptEvents(es[..n], position);
      }
    }
  }

  lemma FlattenKeptSnoc(ps: seq<Pattern>, position: int)
    requires ps != []
    ensures var p := ps[|ps| - 1];
            Flatten(KeptPatterns(ps, position))
            == Flatten(KeptPatterns(ps[..|ps| - 1], position)) + Placed(p.(events := KeptEvents(p.events, position)))
  {
    var p := ps[|ps| - 1];
    var front, whole := KeptPatterns(ps[..|ps| - 1], position), KeptPatterns(ps, position);
    if KeptEvents(p.events, position) == [] {
      assert whole == front;
      assert Placed(p.(events := KeptEvents(p.events, position))) == [];
    } else {
      assert whole[..|whole| - 1] == front;
    }
  }

  /** Choosing the events of one vibrator from an orderly package leaves it orderly. */
  lemma {:induction false} KeptPatternsOrderly(ps: seq<Pattern>, position: int, hi: int)
    requires Orderly(Flatten(ps)) && Within(Flatten(ps), 0, hi) && hi >= 0
    ensures var kept := Flatten(KeptPatterns(ps, position));
            Orderly(kept) && Within(kept, 0, hi)
  {
    if ps != [] {
      var n := |ps| - 1;
      var p := ps[n];
      var front, last := Flatten(ps[..n]), Placed(p);
      OrderlyParts(front, last);
      WithinParts(front, last, hi);
      var mid := if last != [] then last[0].time else hi;
      KeptPatternsOrderly(ps[..n], position, mid);
      assert Placed(Pattern(p.startTime, 0, p.events)) == last;
      KeptOrderly(p.events, p.startTime, position, mid, hi);
      var kept := Placed(p.(events := KeptEvents(p.events, position)));
      assert kept == Placed(Pattern(p.startTime, 0, KeptEvents(p.events, position)));
      FlattenKeptSnoc(ps, position);
      OrderlyJoin(Flatten(KeptPatterns(ps[..n], position)), kept, 0, mid, hi);
    }
  }

  lemma WithinParts(a: seq<Event>, b: seq<Event>, hi: int)
    requires Orderly(a + b) && Within(a + b, 0, hi) && hi >= 0
    ensures var mid := if b != [] then b[0].time else hi;
            0 <= mid <= hi && Within(a, 0, mid) && Within(b, mid, hi)
  {
    var c := a + b;
    OrderlyParts(a, b);
    forall i | 0 <= i < |a| ensures 0 <= a[i].time <= hi && GoodEvent(a[i]) {
      assert c[i] == a[i];
    }
    forall j | 0 <= j < |b| ensures 0 <= b[j].time <= hi && GoodEvent(b[j]) {
      assert c[|a| + j] == b[j];
    }
  }

  function Latest(es: seq<Event>): int {
    if es == [] then 0 else Max(es[|es| - 1].time, 0)
  }

  // ----- the flat list and its effects -----

  lemma {:induction false} MixTags(es: seq<Event>)
    requires forall k :: 0 <= k < |es| ==> GoodEvent(es[k])
    ensures forall m :: 0 <= m < |Mix(es)| ==> Mix(es)[m].tag != UnknownTag
  {
    if es != [] {
      MixTags(es[..|es| - 1]);
    }
  }

  /** Every encoding of the flat list keeps its timing, and has non-negative delays only exactly when no
      event that follows a lone transient starts before it. */
  lemma GoodPlaysInTurnIff(es: seq<Event>, waves: seq<Wave>)
    requires AllGood(es) && es != []
    ensures Mix(es) != [] && AllPlayable(waves, Mix(es))
    ensures Encodes(Mix(es), TimeEffects(Mix(es))) && Encodes(Mix(es), PrimitiveEffects(waves, Mix(es)))
    ensures NonNegativeDelays(TimeEffects(Mix(es))) <==> TransientsInOrder(es)
    ensures NonNegativeDelays(PrimitiveEffects(waves, Mix(es))) <==> TransientsInOrder(es)
  {
    var flat := Mix(es);
    MixStartsIff(es);
    RunDescribes(es);
    MixTags(es);
    EffectsKeepTiming(waves, flat);
    assert GoodEvent(es[0]);
    DelaysNonNegativeIff(flat, TimeEffects(flat));
    DelaysNonNegativeIff(flat, PrimitiveEffects(waves, flat));
    forall m | 0 <= m < |flat| ensures Playable(waves, flat[m]) {}
  }

  lemma SortedTransientsInOrder(es: seq<Event>)
    requires StartSorted(es)
    ensures TransientsInOrder(es)
  {
    forall k | 0 < k < |es| ensures InOrderAt(es, k) {
      assert es[k - 1].time <= es[k].time;
    }
  }

  /** An orderly input gives a flat list every encoding of which has non-negative delays only. */
  lemma OrderlyPlaysInTurn(es: seq<Event>, waves: seq<Wave>)
    requires Orderly(es) && es != []
    ensures Mix(es) != [] && AllPlayable(waves, Mix(es))
    ensures Encodes(Mix(es), TimeEffects(Mix(es))) && NonNegativeDelays(TimeEffects(Mix(es)))
    ensures Encodes(Mix(es), PrimitiveEffects(waves, Mix(es))) && NonNegativeDelays(PrimitiveEffects(waves, Mix(es)))
  {
    SortedTransientsInOrder(es);
    GoodPlaysInTurnIff(es, waves);
  }

  /** The events a composite request plays at a position. */
  function PlayedEvents(info: VibrateInfo, position: int): seq<Event> {
    Flatten(if info.mode == CustomCompositeEffect then KeptPatterns(info.package.patterns, position)
            else info.package.patterns)
  }

  /** The effects a composite request amounts to at a position. */
  function RequestEffects(info: VibrateInfo, position: int, waves: seq<Wave>): seq<CompositeEffect>
    requires Mix(PlayedEvents(info, position)) != []
  {
    if info.mode == CustomCompositeEffect then PrimitiveEffects(waves, Mix(PlayedEvents(info, position)))
    else TimeEffects(Mix(PlayedEvents(info, position)))
  }

  lemma CompositePlan(info: VibrateInfo, position: int, waves: seq<Wave>)
    requires info.mode == CustomCompositeEffect || info.mode == CustomCompositeTime
    requires Mix(PlayedEvents(info, position)) != [] && AllPlayable(waves, Mix(PlayedEvents(info, position)))
    ensures Plan(info, position, waves) == CompositeSteps(RequestEffects(info, position, waves), 0, [], 0)
  {
    var flat, es := Mix(PlayedEvents(info, position)), RequestEffects(info, position, waves);
    if info.mode == CustomCompositeEffect {
      assert es == PrimitiveEffects(waves, flat);
    } else {
      assert flat == FlatEvents(info.package) && es == TimeEffects(flat);
    }
  }

  lemma PlayedInOrder(info: VibrateInfo, position: int)
    requires Orderly(Flatten(info.package.patterns))
    ensures Orderly(PlayedEvents(info, position))
  {
    var all := Flatten(info.package.patterns);
    assert Within(all, 0, Latest(all));
    KeptPatternsOrderly(info.package.patterns, position, Latest(all));
  }

  /** A composite request, undisturbed, that plays continuous and transient events from time zero on, in
      any order: the waits add up to the end of the last flat event, and the delays handed to the device
      encode the flat list; they are all non-negative exactly when no event that follows a lone
      transient starts before it. Each effect plays its flat event. */
  lemma CompositePlaysInTurnIff(info: VibrateInfo, position: int, waves: seq<Wave>, env: Env)
    requires info.mode == CustomCompositeEffect || info.mode == CustomCompositeTime
    requires AllGood(PlayedEvents(info, position)) && PlayedEvents(info, position) != [] && Undisturbed(env)
    ensures var flat := Mix(PlayedEvents(info, position));
            var (outcome, acts) := Exec(Plan(info, position, waves), 0, env);
            && flat != [] && outcome == Finished
            && PlaysInParts(Parts(acts), Sleeps(acts))
            && Encodes(flat, Concat(Parts(acts)))
            && Sum(Sleeps(acts)) == End(flat[|flat| - 1])
            && (NonNegativeDelays(Concat(Parts(acts))) <==> TransientsInOrder(PlayedEvents(info, position)))
            && (if info.mode == CustomCompositeTime then PlaysTimed(flat, Concat(Parts(acts)))
                else PlaysPrimitives(waves, flat, Concat(Parts(acts))))
  {
    GoodPlaysInTurnIff(PlayedEvents(info, position), waves);
    EffectsPlay(waves, Mix(PlayedEvents(info, position)));
    CompositePlan(info, position, waves);
    CompositeRun(RequestEffects(info, position, waves), env);
  }

  /** A composite request for an orderly package, undisturbed: the parts handed to the device hold
      non-negative delays only, and the waits add up to the end of the last flat event. */
  lemma CompositePlaysOnTime(info: VibrateInfo, position: int, waves: seq<Wave>, env: Env)
    requires info.mode == CustomCompositeEffect || info.mode == CustomCompositeTime
    requires Orderly(Flatten(info.package.patterns)) && Undisturbed(env)
    requires PlayedEvents(info, position) != []
    ensures var flat := Mix(PlayedEvents(info, position));
            var (outcome, acts) := Exec(Plan(info, position, waves), 0, env);
            && flat != [] && outcome == Finished
            && PlaysInParts(Parts(acts), Sleeps(acts))
            && Encodes(flat, Concat(Parts(acts))) && NonNegativeDelays(Concat(Parts(acts)))
            && Sum(Sleeps(acts)) == End(flat[|flat| - 1])
  {
    PlayedInOrder(info, position);
    SortedTransientsInOrder(PlayedEvents(info, position));
    CompositePlaysInTurnIff(info, position, waves, env);
  }

  /** The whole way: for any file the decoder accepts, at any position, in either composite mode. */
  lemma DecodedFilePlaysOnTime(raws: seq<RawEvent>, parsed: seq<Event>, info: VibrateInfo, position: int,
                               waves: seq<Wave>, env: Env)
    requires DecodesAll(raws, parsed)
    requires StartSorted(Flatten(info.package.patterns))
    requires multiset(Flatten(info.package.patterns)) == multiset(parsed)
    requires info.mode == CustomCompositeEffect || info.mode == CustomCompositeTime
    requires Undisturbed(env) && PlayedEvents(info, position) != []
    ensures var flat := Mix(PlayedEvents(info, position));
            var (outcome, acts) := Exec(Plan(info, position, waves), 0, env);
            && flat != [] && outcome == Finished
            && Encodes(flat, Concat(Parts(acts))) && NonNegativeDelays(Concat(Parts(acts)))
            && Sum(Sleeps(acts)) == End(flat[|flat| - 1])
  {
    DecodedIsOrderly(raws, parsed, Flatten(info.package.patterns));
    CompositePlaysOnTime(info, position, waves, env);
  }

  // ----- where the played events come from -----

  /** The event is one of a pattern, placed in absolute time. */
  ghost predicate From(ps: seq<Pattern>, e: Event) {
    exists a, b :: 0 <= a < |ps| && 0 <= b < |ps[a].events| && e == PlacedAt(ps[a], b)
  }

  function PlacedAt(p: Pattern, b: nat): Event
    requires b < |p.events|
  {
    p.events[b].(time := p.events[b].time + p.startTime)
  }

  lemma FromMore(ps: seq<Pattern>, n: nat, e: Event)
    requires n <= |ps| && From(ps[..n], e)
    ensures From(ps, e)
  {
    var a, b :| 0 <= a < n && 0 <= b < |ps[..n][a].events| && e == PlacedAt(ps[..n][a], b);
    assert e == PlacedAt(ps[a], b);
  }

  lemma {:induction false} FlattenFrom(ps: seq<Pattern>, e: Event)
    requires e in Flatten(ps)
    ensures From(ps, e)
  {
    var n := |ps| - 1;
    if e in Flatten(ps[..n]) {
      FlattenFrom(ps[..n], e);
      FromMore(ps, n, e);
    } else {
      var b :| 0 <= b < |ps[n].events| && Placed(ps[n])[b] == e;
      assert e == PlacedAt(ps[n], b);
    }
  }

  lemma {:induction false} KeptEventsFrom(es: seq<Event>, position: int, e: Event)
    requires e in KeptEvents(es, position)
    ensures e in es
  {
    if es != [] && e in KeptEvents(es[..|es| - 1], position) {
      KeptEventsFrom(es[..|es| - 1], position, e);
    }
  }

  /** A kept pattern holds events of one of the patterns, with its start time. */
  lemma {:induction false} KeptFrom(ps: seq<Pattern>, position: int, e: Event)
    requires From(KeptPatterns(ps, position), e)
    ensures From(ps, e)
  {
    if ps != [] {
      var n := |ps| - 1;
      var front, whole := KeptPatterns(ps[..n], position), KeptPatterns(ps, position);
      var a, b :| 0 <= a < |whole| && 0 <= b < |whole[a].events| && e == PlacedAt(whole[a], b);
      if a < |front| {
        assert e == PlacedAt(front[a], b);
        KeptFrom(ps[..n], position, e);
        FromMore(ps, n, e);
      } else {
        KeptEventsFrom(ps[n].events, position, whole[a].events[b]);
        var k :| 0 <= k < |ps[n].events| && ps[n].events[k] == whole[a].events[b];
        assert e == PlacedAt(ps[n], k);
      }
    }
  }

  // ----- which events are played -----

  /** The event names no motor, or the one at the position. */
  function IsFor(position: int): Event -> bool {
    (e: Event) => e.index == 0 || e.index == position
  }

  lemma {:induction false} KeptEventsFiltered(es: seq<Event>, position: int)
    ensures KeptEvents(es, position) == Filtered(es, IsFor(position))
  {
    if es != [] {
      KeptEventsFiltered(es[..|es| - 1], position);
    }
  }

  lemma PlacedSnoc(p: Pattern)
    requires p.events != []
    ensures var n := |p.events| - 1;
            Placed(p)[..n] == Placed(p.(events := p.events[..n])) && Placed(p)[n] == PlacedAt(p, n)
  {
  }

  lemma {:induction false} FilteredPlaced(p: Pattern, position: int)
    ensures Filtered(Placed(p), IsFor(position)) == Placed(p.(events := Filtered(p.events, IsFor(position))))
    decreases |p.events|
  {
    if p.events != [] {
      var n := |p.events| - 1;
      FilteredPlaced(p.(events := p.events[..n]), position);
      PlacedSnoc(p);
    }
  }

  lemma FilteredSnocPattern(ps: seq<Pattern>, position: int)
    requires ps != []
    ensures var p := ps[|ps| - 1];
            Filtered(Flatten(ps), IsFor(position))
            == Filtered(Flatten(ps[..|ps| - 1]), IsFor(position)) + Placed(p.(events := KeptEvents(p.events, position)))
  {
    var p := ps[|ps| - 1];
    KeptEventsFiltered(p.events, position);
    FilteredPlaced(p, position);
    FilteredJoin(Flatten(ps[..|ps| - 1]), Placed(p), IsFor(position));
  }

  /** Choosing by index leaves exactly the events that name no motor, or the one at the position, in their
      order; the patterns left empty go, too. */
  lemma {:induction false} KeptPatternsFiltered(ps: seq<Pattern>, position: int)
    ensures Flatten(KeptPatterns(ps, position)) == Filtered(Flatten(ps), IsFor(position))
    ensures forall k :: 0 <= k < |KeptPatterns(ps, position)| ==> KeptPatterns(ps, position)[k].events != []
  {
    if ps != [] {
      KeptPatternsFiltered(ps[..|ps| - 1], position);
      FlattenKeptSnoc(ps, position);
      FilteredSnocPattern(ps, position);
    }
  }

  /** Every event a composite request plays is one of its package, in absolute time. */
  lemma PlayedFrom(info: VibrateInfo, position: int, e: Event)
    requires e in PlayedEvents(info, position)
    ensures From(info.package.patterns, e)
  {
    if info.mode == CustomCompositeEffect {
      FlattenFrom(KeptPatterns(info.package.patterns, position), e);
      KeptFrom(info.package.patterns, position, e);
    } else {
      FlattenFrom(info.package.patterns, e);
    }
  }
}
