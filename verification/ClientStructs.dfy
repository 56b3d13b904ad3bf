/** The C structures of the client interface (vibrator_agent_type.h): counts beside pointers into the C
    heap, the values they stand for, and the heap itself. */
module ClientStructs {
  import opened Haptics

  /** The address of a block; 0 is the null pointer. */
  type Pointer = nat

  const NULL: Pointer := 0

  datatype VibratorEvent = VibratorEvent(kind: Tag, time: int, duration: int, intensity: int, frequency: int,
                                         index: int, pointNum: int, points: Pointer)

  datatype VibratorPattern = VibratorPattern(time: int, eventNum: int, patternDuration: int, events: Pointer)

  datatype VibratorPackage = VibratorPackage(patternNum: int, packageDuration: int, patterns: Pointer)

  /** The live blocks of the C heap. */
  datatype Memory = Memory(points: map<Pointer, seq<Point>>, events: map<Pointer, seq<VibratorEvent>>,
                           patterns: map<Pointer, seq<VibratorPattern>>)

  const ZeroPoint := Point(0, 0, 0)
  const ZeroEvent := VibratorEvent(Continuous, 0, 0, 0, 0, 0, 0, NULL)
  const ZeroPattern := VibratorPattern(0, 0, 0, NULL)

  /** The address is that of an allocated block. */
  predicate IsLive(m: Memory, p: Pointer) {
    p in m.points || p in m.events || p in m.patterns
  }

  /** malloc, calloc and free. Each frees a live block, so no block is freed twice. */
  class Heap {
    var mem: Memory
    var next: Pointer

    ghost predicate Valid()
      reads this
    {
      && next > 0
      && (forall p :: p in mem.points ==> 0 < p < next)
      && (forall p :: p in mem.events ==> 0 < p < next)
      && (forall p :: p in mem.patterns ==> 0 < p < next)
    }

    method CallocPoints(n: nat) returns (p: Pointer)
      requires Valid()
      modifies this
      ensures Valid() && p != NULL && !IsLive(old(mem), p) && next > old(next)
      ensures mem == old(mem).(points := old(mem).points[p := seq(n, _ => ZeroPoint)])
    {
      p := next;
      mem := mem.(points := mem.points[p := seq(n, _ => ZeroPoint)]);
      next := next + 1;
    }

    method CallocEvents(n: nat) returns (p: Pointer)
      requires Valid()
      modifies this
      ensures Valid() && p != NULL && !IsLive(old(mem), p) && next > old(next)
      ensures mem == old(mem).(events := old(mem).events[p := seq(n, _ => ZeroEvent)])
    {
      p := next;
      mem := mem.(events := mem.events[p := seq(n, _ => ZeroEvent)]);
      next := next + 1;
    }

    method CallocPatterns(n: nat) returns (p: Pointer)
      requires Valid()
      modifies this
      ensures Valid() && p != NULL && !IsLive(old(mem), p) && next > old(next)
      ensures mem == old(mem).(patterns := old(mem).patterns[p := seq(n, _ => ZeroPattern)])
    {
      p := next;
      mem := mem.(patterns := mem.patterns[p := seq(n, _ => ZeroPattern)]);
      next := next + 1;
    }

    method PutPoint(p: Pointer, k: nat, v: Point)
      requires Valid() && p in mem.points && k < |mem.points[p]|
      modifies `mem
      ensures Valid() && mem == old(mem).(points := old(mem).points[p := old(mem).points[p][k := v]])
    {
      mem := mem.(points := mem.points[p := mem.points[p][k := v]]);
    }

    method PutEvent(p: Pointer, k: nat, v: VibratorEvent)
      requires Valid() && p in mem.events && k < |mem.events[p]|
      modifies `mem
      ensures Valid() && mem == old(mem).(events := old(mem).events[p := old(mem).events[p][k := v]])
    {
      mem := mem.(events := mem.events[p := mem.events[p][k := v]]);
    }

    method PutPattern(p: Pointer, k: nat, v: VibratorPattern)
      requires Valid() && p in mem.patterns && k < |mem.patterns[p]|
      modifies `mem
      ensures Valid() && mem == old(mem).(patterns := old(mem).patterns[p := old(mem).patterns[p][k := v]])
    {
      mem := mem.(patterns := mem.patterns[p := mem.patterns[p][k := v]]);
    }

    /** free; the null pointer may be freed, to no effect. */
    method FreePoints(p: Pointer)
      requires Valid() && (p != NULL ==> p in mem.points)
      modifies `mem
      ensures Valid() && mem == old(mem).(points := old(mem).points - {p})
    {
      mem := mem.(points := mem.points - {p});
    }

    method FreeEvents(p: Pointer)
      requires Valid() && (p != NULL ==> p in mem.events)
      modifies `mem
      ensures Valid() && mem == old(mem).(events := old(mem).events - {p})
    {
      mem := mem.(events := mem.events - {p});
    }

    method FreePatterns(p: Pointer)
      requires Valid() && (p != NULL ==> p in mem.patterns)
      modifies `mem
      ensures Valid() && mem == old(mem).(patterns := old(mem).patterns - {p})
    {
      mem := mem.(patterns := mem.patterns - {p});
    }
  }

  // ----- what the structures stand for -----

  /** The first n elements of a block, if there are that many. */
  function Taken<T>(blocks: map<Pointer, seq<T>>, p: Pointer, n: int): seq<T> {
    if p in blocks && 0 <= n <= |blocks[p]| then blocks[p][..n] else []
  }

  function EventView(m: Memory, e: VibratorEvent): Event {
    Event(e.kind, e.time, e.duration, e.intensity, e.frequency, e.index, Taken(m.points, e.points, e.pointNum))
  }

  function EventViews(m: Memory, es: seq<VibratorEvent>): (r: seq<Event>)
    ensures |r| == |es|
  {
    seq(|es|, k requires 0 <= k < |es| => EventView(m, es[k]))
  }

  function PatternView(m: Memory, p: VibratorPattern): Pattern {
    Pattern(p.time, p.patternDuration, EventViews(m, Taken(m.events, p.events, p.eventNum)))
  }

  function PatternViews(m: Memory, ps: seq<VibratorPattern>): (r: seq<Pattern>)
    ensures |r| == |ps|
  {
    seq(|ps|, k requires 0 <= k < |ps| => PatternView(m, ps[k]))
  }

  function PackageView(m: Memory, p: VibratorPackage): Package {
    Package(PatternViews(m, Taken(m.patterns, p.patterns, p.patternNum)), p.packageDuration)
  }

  // ----- counts that the blocks bear out -----

  /** As many points as the event counts are there. */
  predicate EventReadable(m: Memory, e: VibratorEvent) {
    e.pointNum >= 0 && (e.pointNum > 0 ==> e.points != NULL && e.points in m.points && e.pointNum <= |m.points[e.points]|)
  }

  predicate PatternReadable(m: Memory, p: VibratorPattern) {
    p.eventNum > 0 ==>
      && p.events != NULL && p.events in m.events && p.eventNum <= |m.events[p.events]|
      && forall k :: 0 <= k < p.eventNum ==> EventReadable(m, m.events[p.events][k])
  }

  predicate PackageReadable(m: Memory, p: VibratorPackage) {
    p.patternNum > 0 ==>
      && p.patterns != NULL && p.patterns in m.patterns && p.patternNum <= |m.patterns[p.patterns]|
      && forall k :: 0 <= k < p.patternNum ==> PatternReadable(m, m.patterns[p.patterns][k])
  }

  // ----- growing memory -----

  /** Every block of m is in m', unchanged. */
  ghost predicate Extends(m: Memory, m': Memory) {
    && (forall p :: p in m.points ==> p in m'.points && m'.points[p] == m.points[p])
    && (forall p :: p in m.events ==> p in m'.events && m'.events[p] == m.events[p])
    && (forall p :: p in m.patterns ==> p in m'.patterns && m'.patterns[p] == m.patterns[p])
  }

  lemma EventKept(m: Memory, m': Memory, e: VibratorEvent)
    requires Extends(m, m') && EventReadable(m, e)
    ensures EventReadable(m', e) && EventView(m', e) == EventView(m, e)
  {
  }

  lemma PatternKept(m: Memory, m': Memory, p: VibratorPattern)
    requires Extends(m, m') && PatternReadable(m, p)
    ensures PatternReadable(m', p) && (p.eventNum > 0 ==> PatternView(m', p) == PatternView(m, p))
    ensures p.eventNum <= 0 ==> PatternView(m', p) == Pattern(p.time, p.patternDuration, [])
  {
    if p.eventNum > 0 {
      var es := m.events[p.events];
      forall k | 0 <= k < p.eventNum
        ensures EventReadable(m', es[k]) && EventView(m', es[k]) == EventView(m, es[k])
      {
        EventKept(m, m', es[k]);
      }
      assert Taken(m'.events, p.events, p.eventNum) == es[..p.eventNum];
      assert EventViews(m', es[..p.eventNum]) == EventViews(m, es[..p.eventNum]);
    }
  }
}
