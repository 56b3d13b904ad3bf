/** The haptic data that travels through the service: packages of patterns of events of
    curve points (utils/common/include/vibrator_infos.h), and the C++ arithmetic on them. */
module Haptics {

  datatype Tag = UnknownTag | Continuous | Transient

  datatype Point = Point(time: int, intensity: int, frequency: int)

  datatype Event = Event(tag: Tag, time: int, duration: int, intensity: int, frequency: int,
                         index: int, points: seq<Point>)

  datatype Pattern = Pattern(startTime: int, patternDuration: int, events: seq<Event>)

  datatype Package = Package(patterns: seq<Pattern>, packageDuration: int)

  /** How a vibration is to be played. */
  datatype Mode = NoMode | Time | Preset | CustomHd | CustomCompositeEffect | CustomCompositeTime | Butt

  /** A request to vibrate (struct VibrateInfo). */
  datatype VibrateInfo = VibrateInfo(mode: Mode, packageName: string, pid: int, uid: int, usage: int,
                                     systemUsage: bool, duration: int, effect: string, count: int,
                                     intensity: int, package: Package)

  const INTENSITY_MIN := 0
  const INTENSITY_MAX := 100
  const FREQUENCY_MIN := 0
  const FREQUENCY_MAX := 100

  function Max(a: int, b: int): int { if a < b then b else a }

  function Min(a: int, b: int): int { if b < a then b else a }

  function Clamp(x: int, lo: int, hi: int): int { Min(Max(x, lo), hi) }

  /** C++ integer division: the quotient is truncated toward zero. */
  function TruncDiv(a: int, b: int): int
    requires b > 0
  {
    if a >= 0 then a / b else -(-a / b)
  }

  /** Conversion of a floating-point value to an integer, truncating toward zero. */
  function Trunc(x: real): int {
    if x >= 0.0 then x.Floor else -(-x).Floor
  }

  /** p lies between 0 and n, less than one d away from n. */
  ghost predicate IsWholePart(n: int, d: int, p: int) {
    && (if n >= 0 then 0 <= p <= n else n <= p <= 0)
    && (if d > 0 then -d < n - p < d else d < n - p < -d)
  }

  /** The integer r is n / d with the fraction dropped. */
  ghost predicate IsQuotient(n: int, d: int, r: int) {
    IsWholePart(n, d, r * d)
  }

  lemma QuotientFlips(n: int, d: int, r: int)
    requires d != 0 && IsQuotient(n, d, r)
    ensures IsQuotient(-n, -d, r)
  {
    assert r * -d == -(r * d);
  }

  lemma BigMultiple(k: int, d: int)
    requires d > 0 && k != 0
    ensures k * d >= d || k * d <= -d
  {
    if k >= 1 {
      assert (k - 1) * d >= 0;
    } else {
      assert (-1 - k) * d >= 0;
    }
  }

  lemma WholePartUnique(n: int, d: int, r: int, r': int)
    requires d > 0 && IsQuotient(n, d, r) && IsQuotient(n, d, r')
    ensures r == r'
  {
    assert (r - r') * d == r * d - r' * d;
    if r != r' {
      BigMultiple(r - r', d);
    }
  }

  /** There is only one. */
  lemma QuotientUnique(n: int, d: int, r: int, r': int)
    requires d != 0 && IsQuotient(n, d, r) && IsQuotient(n, d, r')
    ensures r == r'
  {
    if d < 0 {
      QuotientFlips(n, d, r);
      QuotientFlips(n, d, r');
      WholePartUnique(-n, -d, r, r');
    } else {
      WholePartUnique(n, d, r, r');
    }
  }

  lemma QuotientFromDivision(a: nat, b: int, q: int)
    requires b > 0 && q == a / b
    ensures 0 <= q * b <= a < q * b + b
  {
    assert a == b * q + a % b;
    assert b * q == q * b;
  }

  lemma TruncDivIsQuotient(a: int, b: int)
    requires b > 0
    ensures IsQuotient(a, b, TruncDiv(a, b))
  {
    var q := (if a >= 0 then a else -a) / b;
    QuotientFromDivision(if a >= 0 then a else -a, b, q);
    if a < 0 {
      assert -q * b == -(q * b);
    }
  }

  /** i is a hundred times v, its fraction dropped. */
  ghost predicate IsHundredfold(v: real, i: int) {
    if v >= 0.0 then i as real <= 100.0 * v < i as real + 1.0 else i as real - 1.0 < 100.0 * v <= i as real
  }

  lemma TruncIsHundredfold(v: real)
    ensures IsHundredfold(v, Trunc(v * 100.0))
  {
  }

  lemma HundredfoldUnique(v: real, i: int, j: int)
    requires IsHundredfold(v, i) && IsHundredfold(v, j)
    ensures i == j
  {
  }

  lemma RealMultiple(r: int, x: real, d: int, n: int)
    requires d > 0 && x * d as real == n as real
    ensures r as real <= x ==> r * d <= n
    ensures x <= r as real ==> n <= r * d
    ensures x < r as real ==> n < r * d
    ensures r as real < x ==> r * d < n
  {
    assert (r * d) as real == r as real * d as real;
    var f := x - r as real;
    assert n as real - (r * d) as real == f * d as real;
    assert f >= 0.0 ==> f * d as real >= 0.0;
    assert f <= 0.0 ==> f * d as real <= 0.0;
    assert f > 0.0 ==> f * d as real > 0.0;
    assert f < 0.0 ==> f * d as real < 0.0;
  }

  /** One more or one less is one d more or less. */
  lemma NextMultiple(r: int, d: int)
    requires d > 0
    ensures (r + 1) * d == r * d + d && (r - 1) * d == r * d - d
    ensures (r >= 0 ==> r * d >= 0) && (r <= 0 ==> r * d <= 0)
  {
  }

  lemma TruncIsWholePart(n: int, d: int, x: real)
    requires d > 0 && x * d as real == n as real
    ensures IsQuotient(n, d, Trunc(x))
  {
    var r := Trunc(x);
    NextMultiple(r, d);
    RealMultiple(0, x, d, n);
    RealMultiple(r, x, d, n);
    RealMultiple(if x >= 0.0 then r + 1 else r - 1, x, d, n);
  }

  /** A real that is n / d, truncated. */
  lemma TruncIsQuotient(n: int, d: int, x: real)
    requires d != 0 && x * d as real == n as real
    ensures IsQuotient(n, d, Trunc(x))
  {
    if d < 0 {
      assert x * (-d) as real == -(x * d as real);
      TruncIsWholePart(-n, -d, x);
      QuotientFlips(-n, -d, Trunc(x));
    } else {
      TruncIsWholePart(n, d, x);
    }
  }

  /** r is the hundredth part of n, its fraction dropped, kept within 0..100. */
  ghost predicate IsPercent(n: int, r: int) {
    && (0 <= n <= 10000 ==> 100 * r <= n < 100 * (r + 1))
    && (n < 0 ==> r == 0) && (n > 10000 ==> r == 100)
  }

  /** r is x, or the nearer bound if x is out of bounds. */
  ghost predicate IsKeptWithin(x: int, lo: int, hi: int, r: int) {
    (lo <= x <= hi ==> r == x) && (x < lo ==> r == lo) && (x > hi ==> r == hi)
  }

  lemma ClampedQuotientIsPercent(n: int, q: int)
    requires IsQuotient(n, 100, q)
    ensures IsPercent(n, if q < 0 then 0 else if q > 100 then 100 else q)
  {
  }

  /** Point times never decrease. */
  ghost predicate TimeSorted(c: seq<Point>) {
    forall a, b :: 0 <= a < b < |c| ==> c[a].time <= c[b].time
  }

  /** Point times strictly increase. */
  ghost predicate TimeIncreasing(c: seq<Point>) {
    forall a, b :: 0 <= a < b < |c| ==> c[a].time < c[b].time
  }

  /** Every intensity and frequency is one the device accepts. */
  ghost predicate InRange(c: seq<Point>) {
    forall k :: 0 <= k < |c| ==> PointInRange(c[k])
  }

  predicate PointInRange(p: Point) {
    INTENSITY_MIN <= p.intensity <= INTENSITY_MAX && FREQUENCY_MIN <= p.frequency <= FREQUENCY_MAX
  }

  function Sum(s: seq<int>): int {
    if s == [] then 0 else Sum(s[..|s| - 1]) + s[|s| - 1]
  }

  lemma {:induction false} SumSplit(a: seq<int>, b: seq<int>)
    ensures Sum(a + b) == Sum(a) + Sum(b)
  {
    if b == [] {
      assert a + b == a;
    } else {
      assert (a + b)[..|a + b| - 1] == a + b[..|b| - 1];
      SumSplit(a, b[..|b| - 1]);
    }
  }

  function TotalDuration(es: seq<Event>): int {
    if es == [] then 0 else TotalDuration(es[..|es| - 1]) + es[|es| - 1].duration
  }

  lemma {:induction false} TotalJoin(a: seq<Event>, b: seq<Event>)
    ensures TotalDuration(a + b) == TotalDuration(a) + TotalDuration(b)
  {
    if b == [] {
      assert a + b == a;
    } else {
      assert (a + b)[..|a + b| - 1] == a + b[..|b| - 1];
      TotalJoin(a, b[..|b| - 1]);
    }
  }
}
