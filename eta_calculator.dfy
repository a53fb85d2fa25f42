/**
 * `calculateETA` (server/utils/etaCalculator.js): a distance in km and a
 * speed in km/h (default 40) become a minutes label. Also the form the
 * controllers need: the same label computed from a squared distance, since
 * they only know the square of the planar distance.
 */
module EtaCalculator {
  import opened Common

  const DefaultSpeedKmph: real := 40.0

  /** The branch `calculateETA` takes. */
  datatype Eta =
    | Unknown
    | LessThanOneMinute
    | OneMinute
    | Minutes(n: int)      // n >= 2
    | InfiniteMinutes      // speed 0: the quotient is Infinity

  /** The label of each branch; "Unknown" and "Less than 1 minute" come from their own branches only. */
  function EtaText(e: Eta): (text: string)
    ensures text == "Unknown" <==> e == Unknown
    ensures text == "Less than 1 minute" <==> e == LessThanOneMinute
    ensures e == OneMinute ==> text == "1 minute"
    ensures e.Minutes? && e.n >= 0 ==> text == NatToString(e.n) + " minutes"
    ensures e == InfiniteMinutes ==> text == "Infinity minutes"
  {
    match e
    case Unknown => "Unknown"
    case LessThanOneMinute => "Less than 1 minute"
    case OneMinute => "1 minute"
    case Minutes(n) =>
      var text := (if n >= 0 then NatToString(n) else "") + " minutes";
      assert text[0] != "Less than 1 minute"[0];
      text
    case InfiniteMinutes => "Infinity minutes"
  }

  /** The branch for a whole number of minutes: below 1, exactly 1, or the count itself. */
  function MinutesLabel(minutes: int): (e: Eta)
    ensures e == LessThanOneMinute <==> minutes < 1
    ensures e == OneMinute <==> minutes == 1
    ensures e.Minutes? <==> minutes >= 2
    ensures e.Minutes? ==> e.n == minutes
  {
    if minutes < 1 then LessThanOneMinute
    else if minutes == 1 then OneMinute
    else Minutes(minutes)
  }

  /**
   * The branch taken for `distanceKm` (absent, `0` and negatives give
   * "Unknown") and `speedKmph` (absent means 40).
   */
  function ClassifyEta(distanceKm: Option<real>, speedKmph: Option<real>): (e: Eta)
    ensures e == Unknown <==> distanceKm.None? || distanceKm.value <= 0.0
    ensures e.Minutes? ==> e.n >= 2
    ensures e == InfiniteMinutes <==> distanceKm.Some? && distanceKm.value > 0.0 && speedKmph == Some(0.0)
  {
    if distanceKm.None? || distanceKm.value == 0.0 || distanceKm.value <= 0.0 then Unknown
    else
      var speed := if speedKmph.None? then DefaultSpeedKmph else speedKmph.value;
      if speed == 0.0 then InfiniteMinutes
      else MinutesLabel(Ceil(distanceKm.value / speed * 60.0))
  }

  /** `calculateETA(distanceKm, speedKmph)`: "Unknown" exactly for an absent, zero or negative distance. */
  function CalculateEta(distanceKm: Option<real>, speedKmph: Option<real>): (text: string)
    ensures text == "Unknown" <==> distanceKm.None? || distanceKm.value <= 0.0
  {
    EtaText(ClassifyEta(distanceKm, speedKmph))
  }

  /**
   * A positive distance at a positive speed (absent meaning 40 km/h) takes
   * ceil(d / speed * 60) >= 1 minutes, so "Less than 1 minute" never appears.
   */
  lemma EtaPositive(d: real, speedKmph: Option<real>)
    requires d > 0.0
    requires speedKmph.None? || speedKmph.value > 0.0
    ensures var speed := if speedKmph.None? then DefaultSpeedKmph else speedKmph.value;
      var m := Ceil(d / speed * 60.0);
      m >= 1 &&
      ClassifyEta(Some(d), speedKmph) == (if m == 1 then OneMinute else Minutes(m)) &&
      (m == 1 ==> CalculateEta(Some(d), speedKmph) == "1 minute") &&
      (m >= 2 ==> CalculateEta(Some(d), speedKmph) == NatToString(m) + " minutes")
  {
    var speed := if speedKmph.None? then DefaultSpeedKmph else speedKmph.value;
    assert d / speed > 0.0;
  }

  /** The minutes a journey of `d` km takes at `speed` km/h, rounded up. */
  function MinutesFor(d: real, speed: real): int
    requires speed > 0.0
  {
    Ceil(d / speed * 60.0)
  }

  /** At a fixed positive speed, a longer distance never takes fewer minutes. */
  lemma EtaMonotoneInDistance(d1: real, d2: real, speed: real)
    requires 0.0 < d1 <= d2 && speed > 0.0
    ensures 1 <= MinutesFor(d1, speed) <= MinutesFor(d2, speed)
  {
    assert d1 / speed <= d2 / speed;
    CeilMonotone(d1 / speed * 60.0, d2 / speed * 60.0);
  }

  // ---------------------------------------------------------------- from a squared distance

  function SearchLeastRoot(t: real, m: nat): (r: nat)
    requires t >= 0.0
    requires forall j: nat :: j < m ==> (j * j) as real < t
    ensures (r * r) as real >= t
    ensures forall j: nat :: j < r ==> (j * j) as real < t
    decreases Ceil(t) + 1 - m
  {
    if (m * m) as real >= t then m
    else
      assert m <= m * m;
      SearchLeastRoot(t, m + 1)
  }

  /** The least natural number whose square reaches `t`: the ceiling of the square root of `t`. */
  function LeastRoot(t: real): (r: nat)
    requires t >= 0.0
    ensures (r * r) as real >= t
    ensures forall j: nat :: j < r ==> (j * j) as real < t
  {
    SearchLeastRoot(t, 0)
  }

  /**
   * The default-speed label for the distance whose square is `d2`: at 40 km/h
   * the minutes are ceil(1.5 * d), the least m with m * m >= 2.25 * d2.
   */
  function EtaFromSquaredDistance(d2: real): (text: string)
    requires d2 >= 0.0
    ensures text == "Unknown" <==> d2 == 0.0
    ensures text != "Less than 1 minute"
  {
    if d2 == 0.0 then EtaText(Unknown) else EtaText(MinutesLabel(LeastRoot(2.25 * d2)))
  }

  lemma SquareMonotone(x: real, y: real)
    requires 0.0 <= x && 0.0 <= y
    ensures x <= y ==> x * x <= y * y
    ensures x < y ==> x * x < y * y
  {
    var a, b := y - x, y + x;
    assert y * y - x * x == a * b;
    if x < y {
      assert a > 0.0 && b > 0.0;
      assert a * b > 0.0;
    }
  }

  /** The least natural number whose square reaches x * x is the ceiling of x. */
  lemma LeastRootIsCeil(x: real, r: nat)
    requires x > 0.0
    requires (r * r) as real >= x * x
    requires forall j: nat :: j < r ==> (j * j) as real < x * x
    ensures r == Ceil(x)
  {
    var c := Ceil(x);
    var rr := r as real;
    SquareMonotone(rr, x);
    assert (r * r) as real == rr * rr;
    assert rr >= x;
    assert r >= c;
    var c': nat := c;
    SquareMonotone(x, c' as real);
    assert (c' * c') as real == (c' as real) * (c' as real);
    assert r <= c;
  }

  /** For any distance d >= 0, the label computed from d * d is the label `calculateETA(d)` gives. */
  lemma EtaFromSquaredDistanceAgrees(d: real)
    requires d >= 0.0
    ensures EtaFromSquaredDistance(d * d) == CalculateEta(Some(d), None)
  {
    if d != 0.0 {
      SquareMonotone(0.0, d);
      assert d * d != 0.0;
      var x := 1.5 * d;
      assert d / DefaultSpeedKmph * 60.0 == x;
      assert 2.25 * (d * d) == x * x;
      var m := LeastRoot(x * x);
      LeastRootIsCeil(x, m);
      assert EtaFromSquaredDistance(d * d) == EtaText(MinutesLabel(m));
      assert ClassifyEta(Some(d), None) == MinutesLabel(Ceil(x));
    }
  }
}
