/**
 * `generateValues(width)`: a fresh random parameter set. `Math.random` is the
 * injected stream `rand`, whose i-th element is the result of the i-th call; the
 * draws are taken in the order the source takes them, so the stream position of
 * every later draw depends on whether `segments` needed a second draw.
 */
module Generator {
  import opened Parameters

  /** What `Math.random` promises: every draw lies in [0, 1). */
  ghost predicate InUnitInterval(rand: nat -> real)
  {
    forall i: nat :: 0.0 <= rand(i) < 1.0
  }

  /** A positive number scaled by a draw in [0, 1) stays in [0, a). */
  lemma ScaleBelow(a: real, d: real)
    requires 0.0 <= d < 1.0
    ensures a > 0.0 ==> 0.0 <= a * d < a
  {
  }

  /** The integer part of a number in [0, n) is one of 0 .. n - 1. */
  lemma FloorBelow(x: real, n: int)
    requires 0.0 <= x < n as real
    ensures 0 <= x.Floor < n
  {
  }

  lemma MulLess(a: real, x: real, y: real)
    requires a > 0.0 && x < y
    ensures a * x < a * y
  {
  }

  lemma MulAtMost(a: real, x: real, y: real)
    requires a > 0.0 && x <= y
    ensures a * x <= a * y
  {
  }

  lemma AmplitudeBelow(wl: real, d: real)
    requires 0.0 <= d < 1.0
    ensures wl > 0.0 ==> 0.1 * wl <= 0.1 * wl + (0.9 * wl) * d < wl
  {
    var span := 0.9 * wl;
    var m := span * d;
    ScaleBelow(span, d);
    assert 0.1 * wl + span == wl;
    assert wl > 0.0 ==> 0.1 * wl <= 0.1 * wl + m < wl;
  }

  lemma OffsetIncrementBelow(width: real, d: real)
    requires 0.0 <= d < 1.0
    ensures width > 0.0 ==> width / 20.0 <= width / 20.0 + (width / 10.0) * d < 3.0 * width / 20.0
  {
    var span := width / 10.0;
    var m := span * d;
    ScaleBelow(span, d);
    assert width / 20.0 + span == 3.0 * width / 20.0;
    assert width > 0.0 ==> width / 20.0 <= width / 20.0 + m < 3.0 * width / 20.0;
  }

  /** Dividing by a number in [lo, hi) lands in (w / hi, w / lo]. */
  lemma DivideBetween(w: real, q: real, lo: real, hi: real)
    requires 0.0 < lo <= q < hi
    ensures w > 0.0 ==> w / hi < w / q <= w / lo
  {
    if w > 0.0 {
      DivideBetweenPositive(w, q, lo, hi);
    }
  }

  lemma DivideBetweenPositive(w: real, q: real, lo: real, hi: real)
    requires w > 0.0 && 0.0 < lo <= q < hi
    ensures w / hi < w / q <= w / lo
  {
    var a := w / q;
    assert a * q == w;
    assert a > 0.0;
    MulLess(a, q, hi);
    assert w / hi * hi == w;
    assert (w / hi) * hi < a * hi;
    assert w / hi < a;
    MulAtMost(a, lo, q);
    assert w / lo * lo == w;
    assert a * lo <= (w / lo) * lo;
    assert a <= w / lo;
  }

  /** `1 + Math.floor(9 * Math.random())`: the segment count of a "few segments" wave. */
  function FewSegments(d: real): (s: real)
    requires 0.0 <= d < 1.0
    ensures 1.0 <= s <= 9.0 && IsWhole(s)
  {
    FloorBelow(9.0 * d, 9);
    1.0 + (9.0 * d).Floor as real
  }

  /** The wavelength, between a twentieth and a fifth of the width. */
  function Wavelength(width: real, d: real): (wl: real)
    requires 0.0 <= d < 1.0
    ensures width > 0.0 ==> width / 20.0 < wl <= width / 5.0
  {
    DivideBetween(width, 5.0 + 15.0 * d, 5.0, 20.0);
    width / (5.0 + 15.0 * d)
  }

  /** `3 + Math.floor(10 * Math.random())`: three to twelve layers. */
  function LayerNumber(d: real): (n: real)
    requires 0.0 <= d < 1.0
    ensures 3.0 <= n <= 12.0 && IsWhole(n)
  {
    FloorBelow(10.0 * d, 10);
    3.0 + (10.0 * d).Floor as real
  }

  /** The amplitude, at least a tenth of the wavelength and below it. */
  function Amplitude(wl: real, d: real): (a: real)
    requires 0.0 <= d < 1.0
    ensures wl > 0.0 ==> 0.1 * wl <= a < wl
  {
    AmplitudeBelow(wl, d);
    0.1 * wl + (0.9 * wl) * d
  }

  /** The horizontal phase of the first layer, somewhere across the width. */
  function Offset(width: real, d: real): (o: real)
    requires 0.0 <= d < 1.0
    ensures width > 0.0 ==> 0.0 <= o < width
  {
    ScaleBelow(width, d);
    width * d
  }

  /** The phase step between layers, between a twentieth and three twentieths of the width. */
  function OffsetIncrement(width: real, d: real): (o: real)
    requires 0.0 <= d < 1.0
    ensures width > 0.0 ==> width / 20.0 <= o < 3.0 * width / 20.0
  {
    OffsetIncrementBelow(width, d);
    width / 20.0 + (width / 10.0) * d
  }

  /** The lightness step: a magnitude in [2, 6), with the sign of the first draw. */
  function LightIncrement(sign: real, d: real): (l: real)
    requires 0.0 <= d < 1.0
    ensures if sign < 0.5 then 2.0 <= l < 6.0 else -6.0 < l <= -2.0
  {
    if sign < 0.5 then 2.0 + 4.0 * d else -(2.0 + 4.0 * d)
  }

  /**
   * The draws are taken in the order of the source's object literal; a "few
   * segments" wave takes one extra draw first, which shifts every later one.
   */
  function GenerateValues(width: real, rand: nat -> real): (v: Values)
    requires InUnitInterval(rand)
    ensures v.segments == 200.0 || (1.0 <= v.segments <= 9.0 && IsWhole(v.segments))
    ensures 3.0 <= v.layers <= 12.0 && IsWhole(v.layers)
    ensures 0.0 <= v.hueStart < 360.0
    ensures -20.0 < v.hueIncrement <= 20.0
    ensures 15.0 <= v.sat < 50.0
    ensures 15.0 <= v.light < 60.0
    ensures 2.0 <= v.lightIncrement < 6.0 || -6.0 < v.lightIncrement <= -2.0
    ensures width > 0.0 ==>
              && width / 20.0 < v.wl <= width / 5.0
              && 0.1 * v.wl <= v.ampl < v.wl
              && 0.0 <= v.offset < width
              && width / 20.0 <= v.offsetIncrement < 3.0 * width / 20.0
  {
    var few := rand(0) < 0.5;
    var k: nat := if few then 2 else 1;
    var wl := Wavelength(width, rand(k));
    Values(
      segments := if few then FewSegments(rand(1)) else 200.0,
      wl := wl,
      layers := LayerNumber(rand(k + 1)),
      hueStart := 360.0 * rand(k + 2),
      hueIncrement := 20.0 - 40.0 * rand(k + 3),
      ampl := Amplitude(wl, rand(k + 4)),
      offset := Offset(width, rand(k + 5)),
      offsetIncrement := OffsetIncrement(width, rand(k + 6)),
      sat := 15.0 + 35.0 * rand(k + 7),
      light := 15.0 + 45.0 * rand(k + 8),
      lightIncrement := LightIncrement(rand(k + 9), rand(k + 10)))
  }
}
