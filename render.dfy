/**
 * The render loop of `draw`: a background rectangle, then one closed wave-shaped
 * path per layer. The 2D context is a `Canvas` whose only state is the log of
 * the calls made on it; `Math.sin` is the uninterpreted parameter `sin`.
 */
module Render {
  import opened Parameters

  datatype Command =
    | SetFillStyle(hue: real, saturation: real, lightness: real)
    | FillRect(x: real, y: real, w: real, h: real)
    | BeginPath
    | MoveTo(x: real, y: real)
    | LineTo(x: real, y: real)
    | Fill

  /** A 2D context, recorded as the sequence of calls made on it. */
  class Canvas {
    var log: seq<Command>

    constructor ()
      ensures log == []
    {
      log := [];
    }

    /** `ctx.fillStyle = 'hsl( h, s%, l% )'`. */
    method SetFillStyle(h: real, s: real, l: real)
      modifies this
      ensures log == old(log) + [Command.SetFillStyle(h, s, l)]
    {
      log := log + [Command.SetFillStyle(h, s, l)];
    }

    method FillRect(x: real, y: real, w: real, h: real)
      modifies this
      ensures log == old(log) + [Command.FillRect(x, y, w, h)]
    {
      log := log + [Command.FillRect(x, y, w, h)];
    }

    method BeginPath()
      modifies this
      ensures log == old(log) + [Command.BeginPath]
    {
      log := log + [Command.BeginPath];
    }

    method MoveTo(x: real, y: real)
      modifies this
      ensures log == old(log) + [Command.MoveTo(x, y)]
    {
      log := log + [Command.MoveTo(x, y)];
    }

    method LineTo(x: real, y: real)
      modifies this
      ensures log == old(log) + [Command.LineTo(x, y)]
    {
      log := log + [Command.LineTo(x, y)];
    }

    method Fill()
      modifies this
      ensures log == old(log) + [Command.Fill]
    {
      log := log + [Command.Fill];
    }
  }

  /**
   * The divisions of the loop are defined: when any layer is drawn, neither the
   * segment count nor the wavelength is zero.
   */
  predicate Renderable(v: Values)
  {
    v.layers > 0.0 ==> v.segments != 0.0 && v.wl != 0.0
  }

  /** The number of passes of `for (l = 0; l < layers; l++)`. */
  function LayerCount(layers: real): (n: nat)
    ensures IsWhole(layers) && layers >= 0.0 ==> n as real == layers
  {
    if layers <= 0.0 then 0
    else if IsWhole(layers) then layers.Floor
    else layers.Floor + 1
  }

  /** The number of passes of `for (i = 0; i <= segments; i++)`. */
  function SampleCount(segments: real): (n: nat)
    ensures IsWhole(segments) && segments >= 0.0 ==> n as real == segments + 1.0
  {
    if segments < 0.0 then 0 else segments.Floor + 1
  }

  /** The outer loop runs its pass l exactly when l < LayerCount(layers). */
  lemma LayerPass(layers: real, l: nat)
    ensures l < LayerCount(layers) <==> (l as real) < layers
  {
  }

  /** The inner loop runs its pass i exactly when i < SampleCount(segments). */
  lemma SamplePass(segments: real, i: nat)
    ensures i < SampleCount(segments) <==> (i as real) <= segments
  {
  }

  function LayerHue(v: Values, l: nat): (h: real)
  {
    v.hueStart + ((l + 1) as real) * v.hueIncrement
  }

  function LayerLightness(v: Values, l: nat): (lightness: real)
  {
    v.light + ((l + 1) as real) * v.lightIncrement
  }

  /** `layerOffset`: the phase of layer l. */
  function Phase(v: Values, l: nat): (phase: real)
  {
    v.offset + v.offsetIncrement * (l as real)
  }

  /** `offsetY`: the centre of the horizontal band of layer l. */
  function BandCentre(v: Values, height: real, l: nat): (y: real)
    requires v.layers > 0.0
  {
    ((l as real) + 0.5) * (height / v.layers)
  }

  /** `ampl * Math.sin(phase / wl)`: the displacement of the wave at a phase. */
  function Wave(v: Values, sin: real -> real, phase: real): (dy: real)
    requires v.wl != 0.0
  {
    v.ampl * sin(phase / v.wl)
  }

  /** `startY`: the band centre displaced by the wave at x = 0. */
  function StartY(v: Values, height: real, sin: real -> real, l: nat): (y: real)
    requires v.layers > 0.0 && Renderable(v)
  {
    BandCentre(v, height, l) + Wave(v, sin, Phase(v, l))
  }

  function SampleX(v: Values, width: real, i: nat): (x: real)
    requires v.segments != 0.0
  {
    (i as real) * (width / v.segments)
  }

  /** The y of sample i, based on `startY` as the source computes it. */
  function SampleY(v: Values, width: real, height: real, sin: real -> real, l: nat, i: nat): (y: real)
    requires v.layers > 0.0 && Renderable(v)
  {
    StartY(v, height, sin, l) + Wave(v, sin, Phase(v, l) + SampleX(v, width, i))
  }

  /** The `lineTo` calls of the first n passes of the inner loop of layer l. */
  function Samples(v: Values, width: real, height: real, sin: real -> real, l: nat, n: nat): (s: seq<Command>)
    requires v.layers > 0.0 && Renderable(v)
    ensures |s| == n
  {
    seq(n, i requires 0 <= i < n => LineTo(SampleX(v, width, i), SampleY(v, width, height, sin, l, i)))
  }

  /** One more pass of the inner loop appends one more sample. */
  lemma SamplesStep(v: Values, width: real, height: real, sin: real -> real, l: nat, n: nat)
    requires v.layers > 0.0 && Renderable(v)
    ensures Samples(v, width, height, sin, l, n + 1)
            == Samples(v, width, height, sin, l, n)
               + [LineTo(SampleX(v, width, n), SampleY(v, width, height, sin, l, n))]
  {
    var a := Samples(v, width, height, sin, l, n + 1);
    var b := Samples(v, width, height, sin, l, n) + [LineTo(SampleX(v, width, n), SampleY(v, width, height, sin, l, n))];
    assert |a| == |b|;
    forall i | 0 <= i < |a|
      ensures a[i] == b[i]
    {
    }
  }

  /** The start of a pass of the outer loop: the layer colour, a new path, and its first point. */
  function LayerHead(v: Values, height: real, sin: real -> real, l: nat): (head: seq<Command>)
    requires v.layers > 0.0 && Renderable(v)
  {
    [SetFillStyle(LayerHue(v, l), v.sat, LayerLightness(v, l)), BeginPath, MoveTo(0.0, StartY(v, height, sin, l))]
  }

  /** The end of a pass of the outer loop: down to the bottom edge, back to the start, fill. */
  function LayerTail(v: Values, width: real, height: real, sin: real -> real, l: nat): (tail: seq<Command>)
    requires v.layers > 0.0 && Renderable(v)
  {
    [LineTo(width, height), LineTo(0.0, height), LineTo(0.0, StartY(v, height, sin, l)), Fill]
  }

  /** The calls of one pass of the outer loop. */
  function LayerCommands(v: Values, width: real, height: real, sin: real -> real, l: nat): (c: seq<Command>)
    requires v.layers > 0.0 && Renderable(v)
  {
    LayerHead(v, height, sin, l)
    + Samples(v, width, height, sin, l, SampleCount(v.segments))
    + LayerTail(v, width, height, sin, l)
  }

  /** The calls of the first n passes of the outer loop. */
  function Layers(v: Values, width: real, height: real, sin: real -> real, n: nat): (log: seq<Command>)
    requires Renderable(v) && (n > 0 ==> v.layers > 0.0)
  {
    if n == 0 then []
    else Layers(v, width, height, sin, n - 1) + LayerCommands(v, width, height, sin, n - 1)
  }

  function Background(v: Values, width: real, height: real): (bg: seq<Command>)
  {
    [SetFillStyle(v.hueStart, v.sat, v.light), FillRect(0.0, 0.0, width, height)]
  }

  /** Everything the render loop of `draw` does to the context. */
  function Drawing(v: Values, width: real, height: real, sin: real -> real): (d: seq<Command>)
    requires Renderable(v)
    ensures |d| >= 2 && d[0] == SetFillStyle(v.hueStart, v.sat, v.light) && d[1] == FillRect(0.0, 0.0, width, height)
    ensures Background(v, width, height) <= d
  {
    Background(v, width, height) + Layers(v, width, height, sin, LayerCount(v.layers))
  }

  lemma AppendThree(s: seq<Command>, a: Command, b: Command, c: Command)
    ensures s + [a] + [b] + [c] == s + [a, b, c]
  {
  }

  lemma AppendFour(s: seq<Command>, a: Command, b: Command, c: Command, d: Command)
    ensures s + [a] + [b] + [c] + [d] == s + [a, b, c, d]
  {
  }

  lemma Regroup(p: seq<Command>, a: seq<Command>, b: seq<Command>, c: seq<Command>, d: seq<Command>)
    ensures p + a + b + c + d == p + (a + (b + c + d))
  {
  }

  /** The start of a pass of the outer loop of `draw`, up to the `moveTo`. */
  method BeginLayer(ctx: Canvas, v: Values, height: real, sin: real -> real, l: nat)
    returns (startY: real, layerOffset: real)
    requires v.layers > 0.0 && Renderable(v)
    modifies ctx
    ensures startY == StartY(v, height, sin, l) && layerOffset == Phase(v, l)
    ensures ctx.log == old(ctx.log) + LayerHead(v, height, sin, l)
  {
    var h := v.hueStart + ((l + 1) as real) * v.hueIncrement;
    var s := v.sat;
    var lightness := v.light + ((l + 1) as real) * v.lightIncrement;
    ctx.SetFillStyle(h, s, lightness);
    ctx.BeginPath();
    layerOffset := v.offset + v.offsetIncrement * (l as real);
    var offsetY := ((l as real) + 0.5) * (height / v.layers);
    startY := offsetY + Wave(v, sin, layerOffset);
    assert layerOffset == Phase(v, l);
    assert offsetY == BandCentre(v, height, l);
    assert Wave(v, sin, layerOffset) == Wave(v, sin, Phase(v, l));
    assert h == LayerHue(v, l) && lightness == LayerLightness(v, l);
    ctx.MoveTo(0.0, startY);
    AppendThree(old(ctx.log), Command.SetFillStyle(h, s, lightness), Command.BeginPath, Command.MoveTo(0.0, startY));
    assert [Command.SetFillStyle(h, s, lightness), Command.BeginPath, Command.MoveTo(0.0, startY)]
           == LayerHead(v, height, sin, l);
  }

  /** The end of a pass of the outer loop of `draw`: the closing `lineTo`s and the `fill`. */
  method CloseLayer(ctx: Canvas, v: Values, width: real, height: real, sin: real -> real, l: nat, startY: real)
    requires v.layers > 0.0 && Renderable(v)
    requires startY == StartY(v, height, sin, l)
    modifies ctx
    ensures ctx.log == old(ctx.log) + LayerTail(v, width, height, sin, l)
  {
    ctx.LineTo(width, height);
    ctx.LineTo(0.0, height);
    ctx.LineTo(0.0, startY);
    ctx.Fill();
    AppendFour(old(ctx.log), Command.LineTo(width, height), Command.LineTo(0.0, height), Command.LineTo(0.0, startY), Command.Fill);
  }

  /**
   * The inner loop of `draw`: one `lineTo` per sample of layer l, from the
   * `startY` and `layerOffset` the outer loop computed.
   */
  method TraceWave(ctx: Canvas, v: Values, width: real, height: real, sin: real -> real, l: nat,
                   startY: real, layerOffset: real)
    requires v.layers > 0.0 && Renderable(v)
    requires startY == StartY(v, height, sin, l) && layerOffset == Phase(v, l)
    modifies ctx
    ensures ctx.log == old(ctx.log) + Samples(v, width, height, sin, l, SampleCount(v.segments))
  {
    var i: nat := 0;
    while (i as real) <= v.segments
      invariant i <= SampleCount(v.segments)
      invariant ctx.log == old(ctx.log) + Samples(v, width, height, sin, l, i)
      decreases SampleCount(v.segments) - i
    {
      SamplePass(v.segments, i);
      var x := (i as real) * (width / v.segments);
      assert x == SampleX(v, width, i);
      ctx.LineTo(x, startY + Wave(v, sin, layerOffset + x));
      SamplesStep(v, width, height, sin, l, i);
      i := i + 1;
    }
    SamplePass(v.segments, i);
  }

  /** One pass of the outer loop of `draw`: the fill colour and the closed path of layer l. */
  method DrawLayer(ctx: Canvas, v: Values, width: real, height: real, sin: real -> real, l: nat,
                   ghost prefix: seq<Command>)
    requires v.layers > 0.0 && Renderable(v)
    requires ctx.log == prefix + Layers(v, width, height, sin, l)
    modifies ctx
    ensures ctx.log == prefix + Layers(v, width, height, sin, l + 1)
  {
    var startY, layerOffset := BeginLayer(ctx, v, height, sin, l);
    TraceWave(ctx, v, width, height, sin, l, startY, layerOffset);
    CloseLayer(ctx, v, width, height, sin, l, startY);
    Regroup(prefix, Layers(v, width, height, sin, l), LayerHead(v, height, sin, l),
            Samples(v, width, height, sin, l, SampleCount(v.segments)), LayerTail(v, width, height, sin, l));
  }

  /** The background and layer loops of `draw`. */
  method DrawPicture(ctx: Canvas, v: Values, width: real, height: real, sin: real -> real)
    requires Renderable(v)
    modifies ctx
    ensures ctx.log == old(ctx.log) + Drawing(v, width, height, sin)
  {
    ctx.SetFillStyle(v.hueStart, v.sat, v.light);
    ctx.FillRect(0.0, 0.0, width, height);
    var l: nat := 0;
    while (l as real) < v.layers
      invariant l <= LayerCount(v.layers)
      invariant ctx.log == old(ctx.log) + Background(v, width, height) + Layers(v, width, height, sin, l)
      decreases LayerCount(v.layers) - l
    {
      LayerPass(v.layers, l);
      DrawLayer(ctx, v, width, height, sin, l, old(ctx.log) + Background(v, width, height));
      l := l + 1;
    }
    LayerPass(v.layers, l);
    assert l == LayerCount(v.layers);
  }

  // Properties of the drawing

  predicate IsPathCommand(c: Command)
  {
    c.MoveTo? || c.LineTo?
  }

  function PathCalls(c: Command): (n: nat)
  {
    if IsPathCommand(c) then 1 else 0
  }

  /** The number of `moveTo` and `lineTo` calls in a log. */
  function PathCount(log: seq<Command>): (n: nat)
  {
    if log == [] then 0
    else PathCount(log[..|log| - 1]) + PathCalls(log[|log| - 1])
  }

  lemma {:induction false} PathCountConcat(a: seq<Command>, b: seq<Command>)
    ensures PathCount(a + b) == PathCount(a) + PathCount(b)
  {
    if b == [] {
      assert a + b == a;
    } else {
      var c := a + b;
      assert c[..|c| - 1] == a + b[..|b| - 1];
      assert c[|c| - 1] == b[|b| - 1];
      PathCountConcat(a, b[..|b| - 1]);
    }
  }

  lemma {:induction false} SamplesArePath(v: Values, width: real, height: real, sin: real -> real, l: nat, n: nat)
    requires v.layers > 0.0 && Renderable(v)
    ensures PathCount(Samples(v, width, height, sin, l, n)) == n
  {
    if n > 0 {
      SamplesStep(v, width, height, sin, l, n - 1);
      SamplesArePath(v, width, height, sin, l, n - 1);
      var last := LineTo(SampleX(v, width, n - 1), SampleY(v, width, height, sin, l, n - 1));
      PathCountConcat(Samples(v, width, height, sin, l, n - 1), [last]);
      assert PathCount([last]) == 1 by {
        assert [last][..0] == [];
      }
    }
  }

  lemma LayerLength(v: Values, width: real, height: real, sin: real -> real, l: nat)
    requires v.layers > 0.0 && Renderable(v)
    ensures |LayerCommands(v, width, height, sin, l)| == SampleCount(v.segments) + 7
  {
  }

  /**
   * The layout of one layer: its colour, a new path starting at (0, startY), one
   * `lineTo` per sample, the two bottom corners, back to the starting point, and
   * a fill.
   */
  lemma LayerShape(v: Values, width: real, height: real, sin: real -> real, l: nat)
    requires v.layers > 0.0 && Renderable(v)
    ensures var c := LayerCommands(v, width, height, sin, l);
      var n := SampleCount(v.segments);
      var startY := StartY(v, height, sin, l);
      && |c| == n + 7
      && c[0] == SetFillStyle(v.hueStart + ((l + 1) as real) * v.hueIncrement, v.sat,
                              v.light + ((l + 1) as real) * v.lightIncrement)
      && c[1] == BeginPath
      && c[2] == MoveTo(0.0, startY)
      && (forall i :: 0 <= i < n ==> c[3 + i] == LineTo(SampleX(v, width, i), SampleY(v, width, height, sin, l, i)))
      && c[n + 3] == LineTo(width, height)
      && c[n + 4] == LineTo(0.0, height)
      && c[n + 5] == LineTo(0.0, startY)
      && c[n + 6] == Fill
  {
    var head := LayerHead(v, height, sin, l);
    var n := SampleCount(v.segments);
    var samples := Samples(v, width, height, sin, l, n);
    var tail := LayerTail(v, width, height, sin, l);
    var c := head + samples + tail;
    assert c == LayerCommands(v, width, height, sin, l);
    assert |head| == 3 && |samples| == n && |tail| == 4;
    forall i | 0 <= i < n
      ensures c[3 + i] == samples[i]
    {
    }
    assert c[n + 3] == tail[0] && c[n + 4] == tail[1] && c[n + 5] == tail[2] && c[n + 6] == tail[3];
  }

  /** A layer makes SampleCount + 4 path calls: for a whole segment count s, that is s + 5. */
  lemma LayerPathCount(v: Values, width: real, height: real, sin: real -> real, l: nat)
    requires v.layers > 0.0 && Renderable(v)
    ensures var c := LayerCommands(v, width, height, sin, l);
      && PathCount(c) == SampleCount(v.segments) + 4
      && (IsWhole(v.segments) && v.segments >= 0.0 ==> PathCount(c) as real == v.segments + 5.0)
  {
    var head := LayerHead(v, height, sin, l);
    var n := SampleCount(v.segments);
    var samples := Samples(v, width, height, sin, l, n);
    var tail := LayerTail(v, width, height, sin, l);
    PathCountConcat(head, samples);
    PathCountConcat(head + samples, tail);
    SamplesArePath(v, width, height, sin, l, n);
    PathCountFour(head[0], head[1], head[2], Fill);
    assert head + [Fill] == [head[0], head[1], head[2], Fill];
    PathCountConcat(head, [Fill]);
    PathCountFour(tail[0], tail[1], tail[2], tail[3]);
    assert tail == [tail[0], tail[1], tail[2], tail[3]];
  }

  lemma PathCountFour(a: Command, b: Command, c: Command, d: Command)
    ensures PathCount([a, b, c, d]) == PathCalls(a) + PathCalls(b) + PathCalls(c) + PathCalls(d)
    ensures PathCount([d]) == PathCalls(d)
  {
    assert [a][..0] == [] && [d][..0] == [];
    assert PathCount([a]) == PathCalls(a);
    assert [a, b][..1] == [a];
    assert PathCount([a, b]) == PathCount([a]) + PathCalls(b);
    assert [a, b, c][..2] == [a, b];
    assert PathCount([a, b, c]) == PathCount([a, b]) + PathCalls(c);
    assert [a, b, c, d][..3] == [a, b, c];
  }

  /** The sample abscissae run from 0 and increase strictly; for a whole segment count the last is the width. */
  lemma SampleXs(v: Values, width: real)
    requires width > 0.0 && v.segments > 0.0
    ensures SampleX(v, width, 0) == 0.0
    ensures forall i: nat, j: nat :: i < j ==> SampleX(v, width, i) < SampleX(v, width, j)
    ensures forall i: nat :: i < SampleCount(v.segments) ==> 0.0 <= SampleX(v, width, i) <= width
    ensures IsWhole(v.segments) ==> SampleX(v, width, SampleCount(v.segments) - 1) == width
  {
    var step := width / v.segments;
    assert step * v.segments == width;
    assert step > 0.0;
    forall i: nat, j: nat | i < j
      ensures SampleX(v, width, i) < SampleX(v, width, j)
    {
      StepLess(step, i as real, j as real);
    }
    forall i: nat | i < SampleCount(v.segments)
      ensures 0.0 <= SampleX(v, width, i) <= width
    {
      SamplePass(v.segments, i);
      StepAtMost(step, i as real, v.segments);
    }
  }

  lemma StepLess(step: real, x: real, y: real)
    requires step > 0.0 && x < y
    ensures x * step < y * step
  {
  }

  lemma StepAtMost(step: real, x: real, y: real)
    requires step > 0.0 && 0.0 <= x <= y
    ensures 0.0 <= x * step <= y * step
  {
  }

  lemma SliceOfSuffix(a: seq<Command>, b: seq<Command>)
    ensures (a + b)[|a|..|a| + |b|] == b
  {
  }

  /** Later passes of the outer loop only append: the first m passes are a prefix of the first n. */
  lemma {:induction false} LayersPrefix(v: Values, width: real, height: real, sin: real -> real, m: nat, n: nat)
    requires Renderable(v) && (n > 0 ==> v.layers > 0.0) && m <= n
    ensures Layers(v, width, height, sin, m) <= Layers(v, width, height, sin, n)
  {
    if m < n {
      LayersPrefix(v, width, height, sin, m, n - 1);
      var before := Layers(v, width, height, sin, n - 1);
      var last := LayerCommands(v, width, height, sin, n - 1);
      assert Layers(v, width, height, sin, n) == before + last;
      PrefixOfAppend(Layers(v, width, height, sin, m), before, last);
    }
  }

  lemma PrefixOfAppend(p: seq<Command>, a: seq<Command>, b: seq<Command>)
    requires p <= a
    ensures p <= a + b
  {
    assert (a + b)[..|p|] == a[..|p|];
  }

  /** The passes of the outer loop follow each other in order: pass l sits right after passes 0 .. l - 1. */
  lemma LayersInOrder(v: Values, width: real, height: real, sin: real -> real, n: nat, l: nat)
    requires v.layers > 0.0 && Renderable(v) && l < n
    ensures |Layers(v, width, height, sin, l + 1)| <= |Layers(v, width, height, sin, n)|
    ensures Layers(v, width, height, sin, n)[|Layers(v, width, height, sin, l)|..|Layers(v, width, height, sin, l + 1)|]
            == LayerCommands(v, width, height, sin, l)
  {
    LayersPrefix(v, width, height, sin, l + 1, n);
    var before := Layers(v, width, height, sin, l);
    var upto := Layers(v, width, height, sin, l + 1);
    assert upto == before + LayerCommands(v, width, height, sin, l);
    SliceOfSuffix(before, LayerCommands(v, width, height, sin, l));
    assert Layers(v, width, height, sin, n)[|before|..|upto|] == upto[|before|..|upto|];
  }

  lemma {:induction false} LayersLength(v: Values, width: real, height: real, sin: real -> real, n: nat)
    requires Renderable(v) && (n > 0 ==> v.layers > 0.0)
    ensures |Layers(v, width, height, sin, n)| == n * (SampleCount(v.segments) + 7)
  {
    if n > 0 {
      var k := SampleCount(v.segments) + 7;
      LayersLength(v, width, height, sin, n - 1);
      LayerLength(v, width, height, sin, n - 1);
      assert (n - 1) * k + k == n * k;
    }
  }

  /** The drawing is the background and then one block of SampleCount + 7 calls per layer. */
  lemma DrawingLength(v: Values, width: real, height: real, sin: real -> real)
    requires Renderable(v)
    ensures |Drawing(v, width, height, sin)| == 2 + LayerCount(v.layers) * (SampleCount(v.segments) + 7)
  {
    LayersLength(v, width, height, sin, LayerCount(v.layers));
  }

  /** Pass l of the outer loop draws the l-th block of the drawing after the background. */
  lemma DrawingLayer(v: Values, width: real, height: real, sin: real -> real, l: nat)
    requires Renderable(v) && (l as real) < v.layers
    ensures var k := SampleCount(v.segments) + 7;
      && 2 + (l + 1) * k <= |Drawing(v, width, height, sin)|
      && Drawing(v, width, height, sin)[2 + l * k..2 + (l + 1) * k] == LayerCommands(v, width, height, sin, l)
  {
    var n := LayerCount(v.layers);
    LayerPass(v.layers, l);
    var layers := Layers(v, width, height, sin, n);
    LayersInOrder(v, width, height, sin, n, l);
    LayersLength(v, width, height, sin, l);
    LayersLength(v, width, height, sin, l + 1);
    var i := |Layers(v, width, height, sin, l)|;
    var j := |Layers(v, width, height, sin, l + 1)|;
    SliceOfSuffixPart(Background(v, width, height), layers, i, j);
  }

  lemma SliceOfSuffixPart(a: seq<Command>, b: seq<Command>, i: nat, j: nat)
    requires i <= j <= |b|
    ensures (a + b)[|a| + i..|a| + j] == b[i..j]
  {
  }
}
