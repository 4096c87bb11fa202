/**
 * Images as values, and the fit-into-canvas arithmetic shared by the tray
 * interop code and the main form.
 *
 * The C# code computes the scale in `float` and rounds with `Math.Round`
 * (round half to even). Here the scale is an exact real and the rounding is
 * exact round-half-to-even on reals; pixels are not modelled, only the canvas
 * size and where each source image is drawn.
 */
module Geometry {
  import opened Native

  /** A positive dimension: `new Bitmap(w, h)` rejects anything smaller. */
  type Pos = n: int | n >= 1 witness 1

  /** A System.Drawing.Rectangle. */
  datatype Box = Box(x: int, y: int, width: int, height: int)

  datatype Color = Transparent | White

  /** Where the pixels of a layer come from. */
  datatype Source =
    | Screen(origin: Point, width: int, height: int)  // a copy of a screen region
    | IconHandle(hIcon: Handle)                         // an icon drawn from its handle
    | Picture(image: Image)                             // an image built earlier

  /** One DrawImage/DrawIcon call onto a canvas. */
  datatype Layer = Layer(source: Source, at: Box)

  /** A 32bpp canvas cleared to `background`, with `layers` drawn onto it in order. */
  datatype Image = Image(width: Pos, height: Pos, background: Color, layers: seq<Layer>)

  function Max(a: int, b: int): int { if a >= b then a else b }
  function Min(a: real, b: real): real { if a <= b then a else b }
  function Abs(a: int): int { if a < 0 then -a else a }

  /** C#'s `a / 2`, which truncates toward zero (Dafny's `/` is Euclidean). */
  function HalfTowardZero(a: int): (q: int)
    ensures a >= 0 ==> 0 <= a - 2 * q <= 1
    ensures a < 0 ==> -1 <= a - 2 * q <= 0
  {
    if a >= 0 then a / 2 else -((-a) / 2)
  }

  /** `Math.Round` with its default MidpointRounding.ToEven. */
  function RoundHalfEven(x: real): (n: int)
    ensures -0.5 <= n as real - x <= 0.5
    ensures (n as real - x == 0.5 || x - n as real == 0.5) ==> n % 2 == 0
  {
    var f := x.Floor;
    var d := x - f as real;
    if d < 0.5 then f
    else if d > 0.5 then f + 1
    else if f % 2 == 0 then f
    else f + 1
  }

  /** Rounding a value no larger than an integer bound never exceeds the bound. */
  lemma RoundAtMost(x: real, bound: int)
    requires x <= bound as real
    ensures RoundHalfEven(x) <= bound
  {
  }

  /**
   * `Math.Min(1f, Math.Min(canvasW / srcW, canvasH / srcH))`: the largest
   * scale, never above 1, at which the source fits the canvas.
   */
  function FitScale(srcW: Pos, srcH: Pos, canvasW: Pos, canvasH: Pos): (s: real)
    ensures 0.0 < s <= 1.0
    ensures s * srcW as real <= canvasW as real && s * srcH as real <= canvasH as real
    ensures s == 1.0 || s * srcW as real == canvasW as real || s * srcH as real == canvasH as real
  {
    var sw := canvasW as real / srcW as real;
    var sh := canvasH as real / srcH as real;
    RatioTimes(canvasW as real, srcW as real);
    RatioTimes(canvasH as real, srcH as real);
    var s := Min(1.0, Min(sw, sh));
    ScaleBelow(s, sw, srcW as real);
    ScaleBelow(s, sh, srcH as real);
    s
  }

  lemma RatioTimes(a: real, b: real)
    requires b > 0.0
    ensures (a / b) * b == a
  {
  }

  lemma ScaleBelow(s: real, t: real, n: real)
    requires 0.0 < n && s <= t
    ensures s * n <= t * n
  {
  }

  /** `Math.Max(1, (int)Math.Round(n * scale))`: a scaled length of at least one pixel. */
  function ScaledLength(n: Pos, scale: real): Pos
  {
    Max(1, RoundHalfEven(n as real * scale))
  }

  /**
   * The rectangle a `srcW` x `srcH` source is drawn into on a `boxW` x `boxH`
   * area: scaled by FitScale, at least one pixel, and centred with C#'s
   * truncating `(box - draw) / 2`.
   */
  function FitBox(srcW: Pos, srcH: Pos, boxW: Pos, boxH: Pos): Box
  {
    var scale := FitScale(srcW, srcH, boxW, boxH);
    var w := ScaledLength(srcW, scale);
    var h := ScaledLength(srcH, scale);
    Box(HalfTowardZero(boxW - w), HalfTowardZero(boxH - h), w, h)
  }

  /** The drawn rectangle lies inside the area, is non-empty, is never upscaled, and is centred. */
  predicate FitsCentred(b: Box, srcW: int, srcH: int, boxW: int, boxH: int)
  {
    && 1 <= b.width <= boxW && 1 <= b.height <= boxH
    && b.width <= srcW && b.height <= srcH
    && 0 <= b.x && b.x + b.width <= boxW && 0 <= b.y && b.y + b.height <= boxH
    && 0 <= boxW - b.width - 2 * b.x <= 1 && 0 <= boxH - b.height - 2 * b.y <= 1
  }

  /** The drawn size is the source size times the fit scale, up to rounding. */
  predicate KeepsAspect(b: Box, srcW: int, srcH: int, scale: real)
  {
    && -0.5 <= b.width as real - srcW as real * scale <= 1.0
    && -0.5 <= b.height as real - srcH as real * scale <= 1.0
  }

  lemma ScaledLengthBounds(n: Pos, scale: real, bound: Pos)
    requires 0.0 < scale <= 1.0 && n as real * scale <= bound as real
    ensures ScaledLength(n, scale) <= bound && ScaledLength(n, scale) <= n
    ensures -0.5 <= ScaledLength(n, scale) as real - n as real * scale <= 1.0
  {
    RoundAtMost(n as real * scale, bound);
    ScaleBelow(scale, 1.0, n as real);
    RoundAtMost(n as real * scale, n);
  }

  lemma FitBoxFits(srcW: Pos, srcH: Pos, boxW: Pos, boxH: Pos)
    ensures FitsCentred(FitBox(srcW, srcH, boxW, boxH), srcW, srcH, boxW, boxH)
    ensures KeepsAspect(FitBox(srcW, srcH, boxW, boxH), srcW, srcH, FitScale(srcW, srcH, boxW, boxH))
  {
    var scale := FitScale(srcW, srcH, boxW, boxH);
    ScaledLengthBounds(srcW, scale, boxW);
    ScaledLengthBounds(srcH, scale, boxH);
  }

  /**
   * FitIntoCanvasNoUpscale: a `canvasW` x `canvasH` canvas cleared to `back`
   * with the source drawn once, fitted by FitBox (source sizes below one count as one).
   * The interop and the form each have a copy of this routine; the two differ
   * only in local names, so this one function models both.
   */
  function FitIntoCanvas(src: Source, srcW: int, srcH: int, canvasW: Pos, canvasH: Pos, back: Color): (img: Image)
    ensures img.width == canvasW && img.height == canvasH && img.background == back
    ensures |img.layers| == 1 && img.layers[0].source == src
    ensures FitsCentred(img.layers[0].at, Max(1, srcW), Max(1, srcH), canvasW, canvasH)
  {
    FitBoxFits(Max(1, srcW), Max(1, srcH), canvasW, canvasH);
    Image(canvasW, canvasH, back, [Layer(src, FitBox(Max(1, srcW), Max(1, srcH), canvasW, canvasH))])
  }
}
