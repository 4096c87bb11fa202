/**
 * The picture in the first column of the list: the application icon and the
 * tray icon side by side (ComposeSideBySide), each drawn fitted into its half
 * without upscaling (DrawFitNoUpscale).
 */
module Composite {
  import opened Wrappers
  import opened Geometry

  /** CreateBlankCanvas: a canvas cleared to `back` with nothing drawn. */
  function BlankCanvas(canvasW: Pos, canvasH: Pos, back: Color): (img: Image)
    ensures img.width == canvasW && img.height == canvasH && img.background == back
    ensures img.layers == []
  {
    Image(canvasW, canvasH, back, [])
  }

  /** DrawFitNoUpscale: nothing for a missing picture or an empty box, else the picture fitted and centred in the box. */
  function DrawFitNoUpscale(src: Option<Image>, box: Box): (r: Option<Layer>)
    ensures r.Some? <==> src.Some? && box.width > 0 && box.height > 0
    ensures r.Some? ==>
      && r.value.source == Picture(src.value)
      && FitsCentred(r.value.at.(x := r.value.at.x - box.x, y := r.value.at.y - box.y),
                     src.value.width, src.value.height, box.width, box.height)
  {
    if src.None? || box.width <= 0 || box.height <= 0 then None
    else
      var p := src.value;
      var fit := FitBox(p.width, p.height, box.width, box.height);
      FitBoxFits(p.width, p.height, box.width, box.height);
      Some(Layer(Picture(p), Box(box.x + fit.x, box.y + fit.y, fit.width, fit.height)))
  }

  /** The layer, if any, as a sequence of layers. */
  function Drawn(l: Option<Layer>): seq<Layer>
  {
    if l.Some? then [l.value] else []
  }

  /** The width of the left box: `(canvasW - gap) / 2` as C# divides, or `canvasW / 2` when that is below 1. */
  function SplitWidth(canvasW: Pos, gap: int): (halfW: int)
    ensures halfW >= 0
    ensures halfW >= 1 <==> canvasW >= 2 || canvasW - gap >= 2
    ensures gap >= 0 ==> 2 * halfW <= canvasW
  {
    var halfW := HalfTowardZero(canvasW - gap);
    if halfW < 1 then canvasW / 2 else halfW
  }

  /** The left box: from the canvas's left edge, SplitWidth wide, full height. */
  function LeftBox(canvasW: Pos, canvasH: Pos, gap: int): (b: Box)
    ensures b.x == 0 && b.y == 0 && b.height == canvasH && b.width >= 0
    ensures gap >= 0 ==> 2 * b.width <= canvasW
  {
    Box(0, 0, SplitWidth(canvasW, gap), canvasH)
  }

  /** The right box: `gap` pixels after the left box, reaching the canvas's right edge, full height. */
  function RightBox(canvasW: Pos, canvasH: Pos, gap: int): (b: Box)
    ensures var l := LeftBox(canvasW, canvasH, gap);
      b.x == l.x + l.width + gap && b.x + b.width == canvasW && b.y == 0 && b.height == canvasH
  {
    var halfW := SplitWidth(canvasW, gap);
    Box(halfW + gap, 0, canvasW - (halfW + gap), canvasH)
  }

  /**
   * ComposeSideBySide: a blank canvas when both pictures are missing, the one
   * picture fitted into the whole canvas when the other is missing, and
   * otherwise each picture fitted into its half, split around the gap.
   */
  function ComposeSideBySide(left: Option<Image>, right: Option<Image>, canvasW: Pos, canvasH: Pos,
                             gap: int, back: Color): (img: Image)
    ensures img.width == canvasW && img.height == canvasH && img.background == back
  {
    if left.None? && right.None? then BlankCanvas(canvasW, canvasH, back)
    else if right.None? then FitIntoCanvas(Picture(left.value), left.value.width, left.value.height, canvasW, canvasH, back)
    else if left.None? then FitIntoCanvas(Picture(right.value), right.value.width, right.value.height, canvasW, canvasH, back)
    else
      Image(canvasW, canvasH, back,
            Drawn(DrawFitNoUpscale(left, LeftBox(canvasW, canvasH, gap)))
            + Drawn(DrawFitNoUpscale(right, RightBox(canvasW, canvasH, gap))))
  }

  /**
   * With a gap of at least zero the left box never reaches past half the
   * canvas, is non-empty exactly when the canvas is at least 2 wide, and the
   * right box is at least as wide as the left whenever the halves were split
   * around the gap.
   */
  lemma SplitWidthBounds(canvasW: Pos, gap: int)
    requires gap >= 0
    ensures var halfW := SplitWidth(canvasW, gap);
      && 0 <= halfW && 2 * halfW <= canvasW
      && (halfW >= 1 <==> canvasW >= 2)
      && (canvasW - gap >= 2 ==> 2 * halfW + gap <= canvasW && canvasW - (halfW + gap) >= halfW)
  {
  }

  /** One picture missing: the other fills the whole canvas, fitted; both missing: a blank canvas. */
  lemma ComposeWithMissing(left: Option<Image>, right: Option<Image>, canvasW: Pos, canvasH: Pos, gap: int, back: Color)
    requires left.None? || right.None?
    ensures var img := ComposeSideBySide(left, right, canvasW, canvasH, gap, back);
      && (left.None? && right.None? ==> img.layers == [])
      && (left.Some? || right.Some? ==>
            var p := if left.Some? then left.value else right.value;
            && |img.layers| == 1 && img.layers[0].source == Picture(p)
            && FitsCentred(img.layers[0].at, p.width, p.height, canvasW, canvasH))
  {
  }

  /**
   * Both pictures present: the application icon, when its box is non-empty,
   * is the first layer and lies inside the left box; the tray icon, when its
   * box is non-empty, is the next layer and lies inside the right box, so with
   * a non-negative gap it starts at least `gap` pixels after the left box ends.
   */
  lemma ComposeBothInsideTheirBoxes(left: Image, right: Image, canvasW: Pos, canvasH: Pos, gap: int, back: Color)
    requires gap >= 0
    ensures var img := ComposeSideBySide(Some(left), Some(right), canvasW, canvasH, gap, back);
      var halfW := SplitWidth(canvasW, gap);
      var nl := if halfW >= 1 then 1 else 0;
      var nr := if canvasW - (halfW + gap) >= 1 then 1 else 0;
      && |img.layers| == nl + nr
      && (nl == 1 ==>
            var at := img.layers[0].at;
            && img.layers[0].source == Picture(left)
            && 0 <= at.x && at.x + at.width <= halfW && 0 <= at.y && at.y + at.height <= canvasH
            && 1 <= at.width && 1 <= at.height)
      && (nr == 1 ==>
            var at := img.layers[nl].at;
            && img.layers[nl].source == Picture(right)
            && halfW + gap <= at.x && at.x + at.width <= canvasW && 0 <= at.y && at.y + at.height <= canvasH
            && 1 <= at.width && 1 <= at.height)
  {
    var a := DrawFitNoUpscale(Some(left), LeftBox(canvasW, canvasH, gap));
    var b := DrawFitNoUpscale(Some(right), RightBox(canvasW, canvasH, gap));
    assert ComposeSideBySide(Some(left), Some(right), canvasW, canvasH, gap, back).layers == Drawn(a) + Drawn(b);
  }
}
