/**
 * Turning icon handles and screen regions into fixed-size canvases:
 * GetIconNativeSize, IconToCanvas, GetButtonIcon (image-list icon),
 * CaptureButtonIconFromScreen and GetExeIconCanvas. Each releases the
 * native handles it obtains on every path.
 */
module Icons {
  import opened Wrappers
  import opened Native
  import opened Geometry
  import Locator

  datatype Size = Size(width: Pos, height: Pos)

  const DefaultSize: Size := Size(16, 16)

  /** The size GetIconNativeSize reports for an icon handle. */
  function NativeSize(shell: Shell, hIcon: Handle): Size
  {
    match shell.iconInfo(hIcon)
    case None => DefaultSize
    case Some(ii) => SizeFromBitmaps(shell, ii)
  }

  /** The size read from an icon's colour bitmap, or from its mask when it has none. */
  function SizeFromBitmaps(shell: Shell, ii: IconInfo): Size
  {
    var hbmp := if ii.hbmColor != 0 then ii.hbmColor else ii.hbmMask;
    if hbmp == 0 then DefaultSize
    else match shell.bitmapDims(hbmp)
      case None => DefaultSize
      case Some(bm) =>
        var w := Max(1, bm.bmWidth);
        var h := Max(1, Abs(bm.bmHeight));
        Size(w, if ii.hbmColor == 0 && h % 2 == 0 then h / 2 else h)
  }

  /**
   * 16 x 16 when the icon, its bitmap or the bitmap's dimensions cannot be
   * had; otherwise the colour bitmap's size (at least 1 x 1), and for an icon
   * with only a mask, whose AND and XOR halves are stacked, half the mask's
   * even height.
   */
  lemma NativeSizeRules(shell: Shell, hIcon: Handle)
    ensures var n := NativeSize(shell, hIcon);
      match shell.iconInfo(hIcon)
      case None => n == DefaultSize
      case Some(ii) =>
        var hbmp := Locator.FirstNonZero([ii.hbmColor, ii.hbmMask]);
        if hbmp == 0 || shell.bitmapDims(hbmp).None? then n == DefaultSize
        else
          var bm := shell.bitmapDims(hbmp).value;
          && n.width == Max(1, bm.bmWidth)
          && (ii.hbmColor != 0 ==> n.height == Max(1, Abs(bm.bmHeight)))
          && (ii.hbmColor == 0 ==> (if Abs(bm.bmHeight) >= 2 && Abs(bm.bmHeight) % 2 == 0
                                    then 2 * n.height == Abs(bm.bmHeight)
                                    else n.height == Max(1, Abs(bm.bmHeight))))
  {
    match shell.iconInfo(hIcon)
    case None =>
    case Some(ii) =>
      assert [ii.hbmColor, ii.hbmMask][1..] == [ii.hbmMask];
      assert Locator.FirstNonZero([ii.hbmMask]) == ii.hbmMask;
  }

  /**
   * The GetObject part of GetIconNativeSize; it acquires and releases nothing.
   * It computes what `SizeFromBitmaps` specifies; keeping this step apart from
   * GetIconNativeSize keeps that method's proof small.
   */
  method MeasureBitmaps(os: Os, ii: IconInfo) returns (size: Size)
    ensures size == SizeFromBitmaps(os.shell, ii)
  {
    var hbmp := if ii.hbmColor != 0 then ii.hbmColor else ii.hbmMask;
    if hbmp == 0 {
      return DefaultSize;
    }
    var bm := os.shell.bitmapDims(hbmp);
    if bm.None? {
      return DefaultSize;
    }
    var w := Max(1, bm.value.bmWidth);
    var h := Max(1, Abs(bm.value.bmHeight));
    if ii.hbmColor == 0 && h % 2 == 0 {
      h := h / 2;
    }
    size := Size(w, h);
  }

  /** GetIconNativeSize: the colour and mask bitmaps of GetIconInfo are deleted on every path. */
  method GetIconNativeSize(os: Os, hIcon: Handle) returns (size: Size)
    modifies os`held
    ensures size == NativeSize(os.shell, hIcon)
    ensures os.held == old(os.held)
  {
    ghost var held0 := os.held;
    var info := os.GetIconInfo(hIcon);
    if info.None? {
      return DefaultSize;
    }
    var ii := info.value;
    size := MeasureBitmaps(os, ii);
    ghost var mask := if ii.hbmMask != 0 then multiset{Bitmap(ii.hbmMask)} else multiset{};
    if ii.hbmColor != 0 {
      ReleaseFirst(held0, Bitmap(ii.hbmColor), mask);
      os.DeleteObject(ii.hbmColor);
    }
    assert os.held == held0 + mask;
    if ii.hbmMask != 0 {
      ReleaseFirst(held0, Bitmap(ii.hbmMask), multiset{});
      os.DeleteObject(ii.hbmMask);
    }
  }

  /** IconToCanvas: the icon drawn into a transparent canvas, fitted from its native size. */
  function IconCanvas(shell: Shell, hIcon: Handle, canvasW: Pos, canvasH: Pos): (img: Image)
    ensures var n := NativeSize(shell, hIcon);
      img == FitIntoCanvas(IconHandle(hIcon), n.width, n.height, canvasW, canvasH, Transparent)
  {
    var n := NativeSize(shell, hIcon);
    Image(canvasW, canvasH, Transparent, [Layer(IconHandle(hIcon), FitBox(n.width, n.height, canvasW, canvasH))])
  }

  method IconToCanvas(os: Os, hIcon: Handle, canvasW: Pos, canvasH: Pos) returns (img: Image)
    modifies os`held
    ensures img == IconCanvas(os.shell, hIcon, canvasW, canvasH)
    ensures os.held == old(os.held)
  {
    var n := GetIconNativeSize(os, hIcon);
    img := Image(canvasW, canvasH, Transparent, [Layer(IconHandle(hIcon), FitBox(n.width, n.height, canvasW, canvasH))]);
  }

  /** GetButtonIcon: image `index` of image list `himl`, when there is one. */
  function ButtonIconOf(shell: Shell, himl: Handle, index: int, canvasW: Pos, canvasH: Pos): Option<Image>
  {
    if himl == 0 || index < 0 then None
    else
      var hIcon := shell.imageListIcon(himl, index);
      if hIcon == 0 then None else Some(IconCanvas(shell, hIcon, canvasW, canvasH))
  }

  method GetButtonIcon(os: Os, himl: Handle, index: int, canvasW: Pos, canvasH: Pos) returns (img: Option<Image>)
    modifies os`held
    ensures img == ButtonIconOf(os.shell, himl, index, canvasW, canvasH)
    ensures os.held == old(os.held)
  {
    if himl == 0 || index < 0 {
      return None;
    }
    var hIcon := os.ImageListGetIcon(himl, index);
    if hIcon == 0 {
      return None;
    }
    var canvas := IconToCanvas(os, hIcon, canvasW, canvasH);
    os.DestroyIcon(hIcon);
    img := Some(canvas);
  }

  /** The screen rectangle CaptureButtonIconFromScreen copies: its top-left corner and its size. */
  datatype ScreenRegion = ScreenRegion(origin: Point, width: Pos, height: Pos)

  /**
   * The button's rectangle in screen coordinates, if the RECT can be fetched,
   * is not empty and both corners can be converted.
   */
  function ButtonScreenRegion(shell: Shell, toolbar: Handle, buttonIndex: int): Option<ScreenRegion>
  {
    if shell.virtualAlloc(RectBuffer) == 0 then None
    else match shell.rectRead(toolbar, buttonIndex)
      case None => None
      case Some(r) =>
        if r.Width() <= 0 || r.Height() <= 0 then None
        else
          var tl := shell.clientToScreen(toolbar, Point(r.left, r.top));
          var br := shell.clientToScreen(toolbar, Point(r.right, r.bottom));
          if tl.None? || br.None? then None
          else Some(ScreenRegion(tl.value, Max(1, br.value.x - tl.value.x), Max(1, br.value.y - tl.value.y)))
  }

  /** CaptureButtonIconFromScreen: the button's pixels as the user sees them, fitted into the canvas. */
  function CaptureOf(shell: Shell, toolbar: Handle, buttonIndex: int, canvasW: Pos, canvasH: Pos, back: Color): Option<Image>
  {
    match ButtonScreenRegion(shell, toolbar, buttonIndex)
    case None => None
    case Some(g) =>
      if !shell.screenCopyOk(g.origin, g.width, g.height) then None
      else Some(FitIntoCanvas(Screen(g.origin, g.width, g.height), g.width, g.height, canvasW, canvasH, back))
  }

  /**
   * A capture exists only for a button whose non-empty rectangle was fetched and
   * copied; it is then the whole canvas with the copied region drawn fitted and centred.
   */
  lemma CaptureNeedsVisibleButton(shell: Shell, toolbar: Handle, buttonIndex: int, canvasW: Pos, canvasH: Pos, back: Color)
    requires CaptureOf(shell, toolbar, buttonIndex, canvasW, canvasH, back).Some?
    ensures shell.virtualAlloc(RectBuffer) != 0
    ensures var r := shell.rectRead(toolbar, buttonIndex); r.Some? && r.value.Width() > 0 && r.value.Height() > 0
    ensures var img := CaptureOf(shell, toolbar, buttonIndex, canvasW, canvasH, back).value;
      && img.width == canvasW && img.height == canvasH && img.background == back && |img.layers| == 1
      && img.layers[0].source.Screen?
      && shell.screenCopyOk(img.layers[0].source.origin, img.layers[0].source.width, img.layers[0].source.height)
      && FitsCentred(img.layers[0].at, img.layers[0].source.width, img.layers[0].source.height, canvasW, canvasH)
    ensures var r := shell.rectRead(toolbar, buttonIndex).value;
      var tl := shell.clientToScreen(toolbar, Point(r.left, r.top));
      var br := shell.clientToScreen(toolbar, Point(r.right, r.bottom));
      && tl.Some? && br.Some?
      && CaptureOf(shell, toolbar, buttonIndex, canvasW, canvasH, back).value.layers[0].source
         == Screen(tl.value, Max(1, br.value.x - tl.value.x), Max(1, br.value.y - tl.value.y))
  {
  }

  /**
   * The capture by cases: nothing when the RECT buffer cannot be allocated, the
   * RECT cannot be read or is empty, a corner cannot be converted or the screen
   * copy fails; otherwise the region from the converted top-left corner, at
   * least one pixel each way, fitted into the canvas.
   */
  lemma CaptureByCases(shell: Shell, toolbar: Handle, buttonIndex: int, canvasW: Pos, canvasH: Pos, back: Color)
    ensures var c := CaptureOf(shell, toolbar, buttonIndex, canvasW, canvasH, back);
      var rr := shell.rectRead(toolbar, buttonIndex);
      if shell.virtualAlloc(RectBuffer) == 0 || rr.None? || rr.value.Width() <= 0 || rr.value.Height() <= 0 then c.None?
      else
        var tl := shell.clientToScreen(toolbar, Point(rr.value.left, rr.value.top));
        var br := shell.clientToScreen(toolbar, Point(rr.value.right, rr.value.bottom));
        if tl.None? || br.None? then c.None?
        else
          var w := Max(1, br.value.x - tl.value.x);
          var h := Max(1, br.value.y - tl.value.y);
          c == (if shell.screenCopyOk(tl.value, w, h)
                then Some(FitIntoCanvas(Screen(tl.value, w, h), w, h, canvasW, canvasH, back))
                else None)
  {
  }

  /** The RECT fetch and corner conversion of CaptureButtonIconFromScreen; both buffers are freed. */
  method GetButtonScreenRegion(os: Os, toolbar: Handle, buttonIndex: int) returns (g: Option<ScreenRegion>)
    modifies os`held
    ensures g == ButtonScreenRegion(os.shell, toolbar, buttonIndex)
    ensures os.held == old(os.held)
  {
    ghost var held0 := os.held;
    var remoteRect := os.VirtualAllocEx(RectBuffer);
    if remoteRect == 0 {
      return None;
    }
    os.AllocHGlobal(RectBuffer);
    var read := os.shell.rectRead(toolbar, buttonIndex);
    os.FreeHGlobal(RectBuffer);
    assert os.held == held0 + multiset{Remote(remoteRect)};
    os.VirtualFreeEx(remoteRect);
    if read.None? {
      return None;
    }
    var r := read.value;
    if r.Width() <= 0 || r.Height() <= 0 {
      return None;
    }
    var tl := os.shell.clientToScreen(toolbar, Point(r.left, r.top));
    var br := os.shell.clientToScreen(toolbar, Point(r.right, r.bottom));
    if tl.None? || br.None? {
      return None;
    }
    g := Some(ScreenRegion(tl.value, Max(1, br.value.x - tl.value.x), Max(1, br.value.y - tl.value.y)));
  }

  method CaptureButtonIconFromScreen(os: Os, toolbar: Handle, hProc: Handle, buttonIndex: int,
                                     canvasW: Pos, canvasH: Pos, back: Color) returns (img: Option<Image>)
    modifies os`held
    ensures img == CaptureOf(os.shell, toolbar, buttonIndex, canvasW, canvasH, back)
    ensures os.held == old(os.held)
  {
    var region := GetButtonScreenRegion(os, toolbar, buttonIndex);
    if region.None? {
      return None;
    }
    var g := region.value;
    if !os.shell.screenCopyOk(g.origin, g.width, g.height) {
      return None;
    }
    img := Some(FitIntoCanvas(Screen(g.origin, g.width, g.height), g.width, g.height, canvasW, canvasH, back));
  }

  /** GetExeIconCanvas: the executable's first icon, large if there is one, else small. */
  function ExeIconOf(shell: Shell, exePath: string, canvasW: Pos, canvasH: Pos): Option<Image>
  {
    var e := shell.extractIcons(exePath);
    if e.count == 0 then None else ExtractedCanvas(shell, e, canvasW, canvasH)
  }

  /** The canvas of the large icon extracted, else of the small one, else nothing. */
  function ExtractedCanvas(shell: Shell, e: ExtractedIcons, canvasW: Pos, canvasH: Pos): Option<Image>
  {
    var hIcon := if e.large != 0 then e.large else e.small;
    if hIcon == 0 then None else Some(IconCanvas(shell, hIcon, canvasW, canvasH))
  }

  /** The executable's icon is drawn from the first nonzero of the large and the small handle. */
  lemma ExeIconPrefersLarge(shell: Shell, exePath: string, canvasW: Pos, canvasH: Pos)
    ensures var e := shell.extractIcons(exePath);
      var hIcon := Locator.FirstNonZero([e.large, e.small]);
      ExeIconOf(shell, exePath, canvasW, canvasH)
        == if e.count == 0 || hIcon == 0 then None else Some(IconCanvas(shell, hIcon, canvasW, canvasH))
  {
    var e := shell.extractIcons(exePath);
    assert [e.large, e.small][1..] == [e.small];
    assert Locator.FirstNonZero([e.small]) == e.small;
  }

  /** The DestroyIcon calls that end GetExeIconCanvas: both extracted icons are released. */
  method DestroyExtracted(os: Os, e: ExtractedIcons)
    requires e.count != 0 && IconsOf(e) <= os.held
    modifies os`held
    ensures os.held == old(os.held) - IconsOf(e)
  {
    ghost var held0 := os.held - IconsOf(e);
    ghost var small := if e.small != 0 then multiset{Icon(e.small)} else multiset{};
    assert os.held == held0 + ((if e.large != 0 then multiset{Icon(e.large)} else multiset{}) + small);
    if e.large != 0 {
      ReleaseFirst(held0, Icon(e.large), small);
      os.DestroyIcon(e.large);
    }
    assert os.held == held0 + small;
    if e.small != 0 {
      ReleaseFirst(held0, Icon(e.small), multiset{});
      os.DestroyIcon(e.small);
    }
  }

  method GetExeIconCanvas(os: Os, exePath: string, canvasW: Pos, canvasH: Pos) returns (img: Option<Image>)
    modifies os`held
    ensures img == ExeIconOf(os.shell, exePath, canvasW, canvasH)
    ensures os.held == old(os.held)
  {
    ghost var held0 := os.held;
    var e := os.ExtractIconEx(exePath);
    if e.count == 0 {
      return None;
    }
    img := DrawExtracted(os, e, canvasW, canvasH);
    DestroyExtracted(os, e);
    assert os.held == held0 + IconsOf(e) - IconsOf(e);
  }

  /** The body of GetExeIconCanvas's try block: draw the icon chosen, holding nothing new. */
  method DrawExtracted(os: Os, e: ExtractedIcons, canvasW: Pos, canvasH: Pos) returns (img: Option<Image>)
    modifies os`held
    ensures img == ExtractedCanvas(os.shell, e, canvasW, canvasH)
    ensures os.held == old(os.held)
  {
    var hIcon := if e.large != 0 then e.large else e.small;
    if hIcon == 0 {
      img := None;
    } else {
      var canvas := IconToCanvas(os, hIcon, canvasW, canvasH);
      img := Some(canvas);
    }
  }
}
