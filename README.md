# TrayControl tray-icon core, modelled in Dafny

TrayControl lists the icons of the Windows notification area. It finds
explorer's tray toolbars (`ToolbarWindow32` under `Shell_TrayWnd` and under
`NotifyIconOverflowWindow`). It reads each toolbar button out of explorer's
address space and builds one record per visible button: the command id, the
label text, the owner executable's path and icon, and the tray picture. It
can hide or show a button with `TB_HIDEBUTTON`. The main window lists the
records with a composite picture per row, keeps the selection across a
refresh, and sizes its columns to the content.

This project models that core in Dafny 4.11, as written in
`TrayControl/TrayInterop.cs` and `TrayControl/Form1.cs`:

- **The operating system is an oracle.** `Native.Shell` holds one total
  function per kind of native question (FindWindow, FindWindowEx,
  SendMessage replies, ReadProcessMemory results, ClientToScreen,
  GetIconInfo, and so on), keyed by the call's arguments. The answers are unconstrained
  except for the assumptions listed under "## Left out".
- **Native resources are tracked.** `Native.Os` keeps the process handles,
  remote and local buffers, icons and GDI bitmaps currently held in a ghost
  multiset `held`. Each release call may only release what is held.
- **Every path releases what it took.** Every interop step except the
  release helper `Icons.DestroyExtracted` ends with
  `os.held == old(os.held)`: all it acquired is released on every path,
  including early returns and skipped buttons. `DestroyExtracted` releases
  exactly the icons `ExtractIconEx` handed out.
- **Hide/show changes the shell.** A `TB_HIDEBUTTON` is the one call that
  changes the shell's later answers (`Os.react`), and it is logged in `Os.sent`.
- **Functions specify methods.** Each step method (`ForEachButton`,
  `GetButtonTextCrossProc`, `CaptureButtonIconFromScreen`, …) is proved
  equal to a specification function of the shell (`Enumerate`,
  `ButtonTextOf`, `CaptureOf`, …). Lemmas about those functions state what
  the source promises.
- **Images are values.** An image is a canvas size, a background and the
  list of drawing calls made onto it (`Geometry.Image`). The fit arithmetic
  uses exact reals for the `float` scale, exact round-half-to-even for
  `Math.Round`, and truncating division for C#'s `/ 2`. The form's
  `FitIntoCanvasNoUpscale` (TrayControl/Form1.cs:232-255) is the same
  computation as the interop's (TrayControl/TrayInterop.cs:454-477), up to
  local variable names, so both are modelled by the one `Geometry.FitIntoCanvas`.
- **The form is a class.** `TrayForm.Form1` holds the rows, the image-list
  images and the columns. Its methods update them in place, as
  `LoadTrayItems`, `AutoSizeColumnsToContent` and the Show/Hide handlers do.

The code always skips hidden buttons as well as separators. There is no
include-hidden mode and no hidden-state query.

## Model

| member | source | states |
|---|---|---|
| Geometry.HalfTowardZero | TrayControl/TrayInterop.cs:462-463 | C#'s `/ 2`: the remainder is 0 or 1 for non-negative and 0 or -1 for negative numerators (truncation toward zero) |
| Geometry.RoundHalfEven | TrayControl/TrayInterop.cs:460-461 | `Math.Round`: the result is within 0.5 of the argument, and a tie goes to the even integer |
| Geometry.FitScale | TrayControl/TrayInterop.cs:459 | the scale is in (0, 1]; the scaled source fits the canvas in both dimensions; the scale is 1 or one of the two fitting ratios |
| Geometry.ScaledLengthBounds | TrayControl/TrayInterop.cs:460-461 | a drawn length is at least 1, at most the box and the source length, and within rounding of source × scale |
| Geometry.FitBoxFits | TrayControl/TrayInterop.cs:454-464 | the drawn rectangle is inside the canvas, non-empty, never upscaled and centred to within one pixel; its size is the source size times the scale, up to rounding (aspect kept) |
| Geometry.FitIntoCanvas | TrayControl/TrayInterop.cs:454-477 | the result is exactly canvasW × canvasH, cleared to the background, with the source drawn once, fitted and centred (source sizes below 1 count as 1) |
| Locator.WalkFailsClosed | TrayControl/TrayInterop.cs:174-197 | if any prefix of a class-name chain finds no window, the whole lookup yields 0 |
| Locator.GetLiveTrayToolbar | TrayControl/TrayInterop.cs:174-189 | the early-return chain equals the lookup along Shell_TrayWnd → TrayNotifyWnd → SysPager → ToolbarWindow32 |
| Locator.GetOverflowToolbar | TrayControl/TrayInterop.cs:191-197 | the early-return chain equals the lookup along NotifyIconOverflowWindow → ToolbarWindow32 |
| Locator.GetToolbar | TrayControl/TrayInterop.cs:171-172 | the toolbar of an area is the lookup along that area's chain |
| Locator.ToolbarFailsClosed | TrayControl/TrayInterop.cs:171-197 | for either area, a window missing at any step of its chain means no toolbar (0) |
| Locator.ToolbarFoundUnderChain | TrayControl/TrayInterop.cs:171-197 | a toolbar found is the ToolbarWindow32 child of the nonzero window found by the rest of its chain |
| Locator.FirstNonZero | TrayControl/TrayInterop.cs:285-294 | the result is 0 exactly when all candidates are 0, and otherwise it is the first nonzero candidate |
| Locator.GetToolbarImageList | TrayControl/TrayInterop.cs:285-294 | the image list is the first nonzero reply among TB_GETIMAGELIST, TB_GETHOTIMAGELIST and TB_GETDISABLEDIMAGELIST |
| Locator.SetHidden | TrayControl/TrayInterop.cs:296-302 | with no toolbar: false and no message; otherwise TB_HIDEBUTTON(idCommand, 1 or 0) is sent, and the result is true exactly when the reply is nonzero |
| Locator.HideAndShowDifferOnlyInFlag | TrayControl/TrayInterop.cs:167-168 | HideIcon and ShowIcon send a message exactly when the area's toolbar exists; the two messages go to that toolbar and differ only in lParam (1 to hide, 0 to show) |
| Locator.HideOrShowIcon | TrayControl/TrayInterop.cs:167-168 | the result is SetHidden's on the area's toolbar; the message, if any, is delivered once and changes the shell as the toolbar reacts; with no message nothing changes |
| ButtonText.UntilNul | TrayControl/TrayInterop.cs:324 | the string read is a NUL-free prefix of the buffer that stops at its first NUL |
| ButtonText.IndexOf | TrayControl/TrayInterop.cs:327 | the result is -1 exactly when the character is absent, and otherwise its first position |
| ButtonText.CutAtNul | TrayControl/TrayInterop.cs:327-328 | the result is the longest NUL-free prefix of its argument: it contains no NUL and stops at the first NUL |
| ButtonText.ButtonTextIsPrefixBeforeNul | TrayControl/TrayInterop.cs:305-328 | the label has no NUL and at most 512 characters. It is empty when the remote allocation fails, the reply is negative or the read fails; otherwise it is the buffer's prefix before the first NUL |
| ButtonText.GetButtonTextCrossProc | TrayControl/TrayInterop.cs:305-335 | returns ButtonTextOf; the remote and local text buffers are released on every path |
| Owner.TryGetOwnerHwndFromDwData | TrayControl/TrayInterop.cs:480-499 | with dwData 0 or a failed read: false with handle 0. Otherwise it returns the first word, and true exactly when that word is a nonzero live window. The local buffer is freed |
| Owner.GetProcessPath | TrayControl/TrayInterop.cs:501-518 | None if the process cannot be opened, else the image-name query result; the process handle is closed |
| Owner.OwnerNeedsLiveWindow | TrayControl/TrayInterop.cs:242-245 | an owner path exists only for a nonzero, readable dwData whose first word is a nonzero live window, and is then that window's process path; a zero dwData gives none. Conversely, such a dwData always yields the image name of that window's process |
| Icons.NativeSizeRules | TrayControl/TrayInterop.cs:426-443 | the size is 16×16 when GetIconInfo, the bitmap or GetObject fails. Otherwise the width is max(1, bmWidth). The height is max(1, abs(bmHeight)), halved for a mask-only icon with an even height |
| Icons.MeasureBitmaps | TrayControl/TrayInterop.cs:432-443 | the bitmap query of GetIconNativeSize computes SizeFromBitmaps |
| Icons.GetIconNativeSize | TrayControl/TrayInterop.cs:426-452 | returns NativeSize; both GetIconInfo bitmaps are deleted on every path |
| Icons.IconCanvas | TrayControl/TrayInterop.cs:400-424 | IconToCanvas is the fit-into-canvas of the icon at its native size on a transparent canvas |
| Icons.IconToCanvas | TrayControl/TrayInterop.cs:400-424 | returns IconCanvas and holds no resource afterwards |
| Icons.GetButtonIcon | TrayControl/TrayInterop.cs:386-398 | None for a zero image list, a negative index or no icon; otherwise the icon's canvas; the icon is destroyed |
| Icons.GetButtonScreenRegion | TrayControl/TrayInterop.cs:340-371 | the RECT fetch and corner conversion yield ButtonScreenRegion; the remote and local RECT buffers are freed |
| Icons.CaptureNeedsVisibleButton | TrayControl/TrayInterop.cs:338-383 | a capture exists only if the slot was allocated, the RECT was read, it is non-empty, both corners were converted to screen coordinates and the copy worked. The capture is then the canvas with the copied region fitted and centred; the region starts at the converted top-left corner and is max(1, br − tl) in each direction |
| Icons.CaptureByCases | TrayControl/TrayInterop.cs:338-383 | the capture by cases: none for a failed RECT allocation or read, an empty RECT, a failed ClientToScreen or a failed screen copy; otherwise the region from the converted top-left corner, max(1, br − tl) each way, fitted into the canvas |
| Icons.CaptureButtonIconFromScreen | TrayControl/TrayInterop.cs:338-383 | returns CaptureOf and holds no resource afterwards |
| Icons.ExeIconPrefersLarge | TrayControl/TrayInterop.cs:521-532 | the executable icon is None if nothing was extracted; otherwise it is drawn from the first nonzero of the large and small icon |
| Icons.DestroyExtracted | TrayControl/TrayInterop.cs:534-540 | releases exactly the icons ExtractIconEx handed out |
| Icons.DrawExtracted | TrayControl/TrayInterop.cs:529-532 | the large icon if nonzero, else the small one, is drawn to its canvas; nothing when both are 0; nothing is held afterwards |
| Icons.GetExeIconCanvas | TrayControl/TrayInterop.cs:521-541 | returns ExeIconOf; both extracted icons are destroyed on every path |
| Enumeration.TrayIconList.Add | TrayControl/TrayInterop.cs:258-266 | appends one record and keeps the earlier ones |
| Enumeration.TrayIconList.constructor | TrayControl/TrayInterop.cs:153 | a new result list is empty |
| Enumeration.ListedIndicesExact | TrayControl/TrayInterop.cs:222-235 | the indices kept are exactly those below n whose style lacks TBSTYLE_SEP and whose state lacks TBSTATE_HIDDEN, in strictly increasing order |
| Enumeration.RecordsFollowListed | TrayControl/TrayInterop.cs:222-266 | there is one record per kept index, and the k-th record describes the k-th kept button |
| Enumeration.RecordsDescribeButtons | TrayControl/TrayInterop.cs:237-266 | each record has the enumerated area, a kept button's idCommand, and that button's label |
| Enumeration.EnumerateListsVisibleButtons | TrayControl/TrayInterop.cs:199-266 | nothing is reported for a zero toolbar, a failed OpenProcess, a count ≤ 0 or a failed slot allocation. Otherwise exactly the non-separator, non-hidden buttons below the count are reported, in index order |
| Enumeration.ButtonRecordFallbacks | TrayControl/TrayInterop.cs:239-256 | the app icon needs a non-empty owner path and a nonzero dwData, and for a non-empty path it is that executable's icon. The tray picture is the capture when there is one; otherwise it is the icon from the toolbar's image list at the button's iBitmap, which needs a nonzero image list and a non-negative index |
| Enumeration.ResolveApp | TrayControl/TrayInterop.cs:239-248 | the owner path is OwnerPathOf; the app icon is taken only for a non-empty path; nothing is held afterwards |
| Enumeration.DescribeButton | TrayControl/TrayInterop.cs:237-266 | builds ButtonRecord for the button; the image list is consulted only when the capture yields nothing |
| Enumeration.ReadButton | TrayControl/TrayInterop.cs:224-271 | one iteration appends the button's record if it is kept and nothing otherwise; the local TBBUTTON buffer is freed on both paths |
| Enumeration.ReadButtons | TrayControl/TrayInterop.cs:222-272 | the loop appends Records(count) to what the list already held |
| Enumeration.ReadOpenToolbar | TrayControl/TrayInterop.cs:211-277 | a count ≤ 0 or a failed slot allocation appends nothing; the remote slot is freed |
| Enumeration.ForEachButton | TrayControl/TrayInterop.cs:199-283 | results == old results ++ Enumerate: earlier entries are untouched, and early exits append nothing. The process handle and the remote slot are released |
| Enumeration.EnumerateKeepsArea | TrayControl/TrayInterop.cs:258-261 | every record carries the area it was enumerated for |
| Enumeration.TrayIconsNotificationFirst | TrayControl/TrayInterop.cs:151-165 | no overflow record precedes a notification-area record; an area whose toolbar is 0 contributes nothing |
| Enumeration.ListTrayIcons | TrayControl/TrayInterop.cs:151-165 | a fresh list holding the live toolbar's records, then the overflow toolbar's; nothing is held afterwards |
| Display.NatToString | TrayControl/Form1.cs:145 | `ToString()` of a non-negative integer is a non-empty string of decimal digits, with two or more digits from 10 up |
| Display.NatToStringInjective | TrayControl/Form1.cs:145 | distinct non-negative integers have distinct decimal forms |
| Display.IntToString | TrayControl/Form1.cs:145 | an integer's decimal form is non-empty, starts with '-' exactly when the integer is negative, and is otherwise all digits |
| Display.IntToStringInjective | TrayControl/Form1.cs:145 | distinct integers have distinct decimal forms |
| Display.KeyIdentifiesButton | TrayControl/Form1.cs:144-145 | two records have the same `"<area ordinal>:<idCommand>"` key exactly when they have the same area and command id |
| Display.LastSeparator | TrayControl/Form1.cs:112 | the position of the last '\\' or '/', or -1 when there is none |
| Display.Key | TrayControl/Form1.cs:144-145 | a key is one digit (the area ordinal), a ':', then a colon-free decimal command id |
| Display.FileName | TrayControl/Form1.cs:112 | `Path.GetFileName`: the suffix of the path that starts right after its last `\` or `/` (the whole path when there is none) and holds no separator |
| Display.FileNameWithoutExtension | TrayControl/Form1.cs:112 | `Path.GetFileNameWithoutExtension`: the whole file name when it has no '.', else the prefix of the file name that stops at its last '.' |
| Display.DisplayName | TrayControl/Form1.cs:110-113 | the display name is empty only when it comes from a non-empty executable path |
| Display.LastDot | TrayControl/Form1.cs:112 | the position of the last '.', or -1 when there is none |
| Display.FileNameAfterLastSeparator | TrayControl/Form1.cs:112 | the file name of `dir\rest` is `rest` when rest has no separator |
| Display.LastDotBeforeExtension | TrayControl/Form1.cs:112 | the last dot of `name.ext` is the one before ext when ext has no dot |
| Display.FileNameWithoutExtensionOf | TrayControl/Form1.cs:112 | `GetFileNameWithoutExtension(dir\name.ext)` is `name` when name has no separator and ext no dot or separator |
| Display.DisplayNameChoice | TrayControl/Form1.cs:110-126 | a row has three sub-items: the display name, the tray text, and the path or "". The name is the exe stem for a non-empty path, else the text, else "(unknown)" |
| Composite.DrawFitNoUpscale | TrayControl/Form1.cs:205-221 | draws nothing for a missing picture or an empty box; otherwise the picture, fitted, never upscaled and centred inside the box |
| Composite.BlankCanvas | TrayControl/Form1.cs:224-230 | a canvas of the requested size cleared to the background, with nothing drawn |
| Composite.SplitWidth | TrayControl/Form1.cs:187-189 | the left width is never negative, is at least 1 exactly when the canvas or the canvas less the gap is at least 2 wide, and for gap ≥ 0 is at most half the canvas |
| Composite.LeftBox | TrayControl/Form1.cs:196 | the left box starts at the canvas origin, has the canvas height and, for gap ≥ 0, at most half its width |
| Composite.RightBox | TrayControl/Form1.cs:197 | the right box starts `gap` pixels after the left box ends, reaches the canvas's right edge and has the canvas height |
| Composite.ComposeSideBySide | TrayControl/Form1.cs:176-203 | the composite is always exactly canvasW × canvasH on the given background |
| Composite.SplitWidthBounds | TrayControl/Form1.cs:187-189 | for gap ≥ 0 the left box is at most half the canvas and non-empty exactly for canvases ≥ 2 wide; when canvasW − gap ≥ 2, left box, gap and right box fit side by side and the right box is at least as wide as the left |
| Composite.ComposeWithMissing | TrayControl/Form1.cs:179-184 | both pictures missing: a blank canvas; one missing: the other, fitted into the whole canvas |
| Composite.ComposeBothInsideTheirBoxes | TrayControl/Form1.cs:186-202 | both present, gap ≥ 0: there is one layer per non-empty box. The first, if its box is non-empty, is the left picture inside [0, halfW). The next, if its box is non-empty, is the right picture inside [halfW + gap, canvasW). Each is non-empty and within the canvas height. This holds even when the two pictures are equal values |
| ListView.PreferredWidthIsWidest | TrayControl/Form1.cs:268-293 | a column's preferred width is ≥ 40, ≥ its header, ≥ each measured cell (column 0 with the image allowance), and equal to one of these |
| ListView.WidenLast | TrayControl/Form1.cs:303-311 | widening the last column by d widens the total by d |
| ListView.AutoSizeWidths | TrayControl/Form1.cs:261-312 | final widths are ≥ 40, ≥ header and ≥ every cell. When stretching applies and the total is short of the client width, the last column grows by exactly the shortfall and the total equals the client width; otherwise the preferred widths are kept |
| TrayForm.SelectedRowKeyCollected | TrayControl/Form1.cs:86-89 | the key of every selected row is in the collected set |
| TrayForm.CollectedKeyHasRow | TrayControl/Form1.cs:86-89 | every collected key belongs to some selected row, which the lemma returns |
| TrayForm.SelectedKeysExact | TrayControl/Form1.cs:86-89 | a key is collected exactly when some selected row carries it |
| TrayForm.RefreshedRows | TrayControl/Form1.cs:94-134 | after a refresh, row k shows record k with image index k, which holds its own composite. It has the three sub-items, and is selected exactly when a row with the same area and command id was selected before |
| TrayForm.FirstSelected | TrayControl/Form1.cs:167-172 | -1 exactly when no row is selected, otherwise the first selected row |
| TrayForm.Form1.GetSelected | TrayControl/Form1.cs:167-172 | None exactly when nothing is selected, otherwise the record of the first selected row |
| TrayForm.Form1.CollectSelectedKeys | TrayControl/Form1.cs:86-89 | the loop collects SelectedKeys of the current rows |
| TrayForm.Form1.AddRows | TrayControl/Form1.cs:102-129 | one composite image and one unselected row per record, in order; row k points at image k |
| TrayForm.Form1.RestoreSelection | TrayControl/Form1.cs:132-134 | each row becomes selected exactly when its key is among the saved keys; nothing else changes |
| TrayForm.Form1.HeaderWidths | TrayControl/Form1.cs:268-273 | a fresh array of max(40, header + padding) per column |
| TrayForm.Form1.MeasureRow | TrayControl/Form1.cs:281-292 | each column grows to the row's cell width when that is larger |
| TrayForm.Form1.MeasureColumns | TrayControl/Form1.cs:266-293 | the nested loops leave PreferredWidths in the array |
| TrayForm.Form1.ApplyWidths | TrayControl/Form1.cs:296-301 | each column gets its preferred width and the total is their sum |
| TrayForm.Form1.AutoSizeColumnsToContent | TrayControl/Form1.cs:261-312 | the columns keep their captions and take FinalWidths |
| TrayForm.Form1.LoadTrayItems | TrayControl/Form1.cs:83-142 | rows and images are rebuilt from a fresh enumeration at the image size, with the selection restored by key and the columns auto-sized; nothing native is held afterwards |
| TrayForm.Form1.ShowOrHideSelected | TrayControl/Form1.cs:149-165 | no selection: nothing changes and nothing is sent. Otherwise the selected record's button is shown or hidden. When that call returns true, the rows, pictures and column widths become those LoadTrayItems computes; otherwise they are unchanged |
| TrayForm.ActedOnRowStaysSelected | TrayControl/Form1.cs:132-134 | after the reload, a row of the button acted on (same area and command id) is selected again |

## Left out

- **Win32 and P/Invoke.** The native calls themselves (FindWindow,
  SendMessage, OpenProcess, Read/VirtualAllocEx, ClientToScreen,
  ImageList_GetIcon, GetIconInfo, GetObject, QueryFullProcessImageName,
  ExtractIconEx) are the `Shell` oracle. Their real behaviour lives in
  Windows.
- **Allocation outcomes.** The model assumes that whether `VirtualAllocEx`
  succeeds, and the address it returns, depend only on the buffer kind. The
  code does not imply this: the OS may answer differently for each button.
  The model does not capture allocations that fail for one button and
  succeed for another.
- **Marshalling.** The struct layouts (TBBUTTON padding, pointer width,
  `iString`) are not modelled. A button or RECT is whatever ends up in the
  local buffer.
- **The count cast.** `(int)` of the TB_BUTTONCOUNT reply is not modelled as
  truncation of a pointer-sized value.
- **Strings past the buffer.** `Marshal.PtrToStringUni` on a 512-character
  buffer with no NUL would read past the buffer. The model stops at the
  buffer's end.
- **Pixels.** GDI work is not rendered. A canvas records its size, its
  background and where each source is drawn; CopyFromScreen, interpolation
  modes and colours are not modelled.
- **Float error.** The scale is an exact real, so float32 rounding of the
  scale itself is not modelled.
- **Managed bitmaps.** The temporary bitmap of CaptureButtonIconFromScreen
  and GDI+ `Image` disposal are not tracked as resources. Only native
  handles are.
- **Icons.NativeSizeRules.** It does not model `Math.Abs(int.MinValue)`
  throwing OverflowException. The model returns the mathematical absolute
  value.
- **Display.FileName, Display.FileNameWithoutExtension.** They cut only at '\\' and '/'. The
  drive-relative root handling of `Path.GetFileName` (`C:name`) is not
  modelled, because image paths are full paths.
- **Display.IntToString.** It uses the invariant culture's '-' sign.
- ButtonText.ButtonTextIsPrefixBeforeNul: its 512 bound counts Dafny `char`s, which are Unicode scalar values. The source's buffer holds 512 UTF-16 code units. A character outside the Basic Multilingual Plane counts once here but twice in the source, and a lone surrogate, which the UTF-16 buffer may hold, cannot be represented.
- Icons.ButtonScreenRegion, Icons.GetButtonScreenRegion: integers are unbounded. The RECT width and height and the corner differences, computed in 32-bit `int` at TrayControl/TrayInterop.cs:361 and :370-371, would wrap in C# for extreme coordinates; the model does not wrap them.
- TrayForm.Form1.ApplyWidths, ListView.AutoSizeWidths: the running `total` and the widened last width at TrayControl/Form1.cs:296-309 are 32-bit `int`s in C# and would wrap; the model's sums are unbounded.
- **Preconditions on sizes.** The icon and canvas sizes are positive (`Pos`),
  since `new Bitmap(w, h)` throws otherwise. Exceptions are not modelled.
- **Ghost logs.** The list of messages sent (`Os.sent`) and the held
  resources are ghost. How the toolbar's answers change after TB_HIDEBUTTON
  is the parameter `Os.react`.
- **Form start-up.** SetupIconsList, Form1_Load, the constructor's event
  wiring, the double-buffering reflection and BeginUpdate/EndUpdate are
  widget plumbing. The image size and the columns are given to the form
  when it is constructed. The list view's client width is also fixed at
  construction (`Form1.clientWidth`), whereas the source reads
  `lv.ClientSize.Width` on every auto-size (TrayControl/Form1.cs:306), so a
  window resized between refreshes is not modelled.
- **TrayForm.Form1.LoadTrayItems** requires the list to have an image list. SetupIconsList always creates one before the first load; without one the source would dereference null.
- **RefreshBtn_Click** is `LoadTrayItems` itself.
- **Text measurement.** `TextRenderer.MeasureText` is the abstract
  `Form1.measure`.
- **Other files.** TrayControl/Form1.Designer.cs, the root Form1.cs,
  Program.cs and TrayControl/VersionAttribute.cs are not part of this model.
- **Features the code lacks.** Hidden-state queries, an include-hidden
  enumeration mode, persistence of hide rules and a reentrancy guard are
  not in the modelled code, so they are not modelled.
- **Concurrency.** There is none in the code. The shell's answers do not
  change during an enumeration.
