/**
 * Enumerating the buttons of explorer's tray toolbars: ForEachButton and
 * ListTrayIcons. A button that is a separator or hidden is skipped; every
 * other button becomes one TrayIconInfo record, in toolbar order, notification
 * area first.
 */
module Enumeration {
  import opened Wrappers
  import opened Native
  import opened Geometry
  import opened Locator
  import opened ButtonText
  import opened Owner
  import opened Icons

  /** One tray icon as the enumerator reports it. */
  datatype TrayIconInfo = TrayIconInfo(
    area: TrayArea,
    idCommand: int,
    text: string,
    appIcon: Option<Image>,    // the owner executable's icon
    trayIcon: Option<Image>,   // the button as drawn on screen, or its image-list icon
    appPath: Option<string>    // the owner executable's path, when resolved
  )

  /** The list ForEachButton appends to. */
  class TrayIconList {
    var items: seq<TrayIconInfo>

    constructor ()
      ensures items == []
    {
      items := [];
    }

    method Add(info: TrayIconInfo)
      modifies this
      ensures items == old(items) + [info]
    {
      items := items + [info];
    }
  }

  /** A button is reported unless its style marks a separator or its state marks it hidden. */
  predicate IsListed(b: TbButton)
  {
    b.fsStyle & TBSTYLE_SEP != TBSTYLE_SEP && b.fsState & TBSTATE_HIDDEN != TBSTATE_HIDDEN
  }

  /** The application path and icon of a button, when its owner resolves to a non-empty path. */
  function AppIconOf(shell: Shell, appPath: Option<string>, iconW: Pos, iconH: Pos): Option<Image>
  {
    if appPath.Some? && appPath.value != "" then ExeIconOf(shell, appPath.value, iconW, iconH) else None
  }

  /** The tray picture of button `i`: the screen capture, or else the image-list icon. */
  function TrayPictureOf(shell: Shell, toolbar: Handle, i: int, b: TbButton, iconW: Pos, iconH: Pos): Option<Image>
  {
    var capture := CaptureOf(shell, toolbar, i, iconW, iconH, White);
    if capture.Some? then capture
    else ButtonIconOf(shell, GetToolbarImageList(shell, toolbar), b.iBitmap, iconW, iconH)
  }

  /** The record ForEachButton adds for the listed button at index `i`. */
  function ButtonRecord(shell: Shell, toolbar: Handle, area: TrayArea, i: int, iconW: Pos, iconH: Pos): TrayIconInfo
  {
    var b := shell.buttonRead(toolbar, i);
    var appPath := OwnerPathOf(shell, b.dwData);
    TrayIconInfo(area, b.idCommand, ButtonTextOf(shell, toolbar, b.idCommand),
                 AppIconOf(shell, appPath, iconW, iconH), TrayPictureOf(shell, toolbar, i, b, iconW, iconH), appPath)
  }

  /** What button `i` contributes: its record if it is listed, nothing otherwise. */
  function Contribution(shell: Shell, toolbar: Handle, area: TrayArea, i: int, iconW: Pos, iconH: Pos): seq<TrayIconInfo>
  {
    if IsListed(shell.buttonRead(toolbar, i)) then [ButtonRecord(shell, toolbar, area, i, iconW, iconH)] else []
  }

  /** The records of the listed buttons among indices 0 .. n-1, in index order. */
  function Records(shell: Shell, toolbar: Handle, area: TrayArea, n: nat, iconW: Pos, iconH: Pos): seq<TrayIconInfo>
  {
    if n == 0 then []
    else Records(shell, toolbar, area, n - 1, iconW, iconH) + Contribution(shell, toolbar, area, n - 1, iconW, iconH)
  }

  /** The indices among 0 .. n-1 of the buttons that are listed, in order. */
  function ListedIndices(shell: Shell, toolbar: Handle, n: nat): seq<nat>
  {
    if n == 0 then []
    else ListedIndices(shell, toolbar, n - 1) + (if IsListed(shell.buttonRead(toolbar, n - 1)) then [n - 1] else [])
  }

  /** ListedIndices holds exactly the listed indices below n, strictly increasing. */
  lemma {:induction false} ListedIndicesExact(shell: Shell, toolbar: Handle, n: nat)
    ensures forall i: nat :: i in ListedIndices(shell, toolbar, n) <==> i < n && IsListed(shell.buttonRead(toolbar, i))
    ensures forall j, k :: 0 <= j < k < |ListedIndices(shell, toolbar, n)| ==>
      ListedIndices(shell, toolbar, n)[j] < ListedIndices(shell, toolbar, n)[k]
  {
    if n > 0 {
      ListedIndicesExact(shell, toolbar, n - 1);
      var prev := ListedIndices(shell, toolbar, n - 1);
      var last: seq<nat> := if IsListed(shell.buttonRead(toolbar, n - 1)) then [n - 1] else [];
      assert ListedIndices(shell, toolbar, n) == prev + last;
      forall i: nat ensures i in prev + last <==> i < n && IsListed(shell.buttonRead(toolbar, i)) {
        assert i in prev + last <==> i in prev || i in last;
      }
      forall j, k | 0 <= j < k < |prev + last| ensures (prev + last)[j] < (prev + last)[k] {
        if k >= |prev| {
          assert (prev + last)[k] == n - 1;
          assert (prev + last)[j] in prev;
        }
      }
    }
  }

  /** The k-th record describes the k-th listed button, and there is one record per listed button. */
  lemma {:induction false} RecordsFollowListed(shell: Shell, toolbar: Handle, area: TrayArea, n: nat, iconW: Pos, iconH: Pos)
    ensures var rs := Records(shell, toolbar, area, n, iconW, iconH);
      var ix := ListedIndices(shell, toolbar, n);
      && |rs| == |ix|
      && forall k :: 0 <= k < |rs| ==> rs[k] == ButtonRecord(shell, toolbar, area, ix[k], iconW, iconH)
  {
    if n > 0 {
      RecordsFollowListed(shell, toolbar, area, n - 1, iconW, iconH);
    }
  }

  /** Each record carries the area it was enumerated from and the idCommand and text of its button. */
  lemma RecordsDescribeButtons(shell: Shell, toolbar: Handle, area: TrayArea, n: nat, iconW: Pos, iconH: Pos)
    ensures var rs := Records(shell, toolbar, area, n, iconW, iconH);
      var ix := ListedIndices(shell, toolbar, n);
      && |rs| == |ix|
      && forall k :: 0 <= k < |rs| ==>
        && rs[k].area == area
        && ix[k] < n && IsListed(shell.buttonRead(toolbar, ix[k]))
        && rs[k].idCommand == shell.buttonRead(toolbar, ix[k]).idCommand
        && rs[k].text == ButtonTextOf(shell, toolbar, rs[k].idCommand)
  {
    RecordsFollowListed(shell, toolbar, area, n, iconW, iconH);
    ListedIndicesExact(shell, toolbar, n);
    var ix := ListedIndices(shell, toolbar, n);
    forall k | 0 <= k < |ix|
      ensures ix[k] < n && IsListed(shell.buttonRead(toolbar, ix[k]))
    {
      assert ix[k] in ix;
    }
  }

  /** What ForEachButton appends for a toolbar. */
  function Enumerate(shell: Shell, toolbar: Handle, area: TrayArea, iconW: Pos, iconH: Pos): seq<TrayIconInfo>
  {
    if toolbar == 0 then []
    else if shell.openProcess(ExplorerAccess, shell.windowProcess(toolbar)) == 0 then []
    else ButtonsOfOpenToolbar(shell, toolbar, area, iconW, iconH)
  }

  /** What ForEachButton appends once explorer's process is open. */
  function ButtonsOfOpenToolbar(shell: Shell, toolbar: Handle, area: TrayArea, iconW: Pos, iconH: Pos): seq<TrayIconInfo>
  {
    var count := shell.reply(Message(toolbar, TB_BUTTONCOUNT, 0, 0));
    if count <= 0 || shell.virtualAlloc(ButtonSlot) == 0 then []
    else Records(shell, toolbar, area, count, iconW, iconH)
  }

  /**
   * Enumerate reports nothing when there is no toolbar, explorer's process
   * cannot be opened, the toolbar reports no buttons or the remote button slot
   * cannot be allocated; otherwise it reports, in increasing index order,
   * exactly the buttons below the count that are neither separators nor hidden.
   */
  lemma EnumerateListsVisibleButtons(shell: Shell, toolbar: Handle, area: TrayArea, iconW: Pos, iconH: Pos)
    ensures var rs := Enumerate(shell, toolbar, area, iconW, iconH);
      var count := shell.reply(Message(toolbar, TB_BUTTONCOUNT, 0, 0));
      if toolbar == 0 || shell.openProcess(ExplorerAccess, shell.windowProcess(toolbar)) == 0
         || count <= 0 || shell.virtualAlloc(ButtonSlot) == 0
      then rs == []
      else
        var ix := ListedIndices(shell, toolbar, count);
        && |rs| == |ix|
        && (forall k :: 0 <= k < |rs| ==> rs[k] == ButtonRecord(shell, toolbar, area, ix[k], iconW, iconH))
        && (forall i: nat :: i in ix <==> i < count && IsListed(shell.buttonRead(toolbar, i)))
        && (forall j, k :: 0 <= j < k < |ix| ==> ix[j] < ix[k])
  {
    var count := shell.reply(Message(toolbar, TB_BUTTONCOUNT, 0, 0));
    if count > 0 {
      RecordsFollowListed(shell, toolbar, area, count, iconW, iconH);
      ListedIndicesExact(shell, toolbar, count);
    }
  }

  /**
   * A record's application icon exists exactly for a resolved, non-empty owner
   * path, which needs a nonzero dwData, and is then that executable's icon; its
   * tray picture is the screen capture when there is one, and otherwise the
   * image-list icon, which needs a nonzero image list and a non-negative index.
   */
  lemma ButtonRecordFallbacks(shell: Shell, toolbar: Handle, area: TrayArea, i: int, iconW: Pos, iconH: Pos)
    ensures var r := ButtonRecord(shell, toolbar, area, i, iconW, iconH);
      var b := shell.buttonRead(toolbar, i);
      var capture := CaptureOf(shell, toolbar, i, iconW, iconH, White);
      && (r.appIcon.Some? ==> r.appPath.Some? && r.appPath.value != "" && b.dwData != 0)
      && (r.appPath.Some? ==> b.dwData != 0)
      && (capture.Some? ==> r.trayIcon == capture)
      && (capture.None? && r.trayIcon.Some? ==> GetToolbarImageList(shell, toolbar) != 0 && b.iBitmap >= 0)
      && (capture.None? ==> r.trayIcon == ButtonIconOf(shell, GetToolbarImageList(shell, toolbar), b.iBitmap, iconW, iconH))
      && (r.appPath.Some? && r.appPath.value != "" ==> r.appIcon == ExeIconOf(shell, r.appPath.value, iconW, iconH))
  {
    OwnerNeedsLiveWindow(shell, shell.buttonRead(toolbar, i).dwData);
  }

  /** The executable path and icon of a button's owner, as ForEachButton resolves them. */
  method ResolveApp(os: Os, hProc: Handle, dwData: Handle, iconW: Pos, iconH: Pos)
    returns (appPath: Option<string>, appIcon: Option<Image>)
    modifies os`held
    ensures appPath == OwnerPathOf(os.shell, dwData)
    ensures appIcon == AppIconOf(os.shell, appPath, iconW, iconH)
    ensures os.held == old(os.held)
  {
    appPath := None;
    appIcon := None;
    var found, owner := TryGetOwnerHwndFromDwData(os, hProc, dwData);
    if found && owner != 0 && os.shell.isWindow(owner) {
      var ownerPid := os.shell.windowProcess(owner);
      appPath := GetProcessPath(os, ownerPid);
      if appPath.Some? && appPath.value != "" {
        appIcon := GetExeIconCanvas(os, appPath.value, iconW, iconH);
      }
    }
  }

  /** The body of ForEachButton's loop for a listed button. */
  method DescribeButton(os: Os, toolbar: Handle, hProc: Handle, area: TrayArea, i: int, b: TbButton,
                        iconW: Pos, iconH: Pos) returns (info: TrayIconInfo)
    requires b == os.shell.buttonRead(toolbar, i)
    modifies os`held
    ensures info == ButtonRecord(os.shell, toolbar, area, i, iconW, iconH)
    ensures os.held == old(os.held)
  {
    var text := GetButtonTextCrossProc(os, toolbar, b.idCommand, hProc);
    var appPath, appIcon := ResolveApp(os, hProc, b.dwData, iconW, iconH);
    var trayBmp := CaptureButtonIconFromScreen(os, toolbar, hProc, i, iconW, iconH, White);
    if trayBmp == None {
      var himl := GetToolbarImageList(os.shell, toolbar);
      trayBmp := GetButtonIcon(os, himl, b.iBitmap, iconW, iconH);
    }
    info := TrayIconInfo(area, b.idCommand, text, appIcon, trayBmp, appPath);
  }

  /** One iteration of ForEachButton's loop: read button `i` through a local buffer, add its record if listed. */
  method ReadButton(os: Os, toolbar: Handle, hProc: Handle, area: TrayArea, i: nat,
                    results: TrayIconList, iconW: Pos, iconH: Pos)
    modifies os`held, results
    ensures results.items == old(results.items) + Contribution(os.shell, toolbar, area, i, iconW, iconH)
    ensures os.held == old(os.held)
  {
    os.AllocHGlobal(ButtonSlot);
    var btn := os.shell.buttonRead(toolbar, i);
    if IsListed(btn) {
      var info := DescribeButton(os, toolbar, hProc, area, i, btn, iconW, iconH);
      results.Add(info);
    }
    os.FreeHGlobal(ButtonSlot);
  }

  /** The loop of ForEachButton: one local TBBUTTON buffer per index, freed before the next. */
  method ReadButtons(os: Os, toolbar: Handle, hProc: Handle, area: TrayArea, count: nat,
                     results: TrayIconList, iconW: Pos, iconH: Pos)
    modifies os`held, results
    ensures results.items == old(results.items) + Records(os.shell, toolbar, area, count, iconW, iconH)
    ensures os.held == old(os.held)
  {
    ghost var shell := os.shell;
    ghost var held0 := os.held;
    ghost var items0 := results.items;
    for i := 0 to count
      invariant results.items == items0 + Records(shell, toolbar, area, i, iconW, iconH)
      invariant os.held == held0 && os.shell == shell
    {
      ReadButton(os, toolbar, hProc, area, i, results, iconW, iconH);
    }
  }

  /** The part of ForEachButton inside its outer try: the count, the remote slot and the loop. */
  method ReadOpenToolbar(os: Os, toolbar: Handle, hProc: Handle, area: TrayArea,
                         results: TrayIconList, iconW: Pos, iconH: Pos)
    modifies os`held, results
    ensures results.items == old(results.items) + ButtonsOfOpenToolbar(os.shell, toolbar, area, iconW, iconH)
    ensures os.held == old(os.held)
  {
    var count := os.shell.reply(Message(toolbar, TB_BUTTONCOUNT, 0, 0));
    if count <= 0 {
      return;
    }
    var remoteBtn := os.VirtualAllocEx(ButtonSlot);
    if remoteBtn == 0 {
      return;
    }
    ReadButtons(os, toolbar, hProc, area, count, results, iconW, iconH);
    os.VirtualFreeEx(remoteBtn);
  }

  /**
   * ForEachButton: appends to `results` the records of `toolbar` and releases
   * explorer's process handle, the remote button slot and every local buffer.
   */
  method ForEachButton(os: Os, toolbar: Handle, area: TrayArea, results: TrayIconList, iconW: Pos, iconH: Pos)
    modifies os`held, results
    ensures results.items == old(results.items) + Enumerate(os.shell, toolbar, area, iconW, iconH)
    ensures os.held == old(os.held)
  {
    if toolbar == 0 {
      return;
    }
    var pidExplorer := os.shell.windowProcess(toolbar);
    var hProc := os.OpenProcess(ExplorerAccess, pidExplorer);
    if hProc == 0 {
      return;
    }
    ReadOpenToolbar(os, toolbar, hProc, area, results, iconW, iconH);
    os.CloseHandle(hProc);
  }

  /** ListTrayIcons: the notification area's icons, then the overflow area's. */
  function TrayIcons(shell: Shell, iconW: Pos, iconH: Pos): seq<TrayIconInfo>
  {
    var live := GetLiveTrayToolbar(shell);
    var overflow := GetOverflowToolbar(shell);
    (if live != 0 then Enumerate(shell, live, NotificationArea, iconW, iconH) else [])
    + (if overflow != 0 then Enumerate(shell, overflow, OverflowArea, iconW, iconH) else [])
  }

  /** Every record of Enumerate carries the area it was asked for. */
  lemma EnumerateKeepsArea(shell: Shell, toolbar: Handle, area: TrayArea, iconW: Pos, iconH: Pos)
    ensures forall r :: r in Enumerate(shell, toolbar, area, iconW, iconH) ==> r.area == area
  {
    var rs := Enumerate(shell, toolbar, area, iconW, iconH);
    if rs != [] {
      var count := shell.reply(Message(toolbar, TB_BUTTONCOUNT, 0, 0));
      RecordsDescribeButtons(shell, toolbar, area, count, iconW, iconH);
      assert rs == Records(shell, toolbar, area, count, iconW, iconH);
      forall r | r in rs ensures r.area == area {
        var k :| 0 <= k < |rs| && rs[k] == r;
      }
    }
  }

  /**
   * The list holds the notification area's records followed by the overflow
   * area's: no overflow record comes before a notification-area record.
   */
  lemma TrayIconsNotificationFirst(shell: Shell, iconW: Pos, iconH: Pos)
    ensures var rs := TrayIcons(shell, iconW, iconH);
      forall j, k :: 0 <= j < k < |rs| ==> !(rs[j].area == OverflowArea && rs[k].area == NotificationArea)
    ensures GetLiveTrayToolbar(shell) == 0 ==> forall r :: r in TrayIcons(shell, iconW, iconH) ==> r.area == OverflowArea
    ensures GetOverflowToolbar(shell) == 0 ==> forall r :: r in TrayIcons(shell, iconW, iconH) ==> r.area == NotificationArea
  {
    var live := GetLiveTrayToolbar(shell);
    var overflow := GetOverflowToolbar(shell);
    var a := if live != 0 then Enumerate(shell, live, NotificationArea, iconW, iconH) else [];
    var b := if overflow != 0 then Enumerate(shell, overflow, OverflowArea, iconW, iconH) else [];
    EnumerateKeepsArea(shell, live, NotificationArea, iconW, iconH);
    EnumerateKeepsArea(shell, overflow, OverflowArea, iconW, iconH);
    var rs := a + b;
    assert rs == TrayIcons(shell, iconW, iconH);
    forall j, k | 0 <= j < k < |rs|
      ensures !(rs[j].area == OverflowArea && rs[k].area == NotificationArea)
    {
      if j < |a| {
        assert rs[j] in a;
      } else {
        assert rs[j] in b && rs[k] in b;
      }
    }
    forall r | r in rs ensures r in a || r in b {}
  }

  method ListTrayIcons(os: Os, iconW: Pos, iconH: Pos) returns (list: TrayIconList)
    modifies os`held
    ensures fresh(list)
    ensures list.items == TrayIcons(os.shell, iconW, iconH)
    ensures os.held == old(os.held)
  {
    list := new TrayIconList();
    var live := GetLiveTrayToolbar(os.shell);
    var overflow := GetOverflowToolbar(os.shell);
    ghost var first := if live != 0 then Enumerate(os.shell, live, NotificationArea, iconW, iconH) else [];
    ghost var second := if overflow != 0 then Enumerate(os.shell, overflow, OverflowArea, iconW, iconH) else [];
    if live != 0 {
      ForEachButton(os, live, NotificationArea, list, iconW, iconH);
    }
    assert list.items == first;
    if overflow != 0 {
      ForEachButton(os, overflow, OverflowArea, list, iconW, iconH);
    }
    assert list.items == first + second;
  }
}
