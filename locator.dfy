/**
 * Finding explorer's toolbar windows, picking a toolbar's image list, and
 * asking a toolbar to hide or show a button.
 */
module Locator {
  import opened Native

  datatype TrayArea = NotificationArea | OverflowArea

  /** The class names from the top-level tray window down to its toolbar. */
  const LiveTrayChain: seq<string> := ["Shell_TrayWnd", "TrayNotifyWnd", "SysPager", "ToolbarWindow32"]
  /** The class names from the overflow flyout down to its toolbar. */
  const OverflowChain: seq<string> := ["NotifyIconOverflowWindow", "ToolbarWindow32"]

  /**
   * Reference lookup: the top-level window of class `chain[0]`, then in turn
   * the first child of each following class; 0 as soon as a step finds nothing.
   */
  function Walk(shell: Shell, chain: seq<string>): Handle
  {
    if chain == [] then 0 else WalkFrom(shell, shell.findWindow(chain[0]), chain[1..])
  }

  function WalkFrom(shell: Shell, h: Handle, rest: seq<string>): Handle
    decreases |rest|
  {
    if h == 0 then 0
    else if rest == [] then h
    else WalkFrom(shell, shell.findChild(h, rest[0]), rest[1..])
  }

  /** One more class name at the end of a walk is one more child lookup, unless the walk already failed. */
  lemma {:induction false} WalkFromSnoc(shell: Shell, h: Handle, rest: seq<string>, c: string)
    ensures WalkFrom(shell, h, rest + [c])
         == (var x := WalkFrom(shell, h, rest); if x == 0 then 0 else shell.findChild(x, c))
    decreases |rest|
  {
    if h != 0 && rest != [] {
      assert (rest + [c])[0] == rest[0];
      assert (rest + [c])[1..] == rest[1..] + [c];
      WalkFromSnoc(shell, shell.findChild(h, rest[0]), rest[1..], c);
    }
  }

  lemma WalkSnoc(shell: Shell, chain: seq<string>, c: string)
    requires chain != []
    ensures Walk(shell, chain + [c])
         == (var x := Walk(shell, chain); if x == 0 then 0 else shell.findChild(x, c))
  {
    assert (chain + [c])[0] == chain[0];
    assert (chain + [c])[1..] == chain[1..] + [c];
    WalkFromSnoc(shell, shell.findWindow(chain[0]), chain[1..], c);
  }

  /** The lookup fails closed: once some step of the chain finds no window, the whole lookup yields 0. */
  lemma {:induction false} WalkFailsClosed(shell: Shell, chain: seq<string>, k: nat)
    requires 1 <= k <= |chain| && Walk(shell, chain[..k]) == 0
    ensures Walk(shell, chain) == 0
    decreases |chain| - k
  {
    if k < |chain| {
      assert chain[..k + 1] == chain[..k] + [chain[k]];
      WalkSnoc(shell, chain[..k], chain[k]);
      WalkFailsClosed(shell, chain, k + 1);
    } else {
      assert chain[..k] == chain;
    }
  }

  /** The walks along the two chains, one step at a time. */
  lemma ChainSteps(shell: Shell)
    ensures var tray := shell.findWindow("Shell_TrayWnd");
      Walk(shell, LiveTrayChain) == WalkFrom(shell, tray, ["TrayNotifyWnd", "SysPager", "ToolbarWindow32"])
    ensures forall h: Handle :: h != 0 ==>
      WalkFrom(shell, h, ["TrayNotifyWnd", "SysPager", "ToolbarWindow32"]) == WalkFrom(shell, shell.findChild(h, "TrayNotifyWnd"), ["SysPager", "ToolbarWindow32"])
    ensures forall h: Handle :: h != 0 ==>
      WalkFrom(shell, h, ["SysPager", "ToolbarWindow32"]) == WalkFrom(shell, shell.findChild(h, "SysPager"), ["ToolbarWindow32"])
    ensures forall h: Handle :: WalkFrom(shell, h, ["ToolbarWindow32"]) == (if h == 0 then 0 else shell.findChild(h, "ToolbarWindow32"))
  {
    assert LiveTrayChain[1..] == ["TrayNotifyWnd", "SysPager", "ToolbarWindow32"];
    assert ["TrayNotifyWnd", "SysPager", "ToolbarWindow32"][1..] == ["SysPager", "ToolbarWindow32"];
    assert ["SysPager", "ToolbarWindow32"][1..] == ["ToolbarWindow32"];
    assert ["ToolbarWindow32"][1..] == [];
  }

  /** GetLiveTrayToolbar: Shell_TrayWnd, TrayNotifyWnd, SysPager, ToolbarWindow32. */
  function GetLiveTrayToolbar(shell: Shell): (r: Handle)
    ensures r == Walk(shell, LiveTrayChain)
  {
    ChainSteps(shell);
    var tray := shell.findWindow("Shell_TrayWnd");
    if tray == 0 then 0
    else
      var notify := shell.findChild(tray, "TrayNotifyWnd");
      if notify == 0 then 0
      else
        var sysPager := shell.findChild(notify, "SysPager");
        if sysPager == 0 then 0
        else shell.findChild(sysPager, "ToolbarWindow32")
  }

  /** GetOverflowToolbar: NotifyIconOverflowWindow, ToolbarWindow32. */
  function GetOverflowToolbar(shell: Shell): (r: Handle)
    ensures r == Walk(shell, OverflowChain)
  {
    assert OverflowChain[1..] == ["ToolbarWindow32"];
    ChainSteps(shell);
    var overflowWin := shell.findWindow("NotifyIconOverflowWindow");
    if overflowWin == 0 then 0
    else shell.findChild(overflowWin, "ToolbarWindow32")
  }

  function ChainOf(area: TrayArea): seq<string>
  {
    if area == NotificationArea then LiveTrayChain else OverflowChain
  }

  function GetToolbar(shell: Shell, area: TrayArea): (r: Handle)
    ensures r == Walk(shell, ChainOf(area))
  {
    if area == NotificationArea then GetLiveTrayToolbar(shell) else GetOverflowToolbar(shell)
  }

  /** Whatever the area, a window missing anywhere on its chain means there is no toolbar. */
  lemma ToolbarFailsClosed(shell: Shell, area: TrayArea, k: nat)
    requires 1 <= k <= |ChainOf(area)| && Walk(shell, ChainOf(area)[..k]) == 0
    ensures GetToolbar(shell, area) == 0
  {
    WalkFailsClosed(shell, ChainOf(area), k);
  }

  /** A toolbar found is the ToolbarWindow32 child of a window the rest of the chain found. */
  lemma ToolbarFoundUnderChain(shell: Shell, area: TrayArea)
    requires GetToolbar(shell, area) != 0
    ensures var parent := Walk(shell, ChainOf(area)[..|ChainOf(area)| - 1]);
      parent != 0 && GetToolbar(shell, area) == shell.findChild(parent, "ToolbarWindow32")
  {
    var chain := ChainOf(area);
    assert chain == chain[..|chain| - 1] + ["ToolbarWindow32"];
    WalkSnoc(shell, chain[..|chain| - 1], "ToolbarWindow32");
  }

  /** The first nonzero handle of a list, or 0 when all are 0. */
  function FirstNonZero(hs: seq<Handle>): (r: Handle)
    ensures r == 0 <==> forall k :: 0 <= k < |hs| ==> hs[k] == 0
    ensures r != 0 ==> exists k :: 0 <= k < |hs| && hs[k] == r && forall j :: 0 <= j < k ==> hs[j] == 0
  {
    if hs == [] then 0
    else if hs[0] != 0 then hs[0]
    else
      var r := FirstNonZero(hs[1..]);
      assert forall k :: 1 <= k < |hs| ==> hs[k] == hs[1..][k - 1];
      assert r != 0 ==> exists k :: 1 <= k < |hs| && hs[k] == r && forall j :: 0 <= j < k ==> hs[j] == 0 by {
        if r != 0 {
          var k' :| 0 <= k' < |hs[1..]| && hs[1..][k'] == r && forall j :: 0 <= j < k' ==> hs[1..][j] == 0;
          assert hs[k' + 1] == r;
          assert forall j :: 0 <= j < k' + 1 ==> hs[j] == 0 by {
            forall j | 0 <= j < k' + 1 ensures hs[j] == 0 {
              if j > 0 { assert hs[j] == hs[1..][j - 1]; }
            }
          }
        }
      }
      r
  }

  /** GetToolbarImageList: the normal image list, else the hot one, else the disabled one. */
  function GetToolbarImageList(shell: Shell, toolbar: Handle): (himl: Handle)
    ensures himl == FirstNonZero([shell.reply(Message(toolbar, TB_GETIMAGELIST, 0, 0)),
                                  shell.reply(Message(toolbar, TB_GETHOTIMAGELIST, 0, 0)),
                                  shell.reply(Message(toolbar, TB_GETDISABLEDIMAGELIST, 0, 0))])
  {
    var normal := shell.reply(Message(toolbar, TB_GETIMAGELIST, 0, 0));
    var hot := shell.reply(Message(toolbar, TB_GETHOTIMAGELIST, 0, 0));
    var disabled := shell.reply(Message(toolbar, TB_GETDISABLEDIMAGELIST, 0, 0));
    assert [normal, hot, disabled][1..] == [hot, disabled];
    assert [hot, disabled][1..] == [disabled];
    assert [disabled][1..] == [];
    assert FirstNonZero([disabled]) == disabled;
    assert FirstNonZero([hot, disabled]) == if hot != 0 then hot else disabled;
    if normal != 0 then normal
    else if hot != 0 then hot
    else disabled
  }

  /** The TB_HIDEBUTTON message for a command id: lParam 1 hides, 0 shows. */
  function HideMessage(toolbar: Handle, idCommand: int, hidden: bool): Message
  {
    Message(toolbar, TB_HIDEBUTTON, idCommand, if hidden then 1 else 0)
  }

  /** What SetHidden reports, and the message it sends, if any. */
  datatype HideOutcome = HideOutcome(ok: bool, sent: Wrappers.Option<Message>)

  /** SetHidden: no toolbar, no message and false; otherwise true exactly when the toolbar's reply is nonzero. */
  function SetHidden(shell: Shell, toolbar: Handle, idCommand: int, hidden: bool): (r: HideOutcome)
    ensures toolbar == 0 ==> !r.ok && r.sent.None?
    ensures toolbar != 0 ==>
      && r.sent == Wrappers.Some(HideMessage(toolbar, idCommand, hidden))
      && (r.ok <==> shell.reply(HideMessage(toolbar, idCommand, hidden)) != 0)
  {
    if toolbar == 0 then HideOutcome(false, Wrappers.None)
    else
      var m := HideMessage(toolbar, idCommand, hidden);
      HideOutcome(shell.reply(m) != 0, Wrappers.Some(m))
  }

  /** Hiding and showing the same button send the same message but for lParam, to the area's toolbar. */
  lemma HideAndShowDifferOnlyInFlag(shell: Shell, idCommand: int, area: TrayArea)
    ensures var h := SetHidden(shell, GetToolbar(shell, area), idCommand, true);
            var s := SetHidden(shell, GetToolbar(shell, area), idCommand, false);
            && h.sent.Some? == s.sent.Some? == (Walk(shell, ChainOf(area)) != 0)
            && (h.sent.Some? ==>
                  && h.sent.value.(lParam := 0) == s.sent.value && h.sent.value.lParam == 1
                  && h.sent.value.hwnd == Walk(shell, ChainOf(area)))
  {
  }

  /**
   * HideIcon / ShowIcon: find the area's toolbar afresh and, if there is one,
   * deliver the TB_HIDEBUTTON message.
   */
  method HideOrShowIcon(os: Os, idCommand: int, area: TrayArea, hidden: bool) returns (ok: bool)
    modifies os`shell, os`sent
    ensures var r := SetHidden(old(os.shell), GetToolbar(old(os.shell), area), idCommand, hidden);
      && ok == r.ok
      && (r.sent.None? ==> os.shell == old(os.shell) && os.sent == old(os.sent))
      && (r.sent.Some? ==> os.shell == os.react(old(os.shell), r.sent.value) && os.sent == old(os.sent) + [r.sent.value])
  {
    var toolbar := GetToolbar(os.shell, area);
    if toolbar == 0 {
      return false;
    }
    var res := os.SendHideButton(HideMessage(toolbar, idCommand, hidden));
    ok := res != 0;
  }
}
