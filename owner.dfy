/**
 * Resolving a tray button's owner: the window handle stored at the start of
 * explorer's per-button data (TryGetOwnerHwndFromDwData), and that window's
 * process image path (GetProcessPath).
 */
module Owner {
  import opened Wrappers
  import opened Native

  /** TryGetOwnerHwndFromDwData: whether an owner window was found, and the word read (0 if none). */
  function OwnerWindowOf(shell: Shell, dwData: Handle): (bool, Handle)
  {
    if dwData == 0 then (false, 0)
    else match shell.dataWord(dwData)
      case None => (false, 0)
      case Some(hWnd) => (hWnd != 0 && shell.isWindow(hWnd), hWnd)
  }

  method TryGetOwnerHwndFromDwData(os: Os, hProc: Handle, dwData: Handle) returns (ok: bool, hWnd: Handle)
    modifies os`held
    ensures (ok, hWnd) == OwnerWindowOf(os.shell, dwData)
    ensures os.held == old(os.held)
  {
    hWnd := 0;
    if dwData == 0 {
      return false, hWnd;
    }
    os.AllocHGlobal(OwnerWords);
    var read := os.shell.dataWord(dwData);
    if read.None? {
      ok := false;
    } else {
      hWnd := read.value;
      ok := hWnd != 0 && os.shell.isWindow(hWnd);
    }
    os.FreeHGlobal(OwnerWords);
  }

  /** GetProcessPath: the full image name of process `pid`, or None when it cannot be opened or queried. */
  function ProcessPathOf(shell: Shell, pid: int): Option<string>
  {
    var h := shell.openProcess(PROCESS_QUERY_LIMITED_INFORMATION, pid);
    if h == 0 then None else shell.imageName(h)
  }

  method GetProcessPath(os: Os, pid: int) returns (path: Option<string>)
    modifies os`held
    ensures path == ProcessPathOf(os.shell, pid)
    ensures os.held == old(os.held)
  {
    var h := os.OpenProcess(PROCESS_QUERY_LIMITED_INFORMATION, pid);
    if h == 0 {
      return None;
    }
    path := os.shell.imageName(h);
    os.CloseHandle(h);
  }

  /** The owner's executable path for a button's dwData, as the enumerator resolves it. */
  function OwnerPathOf(shell: Shell, dwData: Handle): Option<string>
  {
    var (ok, owner) := OwnerWindowOf(shell, dwData);
    if ok && owner != 0 && shell.isWindow(owner) then ProcessPathOf(shell, shell.windowProcess(owner))
    else None
  }

  /**
   * An owner path exists only for a nonzero dwData whose first word is a live
   * window, and it is then that window's process's image name: a zero dwData,
   * an unreadable one, a zero word or a dead window all mean "no owner".
   * Conversely, a readable nonzero dwData whose first word is a live window
   * yields the image name of that window's process.
   */
  lemma OwnerNeedsLiveWindow(shell: Shell, dwData: Handle)
    ensures OwnerPathOf(shell, dwData).Some? ==>
      && dwData != 0 && shell.dataWord(dwData).Some?
      && var w := shell.dataWord(dwData).value;
         && w != 0 && shell.isWindow(w)
         && OwnerPathOf(shell, dwData) == ProcessPathOf(shell, shell.windowProcess(w))
    ensures dwData == 0 ==> OwnerPathOf(shell, dwData).None?
    ensures dwData != 0 && shell.dataWord(dwData).Some? ==>
      var w := shell.dataWord(dwData).value;
      w != 0 && shell.isWindow(w) ==> OwnerPathOf(shell, dwData) == ProcessPathOf(shell, shell.windowProcess(w))
  {
  }
}
