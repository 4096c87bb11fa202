/**
 * The operating system as seen by the tray interop code.
 *
 * Every Win32 call the interop code makes is answered by an abstract oracle,
 * `Shell`: one total function per kind of question, keyed by the arguments of
 * the call. The answers are unconstrained except for what this form fixes:
 * an allocation's outcome depends only on the buffer's kind, and the shell
 * stays the same except through `react` after a TB_HIDEBUTTON. The calls that hand out a
 * native resource (a process handle, a buffer in explorer's address space, a
 * local unmanaged buffer, an icon handle, a GDI bitmap) are methods of `Os`,
 * which keeps the resources currently held in the ghost multiset `held`; the
 * matching release calls may only release what is held.
 */
module Native {
  import opened Wrappers

  /** An `IntPtr`-sized native value (window handle, process handle, address); 0 is `IntPtr.Zero`. */
  type Handle = int

  // Toolbar messages (WM_USER + n).
  const TB_HIDEBUTTON: int := 0x0404
  const TB_BUTTONCOUNT: int := 0x0418
  const TB_GETBUTTONTEXTW: int := 0x044B
  const TB_GETIMAGELIST: int := 0x0431
  const TB_GETHOTIMAGELIST: int := 0x0435
  const TB_GETDISABLEDIMAGELIST: int := 0x0437

  // Button style and state bits.
  const TBSTYLE_SEP: bv8 := 0x01
  const TBSTATE_HIDDEN: bv8 := 0x08

  // Process access rights.
  const PROCESS_VM_READ: bv32 := 0x0010
  const PROCESS_VM_OPERATION: bv32 := 0x0008
  const PROCESS_QUERY_INFORMATION: bv32 := 0x0400
  const PROCESS_QUERY_LIMITED_INFORMATION: bv32 := 0x1000

  /** The rights the enumerator asks of explorer's process. */
  const ExplorerAccess: bv32 := PROCESS_QUERY_INFORMATION | PROCESS_VM_READ | PROCESS_VM_OPERATION

  /**
   * Characters in the text buffer handed to TB_GETBUTTONTEXTW. The source counts
   * UTF-16 code units; here each element is a Dafny `char`, a Unicode scalar value.
   */
  const MaxChars: nat := 512

  /** The local copy of that buffer. */
  type TextBuffer = b: seq<char> | |b| == MaxChars witness seq(MaxChars, _ => '\0')

  /** The fields of a TBBUTTON that the code reads; padding and `iString` are not modelled. */
  datatype TbButton = TbButton(iBitmap: int, idCommand: int, fsState: bv8, fsStyle: bv8, dwData: Handle)

  /** A native RECT (client coordinates of a toolbar button). */
  datatype Rect = Rect(left: int, top: int, right: int, bottom: int)
  {
    function Width(): int { right - left }
    function Height(): int { bottom - top }
  }

  datatype Point = Point(x: int, y: int)

  /** A window message: `SendMessage(hwnd, msg, wParam, lParam)`. */
  datatype Message = Message(hwnd: Handle, msg: int, wParam: int, lParam: int)

  /** The buffers the code allocates, each of one fixed size. */
  datatype BufferKind =
    | ButtonSlot   // one TBBUTTON
    | TextChars    // the MaxChars-character label buffer
    | RectBuffer   // one RECT
    | OwnerWords   // four pointer-sized words of explorer's per-button data

  /** The handles GetIconInfo hands out; 0 when absent. */
  datatype IconInfo = IconInfo(hbmColor: Handle, hbmMask: Handle)

  /** The dimensions GetObject reports for a bitmap. */
  datatype BitmapDims = BitmapDims(bmWidth: int, bmHeight: int)

  /** What `ExtractIconEx(path, 0, out large, out small, 1)` returns. */
  datatype ExtractedIcons = ExtractedIcons(count: int, large: Handle, small: Handle)

  /** The answers of the operating system and of explorer's toolbar windows. */
  datatype Shell = Shell(
    findWindow: string -> Handle,                  // FindWindow(className, null)
    findChild: (Handle, string) -> Handle,         // FindWindowEx(parent, 0, className, null)
    isWindow: Handle -> bool,                      // IsWindow
    windowProcess: Handle -> int,                  // GetWindowThreadProcessId
    openProcess: (bv32, int) -> Handle,            // OpenProcess(access, false, pid); 0 when refused
    virtualAlloc: BufferKind -> Handle,            // VirtualAllocEx in explorer; 0 on failure
    reply: Message -> int,                         // the return value of SendMessage
    buttonRead: (Handle, int) -> TbButton,         // TB_GETBUTTON (0x0417) for index i into the remote slot, read back unchecked
    textRead: (Handle, int) -> Option<TextBuffer>,  // after TB_GETBUTTONTEXTW(id): ReadProcessMemory of the text buffer
    rectRead: (Handle, int) -> Option<Rect>,       // after TB_GETRECT (0x0433) for index i: ReadProcessMemory of the RECT
    clientToScreen: (Handle, Point) -> Option<Point>, // ClientToScreen; None when it fails
    screenCopyOk: (Point, int, int) -> bool,       // Graphics.CopyFromScreen(origin, size) does not throw
    dataWord: Handle -> Option<Handle>,            // ReadProcessMemory at a dwData pointer: its first word
    imageListIcon: (Handle, int) -> Handle,        // ImageList_GetIcon(himl, i, ILD_NORMAL); 0 on failure
    iconInfo: Handle -> Option<IconInfo>,          // GetIconInfo; None when it fails
    bitmapDims: Handle -> Option<BitmapDims>,      // GetObject on a bitmap; None when it returns 0
    imageName: Handle -> Option<string>,           // QueryFullProcessImageName; None when it fails
    extractIcons: string -> ExtractedIcons         // ExtractIconEx
  )

  /** A native resource the interop code is responsible for releasing. */
  datatype Resource =
    | Process(h: Handle)          // from OpenProcess, released by CloseHandle
    | Remote(address: Handle)     // from VirtualAllocEx, released by VirtualFreeEx
    | Local(kind: BufferKind)     // from Marshal.AllocHGlobal, released by Marshal.FreeHGlobal
    | Icon(h: Handle)             // from ImageList_GetIcon or ExtractIconEx, released by DestroyIcon
    | Bitmap(h: Handle)           // from GetIconInfo, released by DeleteObject

  /** The icon handles an ExtractIconEx result hands to the caller. */
  function IconsOf(e: ExtractedIcons): multiset<Resource>
  {
    if e.count == 0 then multiset{} else
      (if e.large != 0 then multiset{Icon(e.large)} else multiset{})
      + (if e.small != 0 then multiset{Icon(e.small)} else multiset{})
  }

  /** The bitmaps a GetIconInfo result hands to the caller. */
  function BitmapsOf(ii: IconInfo): multiset<Resource>
  {
    (if ii.hbmColor != 0 then multiset{Bitmap(ii.hbmColor)} else multiset{})
      + (if ii.hbmMask != 0 then multiset{Bitmap(ii.hbmMask)} else multiset{})
  }

  /** Releasing a resource just acquired, ahead of others acquired with it, leaves the rest. */
  lemma ReleaseFirst(a: multiset<Resource>, x: Resource, b: multiset<Resource>)
    ensures a + (multiset{x} + b) - multiset{x} == a + b
  {
  }

  class Os {
    /** The answers the system gives now. */
    var shell: Shell
    /** How the answers change once a toolbar has received a TB_HIDEBUTTON message. */
    const react: (Shell, Message) -> Shell
    /** The native resources currently held by this program. */
    ghost var held: multiset<Resource>
    /** The toolbar-changing messages delivered so far, oldest first. */
    ghost var sent: seq<Message>

    constructor (shell: Shell, react: (Shell, Message) -> Shell)
      ensures this.shell == shell && this.react == react
      ensures held == multiset{} && sent == []
    {
      this.shell := shell;
      this.react := react;
      held := multiset{};
      sent := [];
    }

    method OpenProcess(access: bv32, pid: int) returns (h: Handle)
      modifies this`held
      ensures h == shell.openProcess(access, pid)
      ensures held == old(held) + (if h != 0 then multiset{Process(h)} else multiset{})
    {
      h := shell.openProcess(access, pid);
      if h != 0 {
        held := held + multiset{Process(h)};
      }
    }

    method CloseHandle(h: Handle)
      requires Process(h) in held
      modifies this`held
      ensures held == old(held) - multiset{Process(h)}
    {
      held := held - multiset{Process(h)};
    }

    method VirtualAllocEx(kind: BufferKind) returns (address: Handle)
      modifies this`held
      ensures address == shell.virtualAlloc(kind)
      ensures held == old(held) + (if address != 0 then multiset{Remote(address)} else multiset{})
    {
      address := shell.virtualAlloc(kind);
      if address != 0 {
        held := held + multiset{Remote(address)};
      }
    }

    method VirtualFreeEx(address: Handle)
      requires Remote(address) in held
      modifies this`held
      ensures held == old(held) - multiset{Remote(address)}
    {
      held := held - multiset{Remote(address)};
    }

    /** Marshal.AllocHGlobal never returns zero: it throws on exhaustion, which is not modelled. */
    method AllocHGlobal(kind: BufferKind)
      modifies this`held
      ensures held == old(held) + multiset{Local(kind)}
    {
      held := held + multiset{Local(kind)};
    }

    method FreeHGlobal(kind: BufferKind)
      requires Local(kind) in held
      modifies this`held
      ensures held == old(held) - multiset{Local(kind)}
    {
      held := held - multiset{Local(kind)};
    }

    method ImageListGetIcon(himl: Handle, index: int) returns (hIcon: Handle)
      modifies this`held
      ensures hIcon == shell.imageListIcon(himl, index)
      ensures held == old(held) + (if hIcon != 0 then multiset{Icon(hIcon)} else multiset{})
    {
      hIcon := shell.imageListIcon(himl, index);
      if hIcon != 0 {
        held := held + multiset{Icon(hIcon)};
      }
    }

    /** ExtractIconEx hands out icon handles only when it reports having extracted some. */
    method ExtractIconEx(path: string) returns (e: ExtractedIcons)
      modifies this`held
      ensures e == shell.extractIcons(path)
      ensures held == old(held) + IconsOf(e)
    {
      e := shell.extractIcons(path);
      held := held + IconsOf(e);
    }

    method DestroyIcon(hIcon: Handle)
      requires Icon(hIcon) in held
      modifies this`held
      ensures held == old(held) - multiset{Icon(hIcon)}
    {
      held := held - multiset{Icon(hIcon)};
    }

    /** GetIconInfo creates the colour and mask bitmaps, which the caller must delete. */
    method GetIconInfo(hIcon: Handle) returns (info: Option<IconInfo>)
      modifies this`held
      ensures info == shell.iconInfo(hIcon)
      ensures held == old(held) + (if info.Some? then BitmapsOf(info.value) else multiset{})
    {
      info := shell.iconInfo(hIcon);
      if info.Some? {
        held := held + BitmapsOf(info.value);
      }
    }

    method DeleteObject(h: Handle)
      requires Bitmap(h) in held
      modifies this`held
      ensures held == old(held) - multiset{Bitmap(h)}
    {
      held := held - multiset{Bitmap(h)};
    }

    /** Delivers a TB_HIDEBUTTON message: the toolbar answers, then its state changes as `react` says. */
    method SendHideButton(m: Message) returns (res: int)
      requires m.msg == TB_HIDEBUTTON
      modifies this`shell, this`sent
      ensures res == old(shell).reply(m)
      ensures shell == react(old(shell), m) && sent == old(sent) + [m]
    {
      res := shell.reply(m);
      shell := react(shell, m);
      sent := sent + [m];
    }
  }
}
