/**
 * The strings the list shows for a tray icon: the selection key
 * "<area ordinal>:<idCommand>", the display name and the three sub-items.
 */
module Display {
  import opened Locator
  import opened Enumeration

  /** The decimal digit for 0 .. 9. */
  function Digit(d: int): char
    requires 0 <= d < 10
  {
    "0123456789"[d]
  }

  predicate IsDigit(c: char)
  {
    '0' <= c <= '9'
  }

  /** `n.ToString()` for a non-negative integer: its decimal digits, without leading zeros. */
  function NatToString(n: nat): (s: string)
    ensures |s| >= 1 && forall i :: 0 <= i < |s| ==> IsDigit(s[i])
    ensures n >= 10 ==> |s| >= 2
  {
    if n < 10 then [Digit(n)] else NatToString(n / 10) + [Digit(n % 10)]
  }

  /** `n.ToString()` for an int, with the invariant culture's minus sign. */
  function IntToString(n: int): (s: string)
    ensures |s| >= 1 && (s[0] == '-' <==> n < 0)
    ensures forall i :: 1 <= i < |s| ==> IsDigit(s[i])
  {
    if n < 0 then "-" + NatToString(-n) else NatToString(n)
  }

  lemma DigitInjective(a: int, b: int)
    requires 0 <= a < 10 && 0 <= b < 10 && Digit(a) == Digit(b)
    ensures a == b
  {
  }

  /** Different numbers have different decimal forms. */
  lemma {:induction false} NatToStringInjective(a: nat, b: nat)
    requires NatToString(a) == NatToString(b)
    ensures a == b
  {
    var s := NatToString(a);
    if a < 10 && b < 10 {
      DigitInjective(a, b);
    } else if a >= 10 && b >= 10 {
      assert s == NatToString(a / 10) + [Digit(a % 10)];
      assert s == NatToString(b / 10) + [Digit(b % 10)];
      assert s[..|s| - 1] == NatToString(a / 10) && s[..|s| - 1] == NatToString(b / 10);
      NatToStringInjective(a / 10, b / 10);
      DigitInjective(a % 10, b % 10);
    }
  }

  lemma IntToStringInjective(a: int, b: int)
    requires IntToString(a) == IntToString(b)
    ensures a == b
  {
    var s := IntToString(a);
    if a < 0 {
      assert s[1..] == NatToString(-a) && s[1..] == NatToString(-b);
      NatToStringInjective(-a, -b);
    } else {
      NatToStringInjective(a, b);
    }
  }

  /** The ordinal of an area, as `(int)info.Area` gives it. */
  function AreaOrdinal(area: TrayArea): nat
  {
    match area
    case NotificationArea => 0
    case OverflowArea => 1
  }

  /** Key: the area ordinal and the command id, separated by a colon. */
  function Key(info: TrayIconInfo): (k: string)
    ensures |k| >= 3 && IsDigit(k[0]) && k[1] == ':'
    ensures ':' !in k[2..]
  {
    NatToString(AreaOrdinal(info.area)) + ":" + IntToString(info.idCommand)
  }

  /** Two records have the same key exactly when they have the same area and the same command id. */
  lemma KeyIdentifiesButton(a: TrayIconInfo, b: TrayIconInfo)
    ensures Key(a) == Key(b) <==> a.area == b.area && a.idCommand == b.idCommand
  {
    if Key(a) == Key(b) {
      var k := Key(a);
      assert NatToString(AreaOrdinal(a.area)) == [Digit(AreaOrdinal(a.area))];
      assert NatToString(AreaOrdinal(b.area)) == [Digit(AreaOrdinal(b.area))];
      assert k[0] == Digit(AreaOrdinal(a.area)) && k[0] == Digit(AreaOrdinal(b.area));
      assert k[2..] == IntToString(a.idCommand) && k[2..] == IntToString(b.idCommand);
      IntToStringInjective(a.idCommand, b.idCommand);
    }
  }

  predicate IsSeparator(c: char)
  {
    c == '\\' || c == '/'
  }

  /** The index of the last directory separator in `path`, or -1 when there is none. */
  function LastSeparator(path: string): (i: int)
    ensures -1 <= i < |path|
    ensures i >= 0 ==> IsSeparator(path[i])
    ensures forall j :: i < j < |path| ==> !IsSeparator(path[j])
  {
    if |path| == 0 then -1
    else if IsSeparator(path[|path| - 1]) then |path| - 1
    else LastSeparator(path[..|path| - 1])
  }

  /** The index of the last '.' in `name`, or -1 when there is none. */
  function LastDot(name: string): (i: int)
    ensures -1 <= i < |name|
    ensures i >= 0 ==> name[i] == '.'
    ensures forall j :: i < j < |name| ==> name[j] != '.'
  {
    if |name| == 0 then -1
    else if name[|name| - 1] == '.' then |name| - 1
    else LastDot(name[..|name| - 1])
  }

  /** Path.GetFileName: what follows the last directory separator. */
  function FileName(path: string): (f: string)
    ensures |f| <= |path| && f == path[|path| - |f|..]
    ensures forall c :: c in f ==> !IsSeparator(c)
    ensures |f| == |path| || IsSeparator(path[|path| - |f| - 1])
  {
    path[LastSeparator(path) + 1..]
  }

  /** Path.GetFileNameWithoutExtension: the file name cut before its last '.'. */
  function FileNameWithoutExtension(path: string): (r: string)
    ensures r <= FileName(path)
    ensures forall c :: c in r ==> !IsSeparator(c)
    ensures '.' !in FileName(path) ==> r == FileName(path)
    ensures '.' in FileName(path) ==>
      |r| < |FileName(path)| && FileName(path)[|r|] == '.' && '.' !in FileName(path)[|r| + 1..]
  {
    var name := FileName(path);
    var dot := LastDot(name);
    if dot < 0 then name else name[..dot]
  }

  /** The file name of `dir\rest` is `rest` when `rest` holds no separator. */
  lemma FileNameAfterLastSeparator(dir: string, rest: string)
    requires forall c :: c in rest ==> !IsSeparator(c)
    ensures FileName(dir + "\\" + rest) == rest
  {
    var path := dir + "\\" + rest;
    var sep := |dir|;
    assert path[sep] == '\\';
    assert forall j :: sep < j < |path| ==> path[j] == rest[j - sep - 1];
    assert LastSeparator(path) == sep;
    assert path[sep + 1..] == rest;
  }

  /** The last dot of `name.ext` is the one before `ext` when `ext` holds no dot. */
  lemma LastDotBeforeExtension(name: string, ext: string)
    requires forall c :: c in ext ==> c != '.'
    ensures LastDot(name + "." + ext) == |name|
  {
    var fn := name + "." + ext;
    assert fn[|name|] == '.';
    forall j | |name| < j < |fn|
      ensures fn[j] != '.'
    {
      assert fn[j] == ext[j - |name| - 1] && ext[j - |name| - 1] in ext;
    }
  }

  /**
   * For a path `dir\name.ext` whose extension has neither a dot nor a
   * separator, and whose name has no separator, the result is `name`.
   */
  lemma FileNameWithoutExtensionOf(dir: string, name: string, ext: string)
    requires forall c :: c in name ==> !IsSeparator(c)
    requires forall c :: c in ext ==> !IsSeparator(c) && c != '.'
    ensures FileNameWithoutExtension(dir + "\\" + name + "." + ext) == name
  {
    var fn := name + "." + ext;
    assert dir + "\\" + name + "." + ext == dir + "\\" + fn;
    FileNameAfterLastSeparator(dir, fn);
    LastDotBeforeExtension(name, ext);
    assert fn[..|name|] == name;
  }

  /** The item's text: the program's file stem, else the tray text, else "(unknown)". */
  function DisplayName(info: TrayIconInfo): (d: string)
    ensures d == "" ==> info.appPath.Some? && info.appPath.value != ""
  {
    if info.appPath.Some? && info.appPath.value != "" then FileNameWithoutExtension(info.appPath.value)
    else if info.text != "" then info.text
    else "(unknown)"
  }

  /** The sub-items of a row: display name, tray text, executable path or "". */
  function SubItems(info: TrayIconInfo): seq<string>
  {
    [DisplayName(info), info.text, if info.appPath.Some? then info.appPath.value else ""]
  }

  /** Which of the three sources the display name comes from. */
  lemma DisplayNameChoice(info: TrayIconInfo)
    ensures |SubItems(info)| == 3 && SubItems(info)[0] == DisplayName(info)
    ensures SubItems(info)[1] == info.text
    ensures SubItems(info)[2] == (if info.appPath.Some? then info.appPath.value else "")
    ensures info.appPath.Some? && info.appPath.value != "" ==>
      DisplayName(info) == FileNameWithoutExtension(info.appPath.value)
    ensures (info.appPath.None? || info.appPath.value == "") ==>
      DisplayName(info) == (if info.text != "" then info.text else "(unknown)")
  {
  }
}
