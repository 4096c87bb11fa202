/**
 * GetButtonTextCrossProc: a button's label, fetched with TB_GETBUTTONTEXTW
 * into a MaxChars-character buffer allocated in explorer and read back.
 */
module ButtonText {
  import opened Wrappers
  import opened Native

  /**
   * Marshal.PtrToStringUni on the local copy: the characters before the first
   * NUL, or the whole buffer when it holds none (reading past the end of the
   * buffer is not modelled).
   */
  function UntilNul(buf: seq<char>): (s: string)
    ensures s <= buf && '\0' !in s
    ensures |s| < |buf| ==> buf[|s|] == '\0'
  {
    if buf == [] || buf[0] == '\0' then [] else [buf[0]] + UntilNul(buf[1..])
  }

  /** String.IndexOf(c): the first position of `c`, or -1. */
  function IndexOf(s: string, c: char): (z: int)
    ensures -1 <= z < |s|
    ensures z == -1 <==> c !in s
    ensures z >= 0 ==> s[z] == c && c !in s[..z]
  {
    if s == [] then -1
    else if s[0] == c then 0
    else
      var z := IndexOf(s[1..], c);
      assert s[1..] == s[1..|s|];
      if z == -1 then -1
      else
        assert s[..z + 1] == [s[0]] + s[1..][..z];
        z + 1
  }

  /** `z >= 0 ? s.Substring(0, z) : s` with `z = s.IndexOf('\0')`: the part of `s` before its first NUL. */
  function CutAtNul(s: string): (r: string)
    ensures r <= s && '\0' !in r
    ensures |r| < |s| ==> s[|r|] == '\0'
  {
    var z := IndexOf(s, '\0');
    if z >= 0 then s[..z] else s
  }

  /** The label GetButtonTextCrossProc returns for command `idCommand` of `toolbar`. */
  function ButtonTextOf(shell: Shell, toolbar: Handle, idCommand: int): string
  {
    var remoteBuf := shell.virtualAlloc(TextChars);
    if remoteBuf == 0 then "" else TextInBuffer(shell, toolbar, idCommand, remoteBuf)
  }

  /**
   * The part of GetButtonTextCrossProc that runs once the remote buffer exists:
   * TB_GETBUTTONTEXTW into it, then the read-back and the cut at the first NUL.
   */
  function TextInBuffer(shell: Shell, toolbar: Handle, idCommand: int, remoteBuf: Handle): string
  {
    if shell.reply(Message(toolbar, TB_GETBUTTONTEXTW, idCommand, remoteBuf)) < 0 then ""
    else match shell.textRead(toolbar, idCommand)
      case None => ""
      case Some(buf) =>
        var s := UntilNul(buf);
        if s == "" then "" else CutAtNul(s)
  }

  /**
   * A label never contains NUL and never exceeds the buffer; it is empty when
   * the remote allocation fails, when the toolbar's reply is negative or when
   * the read fails; otherwise it is the buffer up to its first NUL.
   */
  lemma ButtonTextIsPrefixBeforeNul(shell: Shell, toolbar: Handle, idCommand: int)
    ensures var text := ButtonTextOf(shell, toolbar, idCommand);
      && '\0' !in text && |text| <= MaxChars
      && var remoteBuf := shell.virtualAlloc(TextChars);
         if remoteBuf == 0
            || shell.reply(Message(toolbar, TB_GETBUTTONTEXTW, idCommand, remoteBuf)) < 0
            || shell.textRead(toolbar, idCommand).None?
         then text == ""
         else
           var local := shell.textRead(toolbar, idCommand).value;
           text <= local && (|text| < |local| ==> local[|text|] == '\0')
  {
  }

  /** GetButtonTextCrossProc: the remote and the local buffer are released on every path. */
  method GetButtonTextCrossProc(os: Os, toolbar: Handle, idCommand: int, hProc: Handle) returns (text: string)
    modifies os`held
    ensures text == ButtonTextOf(os.shell, toolbar, idCommand)
    ensures os.held == old(os.held)
  {
    var remoteBuf := os.VirtualAllocEx(TextChars);
    if remoteBuf == 0 {
      return "";
    }
    os.AllocHGlobal(TextChars);
    text := TextInBuffer(os.shell, toolbar, idCommand, remoteBuf);
    os.FreeHGlobal(TextChars);
    os.VirtualFreeEx(remoteBuf);
  }
}
