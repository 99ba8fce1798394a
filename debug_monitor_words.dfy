/** The word-command debug monitor of m3/debug_monitor/Monitor.cpp: bytes
    are echoed and collected, and the third byte or a carriage return hands
    the message to `UART_msg_process`, which knows `DEB`, `NOR`, `QUI` and
    any message starting with `V`.  Its `is_hex` is the same function as
    `LetterMonitor.IsHex`.  shared.h, which declares its globals, is not part
    of this model: the buffer size, the version text and the mode names are
    those of the other m3 revision, with the VERSION mode this file uses
    added; `display_timer` and `display_flag` are fields of the console. */
module WordMonitor {
  import opened Bytes
  import opened RingBuffer
  import opened Uart
  import LetterMonitor

  const MSG_BUF_SIZE: nat := 10

  const CTRL_B: byte := 0x02
  const BS: byte := 0x08
  const CR: byte := 0x0D

  datatype DisplayMode = Quiet | Normal | Debug | Version

  /** "\n\rError!", the answer to anything that is no command. */
  const ERROR_TEXT: seq<byte> := Text("\n\rError!")

  /** " \b": blank the character the echoed backspace stepped over. */
  const RUB_OUT: seq<byte> := [' ' as int, BS]

  const TOO_LONG: seq<byte> := Text("\r\nToo Long!")

  // ---------------------------------------------------------------------
  // UART_msg_process
  // ---------------------------------------------------------------------

  /** The mode `UART_msg_process` selects for the message `buf` of length
      `idx`, or `None` for an error.  The letters are case-sensitive, and a
      first byte above 0x60 is always an error. */
  function Selected(buf: seq<byte>, idx: byte): Option<DisplayMode>
    requires |buf| == MSG_BUF_SIZE
  {
    var chr := buf[0];
    if chr > 0x60 then None
    else if chr == 'D' as int then
      (if buf[1] == 'E' as int && buf[2] == 'B' as int && idx == 3 then Some(Debug) else None)
    else if chr == 'N' as int then
      (if buf[1] == 'O' as int && buf[2] == 'R' as int && idx == 3 then Some(Normal) else None)
    else if chr == 'Q' as int then
      (if buf[1] == 'U' as int && buf[2] == 'I' as int && idx == 3 then Some(Quiet) else None)
    else if chr == 'V' as int then Some(Version)
    else None
  }

  /** The three-letter commands. */
  const WORDS: map<seq<byte>, DisplayMode> :=
    map[['D' as int, 'E' as int, 'B' as int] := Debug,
        ['N' as int, 'O' as int, 'R' as int] := Normal,
        ['Q' as int, 'U' as int, 'I' as int] := Quiet]

  /** A message selects DEBUG, NORMAL or QUIET exactly when it is one of the
      three words, upper case, of exactly three bytes; it selects VERSION
      exactly when it starts with `V`. */
  lemma SelectedWords(buf: seq<byte>, idx: byte)
    requires |buf| == MSG_BUF_SIZE
    ensures Selected(buf, idx) == Some(Version) <==> buf[0] == 'V' as int
    ensures forall m :: m != Version ==>
      (Selected(buf, idx) == Some(m) <==> idx == 3 && buf[..3] in WORDS && WORDS[buf[..3]] == m)
  {
    var w := buf[..3];
    assert w == [buf[0], buf[1], buf[2]];
  }

  /** A lower-case first letter is always an error. */
  lemma LowerCaseRejected(buf: seq<byte>, idx: byte)
    requires |buf| == MSG_BUF_SIZE && 'a' as int <= buf[0] <= 'z' as int
    ensures Selected(buf, idx) == None
  {
  }

  /** What `UART_msg_process` sends for the selection `sel`. */
  function Reply(sel: Option<DisplayMode>): seq<byte>
  {
    match sel
    case None => ERROR_TEXT
    case Some(Debug) => Text("\r\nMode=DEBUG\n")
    case Some(Normal) => Text("\r\nMode=NORMAL\n")
    case Some(Quiet) => Text("\r\nMode=QUIET\n")
    case Some(Version) => LetterMonitor.VERSION_TEXT
  }

  /** The monitor's globals: `msg_buf`, `msg_buf_idx`, `display_mode` and
      `display_timer`. */
  datatype MonitorVars = MonitorVars(buf: seq<byte>, idx: byte, mode: DisplayMode, displayTimer: byte)

  /** `UART_msg_process`: the new globals and the text sent. */
  function Process(v: MonitorVars): (r: (MonitorVars, seq<byte>))
    requires |v.buf| == MSG_BUF_SIZE
    ensures r.0.buf == v.buf && r.0.idx == 0
  {
    var sel := Selected(v.buf, v.idx);
    (v.(mode := if sel.Some? then sel.value else v.mode, idx := 0,
        displayTimer := if sel.Some? && sel.value != Normal then 0 else v.displayTimer),
     Reply(sel))
  }

  /** An error leaves the mode and `display_timer` as they were; a command
      sets its mode, and all but NOR restart `display_timer`. */
  lemma ProcessEffects(v: MonitorVars)
    requires |v.buf| == MSG_BUF_SIZE
    ensures var (w, out) := Process(v); var sel := Selected(v.buf, v.idx);
      (sel == None ==> w == v.(idx := 0) && out == ERROR_TEXT) &&
      (sel.Some? ==> w.mode == sel.value) &&
      (sel.Some? && sel.value != Normal ==> w.displayTimer == 0) &&
      (sel == Some(Normal) ==> w.displayTimer == v.displayTimer)
  {
  }

  // ---------------------------------------------------------------------
  // chk_UART_msg
  // ---------------------------------------------------------------------

  /** The QUIET-mode filter of line 100: in QUIET mode a message that does
      not start with ^B, `D`, `N` or `V` is dropped at its second byte. */
  predicate QuietReject(v: MonitorVars)
    requires |v.buf| == MSG_BUF_SIZE
  {
    v.mode == Quiet && v.buf[0] != CTRL_B && v.buf[0] != 'D' as int && v.buf[0] != 'N' as int &&
    v.buf[0] != 'V' as int && v.idx != 0
  }

  /** The echo of a received byte: everything but ^B. */
  function Echo(j: byte): seq<byte>
  {
    if j != CTRL_B then [j] else []
  }

  /** What a byte other than CR does after its echo: a backspace takes back
      one byte, an overlong message is dropped, QUIET mode filters the first
      byte, and otherwise the byte is stored and the third one processed. */
  function Edit(v: MonitorVars, j: byte): (r: (MonitorVars, seq<byte>))
    requires |v.buf| == MSG_BUF_SIZE
    ensures |r.0.buf| == MSG_BUF_SIZE
  {
    if j == BS then
      if v.idx != 0 then (v.(idx := v.idx - 1), RUB_OUT) else (v, [])
    else if v.idx >= MSG_BUF_SIZE then
      (v.(idx := 0), TOO_LONG)
    else if QuietReject(v) then
      (v.(idx := 0), [])
    else
      var w := v.(buf := v.buf[v.idx := j], idx := v.idx + 1);
      if w.idx > 2 then Process(w) else (w, [])
  }

  /** One pass of the loop of `chk_UART_msg` on the byte `j`: the new globals
      and the text sent.  CR sends "->" and processes the message; every
      other byte is echoed first. */
  function Step(v: MonitorVars, j: byte): (r: (MonitorVars, seq<byte>))
    requires |v.buf| == MSG_BUF_SIZE
    ensures |r.0.buf| == MSG_BUF_SIZE
  {
    if j == CR then
      var p := Process(v);
      (p.0, Text("->") + p.1)
    else
      var e := Edit(v, j);
      (e.0, Echo(j) + e.1)
  }

  /** Between two bytes the index is at most 2: the third stored byte is
      processed at once and processing resets the index.  So "Too Long!" is
      never sent. */
  ghost predicate Inv(v: MonitorVars)
  {
    |v.buf| == MSG_BUF_SIZE && v.idx <= 2
  }

  lemma StepKeepsInv(v: MonitorVars, j: byte)
    requires Inv(v)
    ensures Inv(Step(v, j).0)
  {
  }

  /** `chk_UART_msg` on the received bytes `js`, oldest first: the new
      globals and all the text sent. */
  ghost function Steps(v: MonitorVars, js: seq<byte>): (r: (MonitorVars, seq<byte>))
    requires |v.buf| == MSG_BUF_SIZE
    ensures |r.0.buf| == MSG_BUF_SIZE
    decreases |js|
  {
    if js == [] then (v, [])
    else
      var p := Steps(v, js[..|js| - 1]);
      var j := js[|js| - 1];
      var q := Step(p.0, j);
      (q.0, p.1 + q.1)
  }

  /** However many bytes arrive, the index stays at most 2. */
  lemma {:induction false} StepsKeepInv(v: MonitorVars, js: seq<byte>)
    requires Inv(v)
    ensures Inv(Steps(v, js).0)
    decreases |js|
  {
    if js != [] {
      StepsKeepInv(v, js[..|js| - 1]);
      StepKeepsInv(Steps(v, js[..|js| - 1]).0, js[|js| - 1]);
    }
  }

  /** A byte that is neither a carriage return nor a backspace. */
  predicate Ordinary(j: byte)
  {
    j != CR && j != BS
  }

  /** A first byte that passes the QUIET-mode filter. */
  predicate Admitted(mode: DisplayMode, first: byte)
  {
    mode != Quiet || first == CTRL_B || first == 'D' as int || first == 'N' as int || first == 'V' as int
  }

  lemma StepsSnoc(v: MonitorVars, js: seq<byte>, j: byte)
    requires |v.buf| == MSG_BUF_SIZE
    ensures var p := Steps(v, js); var q := Step(p.0, j);
      Steps(v, js + [j]) == (q.0, p.1 + q.1)
  {
    assert (js + [j])[..|js|] == js;
  }

  /** An ordinary byte below the third is stored and echoed. */
  lemma StoreByte(v: MonitorVars, j: byte)
    requires Inv(v) && v.idx < 2 && j != CR && j != BS && !QuietReject(v)
    ensures Step(v, j) == (v.(buf := v.buf[v.idx := j], idx := v.idx + 1), Echo(j))
  {
    assert Echo(j) + [] == Echo(j);
  }

  /** The third ordinary byte is stored, echoed, and the message processed. */
  lemma ThirdByte(v: MonitorVars, j: byte)
    requires Inv(v) && v.idx == 2 && j != CR && j != BS && !QuietReject(v)
    ensures var w := v.(buf := v.buf[2 := j], idx := 3);
      Step(v, j) == (Process(w).0, Echo(j) + Process(w).1)
  {
  }

  /** The selection for a complete three-byte message, read off the word
      table. */
  lemma SelectedThree(buf: seq<byte>)
    requires |buf| == MSG_BUF_SIZE
    ensures var w := buf[..3];
      Selected(buf, 3) ==
        if w in WORDS then Some(WORDS[w]) else if buf[0] == 'V' as int then Some(Version) else None
  {
    SelectedWords(buf, 3);
  }

  /** Three ordinary bytes typed from an empty buffer, in three passes of
      the loop, are echoed and form one message: a word command sets its
      mode, a message starting with `V` the VERSION mode, and anything else
      leaves the mode and sends the error. */
  lemma TypedCommand(v: MonitorVars, a: byte, b: byte, c: byte)
    requires Inv(v) && v.idx == 0
    requires Ordinary(a) && Ordinary(b) && Ordinary(c) && Admitted(v.mode, a)
    ensures var (w1, out1) := Step(v, a); var (w2, out2) := Step(w1, b); var (w3, out3) := Step(w2, c);
      var sel := if [a, b, c] in WORDS then Some(WORDS[[a, b, c]]) else if a == 'V' as int then Some(Version) else None;
      w3.idx == 0 && w3.buf == v.buf[0 := a][1 := b][2 := c] &&
      w3.mode == (if sel.Some? then sel.value else v.mode) &&
      out1 + out2 + out3 == Echo(a) + Echo(b) + Echo(c) + Reply(sel)
  {
    var v3 := v.(buf := v.buf[0 := a][1 := b][2 := c], idx := 3);
    ThreePasses(v, a, b, c);
    SelectedThree(v3.buf);
    assert v3.buf[..3] == [a, b, c];
  }

  /** The three passes of `TypedCommand` one by one. */
  lemma ThreePasses(v: MonitorVars, a: byte, b: byte, c: byte)
    requires Inv(v) && v.idx == 0
    requires Ordinary(a) && Ordinary(b) && Ordinary(c) && Admitted(v.mode, a)
    ensures var v1 := v.(buf := v.buf[0 := a], idx := 1);
      var v2 := v1.(buf := v1.buf[1 := b], idx := 2);
      var v3 := v2.(buf := v2.buf[2 := c], idx := 3);
      v3 == v.(buf := v.buf[0 := a][1 := b][2 := c], idx := 3) &&
      Step(v, a) == (v1, Echo(a)) && Step(v1, b) == (v2, Echo(b)) &&
      Step(v2, c) == (Process(v3).0, Echo(c) + Process(v3).1)
  {
    var v1 := v.(buf := v.buf[0 := a], idx := 1);
    var v2 := v1.(buf := v1.buf[1 := b], idx := 2);
    StoreByte(v, a);
    assert v1.buf[0] == a && !QuietReject(v1);
    StoreByte(v1, b);
    assert v2.buf[0] == a && !QuietReject(v2);
    ThirdByte(v2, c);
  }

  // ---------------------------------------------------------------------
  // monitor
  // ---------------------------------------------------------------------

  /** The labels NORMAL and DEBUG print; the values are still to be added in
      this revision. */
  const LABELS: seq<byte> := Text(" Flow: ") + Text(" Temp: ") + Text(" Freq: ")

  /** What `monitor()` prints: a blank line on every call in QUIET mode,
      nothing in VERSION mode, and the labelled line in NORMAL and DEBUG mode
      when `display_flag` is 1. */
  function DisplayText(mode: DisplayMode, flag: byte): (r: seq<byte>)
    ensures r != [] <==> mode == Quiet || (flag == 1 && (mode == Normal || mode == Debug))
  {
    match mode
    case Quiet => Text("\r\n ")
    case Version => []
    case Normal => if flag == 1 then Text("\r\nNORMAL ") + LABELS else []
    case Debug => if flag == 1 then Text("\r\nDEBUG ") + LABELS else []
  }

  // ---------------------------------------------------------------------
  // The module state
  // ---------------------------------------------------------------------

  class Console {
    const uart: Uart
    const msgBuf: array<byte>
    var msgBufIdx: byte
    var displayMode: DisplayMode
    var displayTimer: byte
    var displayFlag: byte

    ghost predicate Valid()
      reads this, uart
    {
      uart.Valid() && msgBuf.Length == MSG_BUF_SIZE && msgBuf != uart.rxBuf && msgBuf != uart.txBuf
    }

    ghost function Vars(): MonitorVars
      reads this, msgBuf
    {
      MonitorVars(msgBuf[..], msgBufIdx, displayMode, displayTimer)
    }

    /** The static storage: a zeroed buffer, index 0, NORMAL mode, and both
        timer bytes at 0. */
    constructor (u: Uart)
      requires u.Valid()
      ensures Valid() && uart == u && fresh(msgBuf)
      ensures Vars() == MonitorVars(seq(MSG_BUF_SIZE, _ => 0), 0, Normal, 0) && displayFlag == 0
      ensures Inv(Vars())
    {
      uart := u;
      msgBuf := new byte[MSG_BUF_SIZE](_ => 0);
      msgBufIdx := 0;
      displayMode := Normal;
      displayTimer := 0;
      displayFlag := 0;
    }

    /** `UART_msg_process`. */
    method MsgProcess()
      requires Valid()
      modifies this`displayMode, this`msgBufIdx, this`displayTimer, uart`txIn, uart.txBuf
      ensures Valid()
      ensures Vars() == Process(old(Vars())).0
      ensures uart.Tx() == old(uart.Tx()).PutAll(Process(old(Vars())).1)
    {
      var chr := msgBuf[0];
      var err := 0;
      if chr <= 0x60 {
        if chr == 'D' as int {
          if msgBuf[1] == 'E' as int && msgBuf[2] == 'B' as int && msgBufIdx == 3 {
            Select(Debug);
          } else {
            err := 1;
          }
        } else if chr == 'N' as int {
          if msgBuf[1] == 'O' as int && msgBuf[2] == 'R' as int && msgBufIdx == 3 {
            Select(Normal);
          } else {
            err := 1;
          }
        } else if chr == 'Q' as int {
          if msgBuf[1] == 'U' as int && msgBuf[2] == 'I' as int && msgBufIdx == 3 {
            Select(Quiet);
          } else {
            err := 1;
          }
        } else if chr == 'V' as int {
          Select(Version);
        } else {
          err := 1;
        }
      } else {
        err := 1;
      }
      if err == 1 {
        uart.MsgPut(Ascii("\n\rError!"));
      }
      msgBufIdx := 0;
    }

    /** One arm of the switch of `UART_msg_process` that accepts the
        message: set the mode, announce it, and restart `display_timer`
        except for NOR. */
    method Select(m: DisplayMode)
      requires Valid()
      modifies this`displayMode, this`displayTimer, uart`txIn, uart.txBuf
      ensures Valid() && displayMode == m
      ensures displayTimer == if m == Normal then old(displayTimer) else 0
      ensures uart.Tx() == old(uart.Tx()).PutAll(Reply(Some(m)))
    {
      match m
      case Debug =>
        displayMode := Debug;
        uart.MsgPut(Ascii("\r\nMode=DEBUG\n"));
        displayTimer := 0;
      case Normal =>
        displayMode := Normal;
        uart.MsgPut(Ascii("\r\nMode=NORMAL\n"));
      case Quiet =>
        displayMode := Quiet;
        uart.MsgPut(Ascii("\r\nMode=QUIET\n"));
        displayTimer := 0;
      case Version =>
        displayMode := Version;
        DisplayVersion();
        displayTimer := 0;
    }

    /** The version answer of `UART_msg_process`. */
    method DisplayVersion()
      requires Valid()
      modifies uart`txIn, uart.txBuf
      ensures Valid() && uart.Tx() == old(uart.Tx()).PutAll(LetterMonitor.VERSION_TEXT)
    {
      ghost var t := uart.Tx();
      uart.MsgPut(Ascii("\r\n"));
      ghost var out := Text("\r\n");
      out := uart.MsgPutAfter(t, out, Ascii(LetterMonitor.CODE_VERSION));
      out := uart.MsgPutAfter(t, out, Ascii("\r\nSelect  "));
    }

    /** One pass of the loop of `chk_UART_msg`, on the byte `j` just taken
        from the receive queue. */
    method Receive(j: byte)
      requires Valid()
      modifies msgBuf, this`displayMode, this`msgBufIdx, this`displayTimer, uart`txIn, uart.txBuf
      ensures Valid()
      ensures Vars() == Step(old(Vars()), j).0
      ensures uart.Tx() == old(uart.Tx()).PutAll(Step(old(Vars()), j).1)
    {
      ghost var t := uart.Tx();
      ghost var v := Vars();
      if j == CR {
        uart.MsgPut(Ascii("->"));
        MsgProcess();
        PutAllConcat(t, Text("->"), Process(v).1);
      } else {
        if j != CTRL_B {
          uart.Put(j);
          assert t.PutAll([j]) == t.PutAll([]).Put(j);
        }
        EditMessage(j);
        PutAllConcat(t, Echo(j), Edit(v, j).1);
      }
    }

    /** The part of a pass of `chk_UART_msg` after the echo of a byte other
        than CR. */
    method EditMessage(j: byte)
      requires Valid() && j != CR
      modifies msgBuf, this`displayMode, this`msgBufIdx, this`displayTimer, uart`txIn, uart.txBuf
      ensures Valid()
      ensures Vars() == Edit(old(Vars()), j).0
      ensures uart.Tx() == old(uart.Tx()).PutAll(Edit(old(Vars()), j).1)
    {
      if j == BS {
        if msgBufIdx != 0 {
          uart.MsgPut(RUB_OUT);
          UntilNulNoNul(RUB_OUT);
          msgBufIdx := msgBufIdx - 1;
        }
      } else if msgBufIdx >= MSG_BUF_SIZE as byte {
        uart.MsgPut(Ascii("\r\nToo Long!"));
        msgBufIdx := 0;
      } else if displayMode == Quiet && msgBuf[0] != CTRL_B && msgBuf[0] != 'D' as int &&
                msgBuf[0] != 'N' as int && msgBuf[0] != 'V' as int && msgBufIdx != 0 {
        msgBufIdx := 0;
      } else {
        msgBuf[msgBufIdx] := j;
        msgBufIdx := msgBufIdx + 1;
        if msgBufIdx > 2 {
          MsgProcess();
        }
      }
    }

    /** `chk_UART_msg`: handle every byte waiting in the receive queue,
        oldest first, and leave the queue empty. */
    method ChkUartMsg()
      requires Valid()
      modifies msgBuf, this`displayMode, this`msgBufIdx, this`displayTimer
      modifies uart`rxOut, uart`txIn, uart.txBuf
      ensures Valid()
      ensures uart.Rx().Pending() == []
      ensures Vars() == Steps(old(Vars()), old(uart.Rx().Pending())).0
      ensures uart.Tx() == old(uart.Tx()).PutAll(Steps(old(Vars()), old(uart.Rx().Pending())).1)
    {
      ghost var v0 := Vars();
      ghost var t0 := uart.Tx();
      ghost var pending := uart.Rx().Pending();
      ghost var k := 0;
      var more := uart.Input();
      while more != 0
        invariant Valid()
        invariant 0 <= k <= |pending| && uart.Rx().Pending() == pending[k..]
        invariant more != 0 <==> uart.Rx().Pending() != []
        invariant Vars() == Steps(v0, pending[..k]).0
        invariant uart.Tx() == t0.PutAll(Steps(v0, pending[..k]).1)
        decreases |uart.Rx().Pending()|
      {
        ReceiveNext(v0, t0, pending, k);
        k := k + 1;
        more := uart.Input();
      }
      assert pending[..k] == pending;
    }

    /** The body of the loop of `chk_UART_msg`: take the oldest byte, the
        `k`-th one received, and handle it. */
    method ReceiveNext(ghost v0: MonitorVars, ghost t0: Ring, ghost pending: seq<byte>, ghost k: nat)
      requires Valid() && |v0.buf| == MSG_BUF_SIZE && t0.Valid()
      requires k < |pending| && uart.Rx().Pending() == pending[k..]
      requires Vars() == Steps(v0, pending[..k]).0
      requires uart.Tx() == t0.PutAll(Steps(v0, pending[..k]).1)
      modifies msgBuf, this`displayMode, this`msgBufIdx, this`displayTimer
      modifies uart`rxOut, uart`txIn, uart.txBuf
      ensures Valid()
      ensures uart.Rx().Pending() == pending[k + 1..]
      ensures Vars() == Steps(v0, pending[..k + 1]).0
      ensures uart.Tx() == t0.PutAll(Steps(v0, pending[..k + 1]).1)
    {
      ghost var before := Steps(v0, pending[..k]);
      GetRemovesHead(uart.Rx());
      var j := uart.Get();
      assert j == pending[k];
      Receive(j);
      assert pending[..k + 1][..k] == pending[..k];
      ghost var q := Step(before.0, j);
      assert Steps(v0, pending[..k + 1]) == (q.0, before.1 + q.1);
      PutAllConcat(t0, before.1, q.1);
    }

    /** `monitor()`: QUIET prints a blank line and clears `display_flag` on
        every call, VERSION only clears it, NORMAL and DEBUG print their line
        and clear it when it is 1. */
    method Monitor()
      requires Valid()
      modifies this`displayFlag, uart`txIn, uart.txBuf
      ensures Valid()
      ensures uart.Tx() == old(uart.Tx()).PutAll(DisplayText(displayMode, old(displayFlag)))
      ensures displayFlag == if displayMode in {Quiet, Version} || old(displayFlag) == 1 then 0 else old(displayFlag)
    {
      match displayMode
      case Quiet =>
        uart.MsgPut(Ascii("\r\n "));
        displayFlag := 0;
      case Version =>
        displayFlag := 0;
      case Normal =>
        if displayFlag == 1 {
          ghost var t := uart.Tx();
          uart.MsgPut(Ascii("\r\nNORMAL "));
          DisplayLabels();
          PutAllConcat(t, Text("\r\nNORMAL "), LABELS);
          displayFlag := 0;
        }
      case Debug =>
        if displayFlag == 1 {
          ghost var t := uart.Tx();
          uart.MsgPut(Ascii("\r\nDEBUG "));
          DisplayLabels();
          PutAllConcat(t, Text("\r\nDEBUG "), LABELS);
          displayFlag := 0;
        }
    }

    /** The three labels `monitor()` prints in NORMAL and DEBUG mode. */
    method DisplayLabels()
      requires Valid()
      modifies uart`txIn, uart.txBuf
      ensures Valid() && uart.Tx() == old(uart.Tx()).PutAll(LABELS)
    {
      ghost var t := uart.Tx();
      uart.MsgPut(Ascii(" Flow: "));
      ghost var out := Text(" Flow: ");
      out := uart.MsgPutAfter(t, out, Ascii(" Temp: "));
      out := uart.MsgPutAfter(t, out, Ascii(" Freq: "));
      assert out == LABELS;
    }
  }
}
