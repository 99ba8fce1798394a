/** The single-letter debug monitor of m3/debug_monitor/monitor.cpp: one
    received byte per call is a command, `D`, `N`, `Q` or `V` in either case,
    and every other byte prints the menu.  It drives the same UART driver as
    the flow meter.  `display_timer` and `display_flag`, which timer.h
    declares and an absent timer.cpp defines, are fields of the console
    here. */
module LetterMonitor {
  import opened Bytes
  import opened RingBuffer
  import opened Uart
  import Monitor

  const MSG_BUF_SIZE: nat := 10
  /** `CODE_VERSION` of m3/debug_monitor/monitor.h. */
  const CODE_VERSION: string := "2.0 2016/09/29"

  /** `enum dmode` of monitor.h. */
  datatype DisplayMode = Quiet | Normal | Debug

  const MENU: seq<byte> :=
    Text("\r\nMain menu\r\n") + Text("N - Normal\r\n") + Text("Q - Quiet\r\n") +
    Text("D - Debug\r\n") + Text("V - Version\r\n") + Text("Select:")

  const VERSION_TEXT: seq<byte> := Text("\r\n") + Text(CODE_VERSION) + Text("\r\nSelect  ")

  /** `display_readings`: the labels only; the values are still to be added
      in this revision. */
  const READINGS: seq<byte> := Text(" Flow: ") + Text("  Temp: ") + Text("  Freq: ") + Text("\r\n")

  // ---------------------------------------------------------------------
  // is_hex
  // ---------------------------------------------------------------------

  /** `c |= 0x20` on a byte: bit 5 is set and every other bit is kept. */
  function SetBit5(c: byte): (r: byte)
    ensures (r / 0x20) % 2 == 1
    ensures r % 0x20 == c % 0x20 && r / 0x40 == c / 0x40
    ensures r == c || r == c + 0x20
  {
    if (c / 0x20) % 2 == 1 then c else c + 0x20
  }

  /** `is_hex(c)`: after setting bit 5, a decimal digit or 'a'..'f'. */
  function IsHex(c: byte): (r: byte)
    ensures r == 0 || r == 1
  {
    var d := SetBit5(c);
    if ('0' as int <= d <= '9' as int) || ('a' as int <= d <= 'f' as int) then 1 else 0
  }

  /** Setting bit 5 folds upper-case letters onto lower-case ones, so `is_hex`
      accepts both cases of 'a'..'f'; it also folds 0x10..0x19 onto the
      digits, so those ten control bytes are accepted too. */
  lemma IsHexAccepts(c: byte)
    ensures IsHex(c) == 1 <==> Monitor.IsHexChar(c) || 0x10 <= c <= 0x19
  {
  }

  // ---------------------------------------------------------------------
  // process_message
  // ---------------------------------------------------------------------

  /** The display mode after the (capitalized) command `chr`. */
  function NextMode(mode: DisplayMode, chr: byte): DisplayMode
  {
    if chr == 'D' as int then Debug
    else if chr == 'N' as int then Normal
    else if chr == 'Q' as int then Quiet
    else mode
  }

  const MODE_COMMANDS: map<byte, DisplayMode> :=
    map['D' as int := Debug, 'N' as int := Normal, 'Q' as int := Quiet]

  /** The three mode letters select their mode from any mode; every other
      command keeps the mode. */
  lemma NextModeFollowsTable(mode: DisplayMode, chr: byte)
    ensures chr in MODE_COMMANDS ==> NextMode(mode, chr) == MODE_COMMANDS[chr]
    ensures chr !in MODE_COMMANDS ==> NextMode(mode, chr) == mode
  {
  }

  /** The commands that restart `display_timer`. */
  predicate ResetsTimer(chr: byte)
  {
    chr == 'D' as int || chr == 'Q' as int || chr == 'V' as int
  }

  /** What `process_message` sends for the command `chr`. */
  function Reply(chr: byte): seq<byte>
  {
    if chr == 'D' as int then Text("\r\nMode=DEBUG\r\n")
    else if chr == 'N' as int then Text("\r\nMode=NORMAL\r\n")
    else if chr == 'Q' as int then Text("\r\nMode=QUIET\r\n")
    else if chr == 'V' as int then VERSION_TEXT
    else MENU
  }

  /** Every command is answered. */
  lemma ReplyNotEmpty(chr: byte)
    ensures Reply(chr) != []
  {
    TextNotEmpty("\r\nMode=DEBUG\r\n");
    TextNotEmpty("\r\nMode=NORMAL\r\n");
    TextNotEmpty("\r\nMode=QUIET\r\n");
    TextNotEmpty("\r\n");
    TextNotEmpty("\r\nMain menu\r\n");
  }

  /** The monitor's globals: `msg_buf`, `msg_buf_idx`, `display_mode` and
      `display_timer`. */
  datatype MonitorVars = MonitorVars(buf: seq<byte>, idx: byte, mode: DisplayMode, displayTimer: byte)

  /** `process_message` on the message in `v.buf`: the new globals and the
      text sent. */
  function Process(v: MonitorVars): (MonitorVars, seq<byte>)
    requires |v.buf| == MSG_BUF_SIZE
  {
    var chr := Monitor.Capitalize(v.buf[0]);
    (v.(mode := NextMode(v.mode, chr), idx := 0,
        displayTimer := if ResetsTimer(chr) then 0 else v.displayTimer),
     Reply(chr))
  }

  /** Every message leaves the index at 0 and the buffer as it is; `D`, `Q`
      and `V` restart `display_timer`, `N` keeps it. */
  lemma ProcessTimer(v: MonitorVars)
    requires |v.buf| == MSG_BUF_SIZE
    ensures var w := Process(v).0; var chr := Monitor.Capitalize(v.buf[0]);
      w.idx == 0 && w.buf == v.buf &&
      (chr == 'D' as int || chr == 'Q' as int || chr == 'V' as int ==> w.displayTimer == 0) &&
      (chr == 'N' as int ==> w.displayTimer == v.displayTimer)
  {
  }

  /** A byte that is no command only prints the menu and resets the index. */
  lemma ProcessUnknown(v: MonitorVars)
    requires |v.buf| == MSG_BUF_SIZE
    requires var chr := Monitor.Capitalize(v.buf[0]); chr !in MODE_COMMANDS && chr != 'V' as int
    ensures Process(v) == (v.(idx := 0), MENU)
  {
  }

  /** Commands are case-insensitive: a lower-case letter has exactly the
      effect of its upper-case form. */
  lemma ProcessIgnoresCase(v: MonitorVars)
    requires |v.buf| == MSG_BUF_SIZE && 'a' as int <= v.buf[0] <= 'z' as int
    ensures var w := v.(buf := v.buf[0 := v.buf[0] - 32]);
      Process(v).1 == Process(w).1 && Process(v).0 == Process(w).0.(buf := v.buf)
  {
  }

  // ---------------------------------------------------------------------
  // read_message_from_uart
  // ---------------------------------------------------------------------

  /** `read_message_from_uart` with the bytes `pending` waiting: the `break`
      ends the loop after the first byte, which is stored and processed.
      The new globals, the text sent and the bytes still waiting. */
  function Read(v: MonitorVars, pending: seq<byte>): (MonitorVars, seq<byte>, seq<byte>)
    requires |v.buf| == MSG_BUF_SIZE && v.idx < MSG_BUF_SIZE
  {
    if pending == [] then (v, [], [])
    else
      var p := Process(v.(buf := v.buf[v.idx := pending[0]], idx := v.idx + 1));
      (p.0, p.1, pending[1..])
  }

  /** One call takes at most one byte; from index 0, where every message
      leaves it, that byte lands in `msg_buf[0]` and the index is back at 0. */
  lemma ReadTakesOneByte(v: MonitorVars, pending: seq<byte>)
    requires |v.buf| == MSG_BUF_SIZE && v.idx == 0
    ensures var (w, out, rest) := Read(v, pending);
      rest == (if pending == [] then [] else pending[1..]) &&
      w.idx == 0 &&
      w.buf == (if pending == [] then v.buf else v.buf[0 := pending[0]]) &&
      (pending == [] <==> out == [])
  {
    if pending != [] {
      ReplyNotEmpty(Monitor.Capitalize(pending[0]));
    }
  }

  // ---------------------------------------------------------------------
  // monitor
  // ---------------------------------------------------------------------

  /** What `monitor()` prints: the readings in NORMAL and DEBUG mode, each
      only when `display_flag` is 1. */
  function DisplayText(mode: DisplayMode, flag: byte): (r: seq<byte>)
    ensures r != [] <==> flag == 1 && mode != Quiet
  {
    if flag != 1 then []
    else match mode
      case Quiet => []
      case Normal => Text("\r\nNORMAL ") + READINGS
      case Debug => Text("\r\nDEBUG ") + READINGS
  }

  // ---------------------------------------------------------------------
  // The module state
  // ---------------------------------------------------------------------

  class Console {
    const uart: Uart
    const msgBuf: array<byte>
    var msgBufIdx: byte
    var displayMode: DisplayMode
    var displayTimer: byte
    var displayFlag: byte

    ghost predicate Valid()
      reads this, uart
    {
      uart.Valid() && msgBuf.Length == MSG_BUF_SIZE && msgBuf != uart.rxBuf && msgBuf != uart.txBuf
    }

    ghost function Vars(): MonitorVars
      reads this, msgBuf
    {
      MonitorVars(msgBuf[..], msgBufIdx, displayMode, displayTimer)
    }

    /** The static storage: a zeroed buffer, index 0, NORMAL mode, and both
        timer bytes at 0. */
    constructor (u: Uart)
      requires u.Valid()
      ensures Valid() && uart == u && fresh(msgBuf)
      ensures Vars() == MonitorVars(seq(MSG_BUF_SIZE, _ => 0), 0, Normal, 0) && displayFlag == 0
    {
      uart := u;
      msgBuf := new byte[MSG_BUF_SIZE](_ => 0);
      msgBufIdx := 0;
      displayMode := Normal;
      displayTimer := 0;
      displayFlag := 0;
    }

    /** `display_menu`. */
    method DisplayMenu()
      requires Valid()
      modifies uart`txIn, uart.txBuf
      ensures Valid() && uart.Tx() == old(uart.Tx()).PutAll(MENU)
    {
      ghost var t := uart.Tx();
      uart.MsgPut(Ascii("\r\nMain menu\r\n"));
      ghost var out := Text("\r\nMain menu\r\n");
      out := uart.MsgPutAfter(t, out, Ascii("N - Normal\r\n"));
      out := uart.MsgPutAfter(t, out, Ascii("Q - Quiet\r\n"));
      out := uart.MsgPutAfter(t, out, Ascii("D - Debug\r\n"));
      out := uart.MsgPutAfter(t, out, Ascii("V - Version\r\n"));
      out := uart.MsgPutAfter(t, out, Ascii("Select:"));
      assert out == MENU;
    }

    /** `process_message`. */
    method ProcessMessage()
      requires Valid()
      modifies this`displayMode, this`msgBufIdx, this`displayTimer, uart`txIn, uart.txBuf
      ensures Valid()
      ensures Vars() == Process(old(Vars())).0
      ensures uart.Tx() == old(uart.Tx()).PutAll(Process(old(Vars())).1)
    {
      var chr := msgBuf[0];
      if 'a' as int <= chr <= 'z' as int {
        chr := chr - ('a' as int - 'A' as int);
      }
      Command(chr);
      msgBufIdx := 0;
    }

    /** The `switch` of `process_message` on the capitalized command `chr`,
        with the menu of its error path. */
    method Command(chr: byte)
      requires Valid()
      modifies this`displayMode, this`displayTimer, uart`txIn, uart.txBuf
      ensures Valid() && displayMode == NextMode(old(displayMode), chr)
      ensures displayTimer == if ResetsTimer(chr) then 0 else old(displayTimer)
      ensures uart.Tx() == old(uart.Tx()).PutAll(Reply(chr))
    {
      if chr == 'D' as int {
        displayMode := Debug;
        uart.MsgPut(Ascii("\r\nMode=DEBUG\r\n"));
        displayTimer := 0;
      } else if chr == 'N' as int {
        displayMode := Normal;
        uart.MsgPut(Ascii("\r\nMode=NORMAL\r\n"));
      } else if chr == 'Q' as int {
        displayMode := Quiet;
        uart.MsgPut(Ascii("\r\nMode=QUIET\r\n"));
        displayTimer := 0;
      } else if chr == 'V' as int {
        ghost var t := uart.Tx();
        uart.MsgPut(Ascii("\r\n"));
        ghost var out := Text("\r\n");
        out := uart.MsgPutAfter(t, out, Ascii(CODE_VERSION));
        out := uart.MsgPutAfter(t, out, Ascii("\r\nSelect  "));
        assert out == VERSION_TEXT;
        displayTimer := 0;
      } else {
        DisplayMenu();
      }
    }

    /** `read_message_from_uart`: at most one waiting byte is taken, stored
        and processed. */
    method ReadMessageFromUart()
      requires Valid() && msgBufIdx < MSG_BUF_SIZE
      modifies msgBuf, this`displayMode, this`msgBufIdx, this`displayTimer
      modifies uart`rxOut, uart`txIn, uart.txBuf
      ensures Valid()
      ensures Vars() == Read(old(Vars()), old(uart.Rx().Pending())).0
      ensures uart.Tx() == old(uart.Tx()).PutAll(Read(old(Vars()), old(uart.Rx().Pending())).1)
      ensures uart.Rx().Pending() == Read(old(Vars()), old(uart.Rx().Pending())).2
    {
      // The loop of the source ends with an unconditional `break`, so its
      // body runs at most once.
      var more := uart.Input();
      if more != 0 {
        GetRemovesHead(uart.Rx());
        var j := uart.Get();
        msgBuf[msgBufIdx] := j;
        msgBufIdx := msgBufIdx + 1;
        ProcessMessage();
      }
    }

    /** `display_readings`. */
    method DisplayReadings()
      requires Valid()
      modifies uart`txIn, uart.txBuf
      ensures Valid() && uart.Tx() == old(uart.Tx()).PutAll(READINGS)
    {
      ghost var t := uart.Tx();
      uart.MsgPut(Ascii(" Flow: "));
      ghost var out := Text(" Flow: ");
      out := uart.MsgPutAfter(t, out, Ascii("  Temp: "));
      out := uart.MsgPutAfter(t, out, Ascii("  Freq: "));
      out := uart.MsgPutAfter(t, out, Ascii("\r\n"));
      assert out == READINGS;
    }

    /** `monitor()`: QUIET clears `display_flag`; NORMAL and DEBUG print
        their line and clear it when it is 1. */
    method Monitor()
      requires Valid()
      modifies this`displayFlag, uart`txIn, uart.txBuf
      ensures Valid()
      ensures uart.Tx() == old(uart.Tx()).PutAll(DisplayText(displayMode, old(displayFlag)))
      ensures displayFlag == if displayMode == Quiet || old(displayFlag) == 1 then 0 else old(displayFlag)
    {
      match displayMode
      case Quiet =>
        displayFlag := 0;
      case Normal =>
        if displayFlag == 1 {
          ghost var t := uart.Tx();
          uart.MsgPut(Ascii("\r\nNORMAL "));
          DisplayReadings();
          PutAllConcat(t, Text("\r\nNORMAL "), READINGS);
          displayFlag := 0;
        }
      case Debug =>
        if displayFlag == 1 {
          ghost var t := uart.Tx();
          uart.MsgPut(Ascii("\r\nDEBUG "));
          DisplayReadings();
          PutAllConcat(t, Text("\r\nDEBUG "), READINGS);
          displayFlag := 0;
        }
    }
  }
}
