/** The serial command monitor of m4/flowmeter/monitor.cpp.  Received bytes are
    collected in `msg_buf` and interpreted as one-letter commands that switch
    the display mode (QUIET, NORMAL, DEBUG, ADC) or print information; in
    DEBUG mode `M` opens a multi-character input that takes a hex address.
    `monitor()` prints the periodic display when the timer has raised
    `display_flag`.

    The state of the module is the class `Console`; `Vars()` views it as a
    `MonitorVars` value, and each method is specified by a pure function on
    that value (`Process`, `Step`, `Steps`).  Text sent with `uart_msg_put` is
    the `Text` of a string literal. */
module Monitor {
  import opened Bytes
  import opened RingBuffer
  import opened Uart
  import Timer
  import FlowCalc

  const MSG_BUF_SIZE: nat := 10
  const CODE_VERSION: string := "2.0 2016/09/29"

  const CTRL_B: byte := 0x02
  const BS: byte := 0x08
  const CR: byte := 0x0D
  const DEL: byte := 0x7F

  /** `display_mode`.  monitor.h declares QUIET, NORMAL and DEBUG; the code of
      monitor.cpp also uses ADC. */
  datatype DisplayMode = Quiet | Normal | Debug | Adc

  /** The values the displays print that other modules compute: `flow`
      (from `calc_flow`), `freq`, the three `adc_vals` and `SystemCoreClock`. */
  datatype Sensors = Sensors(flow: int, freq: int, adc0: u32, adc1: u32, adc2: u32, coreClock: u32)

  // ---------------------------------------------------------------------
  // Commands
  // ---------------------------------------------------------------------

  /** `chr -= ('a' - 'A')` for a lower-case letter. */
  function Capitalize(c: byte): (r: byte)
    ensures 'a' as int <= c <= 'z' as int ==> r == c - 32
    ensures !('a' as int <= c <= 'z' as int) ==> r == c
  {
    if 'a' as int <= c <= 'z' as int then c - ('a' as int - 'A' as int) else c
  }

  /** Capitalizing leaves no lower-case letter, is idempotent, and maps a
      letter and its lower-case form to the same command. */
  lemma CapitalizeFolds(c: byte)
    ensures !('a' as int <= Capitalize(c) <= 'z' as int)
    ensures Capitalize(Capitalize(c)) == Capitalize(c)
    ensures 'A' as int <= c <= 'Z' as int ==> Capitalize(c + 32) == c
  {
  }

  /** The `display_mode` assignments of `process_message`. */
  function NextMode(mode: DisplayMode, chr: byte): DisplayMode
  {
    match mode
    case Debug => if chr == 'N' as int then Normal else Debug
    case _ =>
      if chr == 'A' as int then Adc
      else if chr == 'D' as int then Debug
      else if chr == 'N' as int then Normal
      else if chr == 'Q' as int then Quiet
      else mode
  }

  /** The mode commands of the main menu as a table. */
  const MODE_COMMANDS: map<byte, DisplayMode> :=
    map['A' as int := Adc, 'D' as int := Debug, 'N' as int := Normal, 'Q' as int := Quiet]

  /** Outside DEBUG the mode follows the table and every other byte keeps it;
      in DEBUG only `N` leaves, to NORMAL. */
  lemma NextModeFollowsTable(mode: DisplayMode, chr: byte)
    ensures mode != Debug ==>
      NextMode(mode, chr) == if chr in MODE_COMMANDS then MODE_COMMANDS[chr] else mode
    ensures mode == Debug ==> (NextMode(mode, chr) != Debug <==> chr == 'N' as int)
    ensures mode == Debug && NextMode(mode, chr) != Debug ==> NextMode(mode, chr) == Normal
  {
  }

  /** Sending the same command twice sets the same mode as sending it once. */
  lemma NextModeIdempotent(mode: DisplayMode, chr: byte)
    ensures NextMode(NextMode(mode, chr), chr) == NextMode(mode, chr)
  {
  }

  /** `input_mode` after `process_message`: only DEBUG `M` touches it, and it
      opens the address input when `M` arrived alone (index 1). */
  function NextInputMode(mode: DisplayMode, chr: byte, idx: byte, inputMode: int): int
  {
    if mode == Debug && chr == 'M' as int then (if idx == 1 then 1 else 0) else inputMode
  }

  // ---------------------------------------------------------------------
  // Texts
  // ---------------------------------------------------------------------

  /** `display_menu`. */
  const MAIN_MENU: seq<byte> :=
    Text("\r\nMain\r\n") + Text("N - Normal\r\n") + Text("Q - Quiet\r\n") + Text("D - Debug\r\n")
    + Text("A - ADCs\r\n") + Text("I - SysInfo\r\n") + Text("V - Version\r\n") + Text("-> ")

  /** `debug_menu`. */
  const DEBUG_MENU: seq<byte> :=
    Text("\r\nDebug\r\n") + Text("R - Registers\r\n") + Text("M - Memory\r\n") + Text("S - Stack\r\n")
    + Text("F - Flow Data\r\n") + Text("I - SysInfo\r\n") + Text("V - Version\r\n") + Text("N - Normal\r\n")
    + Text("-> ")

  /** `display_version`. */
  const VERSION_TEXT: seq<byte> := Text("\r\nVer: ") + Text(CODE_VERSION) + Text("\r\n")

  /** `"\b \b"`: the echo that erases the last character on the terminal. */
  const RUB_OUT: seq<byte> := [BS, ' ' as int, BS]

  /** `display_sysinfo`. */
  function SysInfoText(coreClock: u32, isr: u32): seq<byte>
  {
    Text("\r\n") + Text("System Information:\r\n") + Text(" Core clock: ") + Decimal(coreClock)
    + Text("\r\n") + Text(" Timer ISRs: ") + Decimal(isr) + Text("\r\n")
  }

  /** `convert_temp`: the ADC reading of the internal sensor in degrees C,
      computed in `unsigned int` and returned as an `int`. */
  function ConvertTemp(v: u32): (t: int)
    ensures t == FlowCalc.Temperature(v)
  {
    Int32(Wrap32(25 - Wrap32(v - FlowCalc.V_TEMP25 as int) / FlowCalc.M))
  }

  /** `display_readings`.  `uart_dec_put` takes an `unsigned int`. */
  function ReadingsText(s: Sensors): seq<byte>
  {
    Text("\r\n") + Text(" Flow: ") + Decimal(Wrap32(s.flow)) + Text("  Temp: ")
    + Decimal(Wrap32(ConvertTemp(s.adc2))) + Text("  Freq: ") + Decimal(Wrap32(s.freq))
  }

  /** `display_adcs`, with words printed as by `uart_hex_word_put`. */
  function AdcsText(s: Sensors): seq<byte>
  {
    Text(" ADC CH0: ") + HexWord(s.adc0) + Text("  CH1: ") + HexWord(s.adc1)
    + Text(" CH2: ") + HexWord(s.adc2) + Text("\r\n")
  }

  // ---------------------------------------------------------------------
  // The address parameter of the memory display
  // ---------------------------------------------------------------------

  /** The digits `display_memory` accepts: '0'..'9', 'A'..'F' and 'a'..'f'. */
  predicate IsHexChar(c: byte)
  {
    '0' as int <= c <= '9' as int || 'A' as int <= c <= 'F' as int || 'a' as int <= c <= 'f' as int
  }

  /** On those digits, the `digit` of `display_memory` is what `asc_to_hex`
      reads. */
  lemma HexCharValue(c: byte)
    requires IsHexChar(c)
    ensures AscToHex(c) < 16 && c != 0
    ensures '0' as int <= c <= '9' as int ==> AscToHex(c) == c - '0' as int
    ensures 'A' as int <= c <= 'F' as int ==> AscToHex(c) == 10 + c - 'A' as int
    ensures 'a' as int <= c <= 'f' as int ==> AscToHex(c) == 10 + c - 'a' as int
  {
  }

  /** An upper-case hex digit is a digit `display_memory` accepts. */
  lemma UpperIsHexChar(c: byte)
    requires IsUpperHexDigit(c)
    ensures IsHexChar(c) && c != 0
  {
  }

  lemma {:induction false} Pow16Monotone(m: nat, n: nat)
    requires m <= n
    ensures Pow16(m) <= Pow16(n)
    decreases n
  {
    if m < n {
      Pow16Monotone(m, n - 1);
    }
  }

  lemma Pow16Word(n: nat)
    requires n <= 8
    ensures Pow16(n) <= 0x1_0000_0000
  {
    Pow16Monotone(n, 8);
    assert Pow16(8) == 0x1_0000_0000;
  }

  /** `n` hex digits read as a number below 16^n. */
  lemma {:induction false} HexValueBound(s: seq<byte>)
    requires forall k :: 0 <= k < |s| ==> IsHexChar(s[k])
    ensures HexValue(s) < Pow16(|s|)
  {
    if s != [] {
      HexValueBound(s[..|s| - 1]);
      HexCharValue(s[|s| - 1]);
    }
  }

  /** One pass of the `display_memory` digit loop: with `i - 1` digits read
      into `a`, shifting in digit `i` neither wraps nor loses a digit. */
  lemma HexDigitStep(buf: seq<byte>, i: nat, a: int)
    requires |buf| == MSG_BUF_SIZE && 1 <= i < 9 && IsHexChar(buf[i])
    requires a == HexValue(buf[1..i]) && a < Pow16(i - 1)
    ensures AscToHex(buf[i]) < 16 && buf[i] != 0
    ensures '0' as int <= buf[i] <= '9' as int ==> AscToHex(buf[i]) == buf[i] - '0' as int
    ensures 'A' as int <= buf[i] <= 'F' as int ==> AscToHex(buf[i]) == 10 + buf[i] - 'A' as int
    ensures 'a' as int <= buf[i] <= 'f' as int ==> AscToHex(buf[i]) == 10 + buf[i] - 'a' as int
    ensures a * 16 + AscToHex(buf[i]) == HexValue(buf[1..i + 1]) < Pow16(i) <= 0x1_0000_0000
  {
    HexCharValue(buf[i]);
    Pow16Word(i);
    assert buf[1..i + 1][..i - 1] == buf[1..i];
  }

  /** The address `display_memory` reads from `msg_buf[1..8]`: the hex digits up
      to the first NUL, or `None` ("Bad memory location!") when a byte before
      it is not a hex digit. */
  function HexAddress(buf: seq<byte>): (r: Option<u32>)
    requires |buf| == MSG_BUF_SIZE
  {
    var s := UntilNul(buf[1..9]);
    if forall k :: 0 <= k < |s| ==> IsHexChar(s[k]) then
      HexValueBound(s);
      Pow16Word(|s|);
      Some(HexValue(s))
    else
      None
  }

  /** A byte that is neither NUL nor a hex digit, before any NUL, makes the
      address bad; and a bad address always has such a byte. */
  lemma AddressRejects(buf: seq<byte>)
    requires |buf| == MSG_BUF_SIZE
    ensures HexAddress(buf) == None <==>
      exists k :: 1 <= k < 9 && 0 !in buf[1..k] && buf[k] != 0 && !IsHexChar(buf[k])
  {
    var s := UntilNul(buf[1..9]);
    if HexAddress(buf) == None {
      var i :| 0 <= i < |s| && !IsHexChar(s[i]);
      var field := buf[1..9];
      assert s == field[..|s|];
      assert forall m :: 0 <= m < i ==> buf[1..i + 1][m] == field[m] == s[m];
      assert buf[1..i + 1] == s[..i];
      assert buf[i + 1] == field[i] == s[i];
    } else {
      forall k | 1 <= k < 9 && 0 !in buf[1..k] && buf[k] != 0
        ensures IsHexChar(buf[k])
      {
        assert forall m :: 1 <= m < k ==> buf[m] == buf[1..k][m - 1];
        assert forall m :: 0 <= m < 8 ==> buf[1..9][m] == buf[m + 1];
        assert k - 1 < |s|;
        assert s[k - 1] == buf[k];
      }
    }
  }

  /** The early return of the parse loop: a byte at `i` that is neither NUL
      nor a digit, after digits only. */
  lemma NotHexRejected(buf: seq<byte>, i: nat)
    requires |buf| == MSG_BUF_SIZE && 1 <= i < 9
    requires forall k :: 1 <= k < i ==> buf[k] != 0
    requires buf[i] != 0 && !IsHexChar(buf[i])
    ensures HexAddress(buf) == None
  {
    AddressRejects(buf);
    assert 0 !in buf[1..i];
  }

  /** The end of the `display_memory` digit loop: digits up to a NUL or to
      the end of the field give the value read so far. */
  lemma HexDigitsEnd(buf: seq<byte>, i: nat, a: int)
    requires |buf| == MSG_BUF_SIZE && 1 <= i <= 9 && (i == 9 || buf[i] == 0)
    requires forall k :: 1 <= k < i ==> buf[k] != 0 && IsHexChar(buf[k])
    requires a == HexValue(buf[1..i]) && a < Pow16(i - 1)
    ensures HexAddress(buf) == Some(a)
  {
    assert forall m :: 0 <= m < i - 1 ==> buf[1..9][..i - 1][m] == buf[m + 1] == buf[1..i][m];
    assert buf[1..9][..i - 1] == buf[1..i];
    UntilNulPrefix(buf[1..9], i - 1);
  }

  /** Reading back: `n <= 8` digits of a number below 16^n, ended by a NUL or
      by the end of the field, give that number. */
  lemma AddressRoundTrip(buf: seq<byte>, x: nat, n: nat)
    requires |buf| == MSG_BUF_SIZE && n <= 8 && x < Pow16(n)
    requires buf[1..n + 1] == HexDigits(x, n)
    requires n == 8 || buf[n + 1] == 0
    ensures HexAddress(buf) == Some(x)
  {
    var d := HexDigits(x, n);
    HexDigitsAreDigits(x, n);
    forall k | 0 <= k < n ensures IsHexChar(d[k]) && d[k] != 0 {
      UpperIsHexChar(d[k]);
    }
    assert buf[1..9][..n] == d;
    UntilNulPrefix(buf[1..9], n);
    HexDigitsRoundTrip(x, n);
  }

  /** In particular the eight digits `uart_hex_word_put` prints for a word
      read back as that word. */
  lemma AddressOfWord(buf: seq<byte>, w: u32)
    requires |buf| == MSG_BUF_SIZE && buf[1..9] == HexWord(w)
    ensures HexAddress(buf) == Some(w)
  {
    assert Pow16(8) == 0x1_0000_0000;
    AddressRoundTrip(buf, w, 8);
  }

  /** What `display_memory` prints before the dump. */
  function MemoryText(buf: seq<byte>): seq<byte>
    requires |buf| == MSG_BUF_SIZE
  {
    if HexAddress(buf).None? then Text("\r\nBad memory location!\r\n") else Text("\r\nMemory:\r\n")
  }

  // ---------------------------------------------------------------------
  // process_message
  // ---------------------------------------------------------------------

  /** The monitor's globals: `msg_buf`, `msg_buf_idx`, `input_mode`,
      `display_mode`, and the timer's `display_timer` it resets. */
  datatype MonitorVars = MonitorVars(buf: seq<byte>, idx: byte, inputMode: int, mode: DisplayMode, displayTimer: byte)

  /** What `process_message` sends for the command letter `chr`. */
  function Reply(mode: DisplayMode, chr: byte, idx: byte, buf: seq<byte>, s: Sensors, isr: u32): seq<byte>
    requires |buf| == MSG_BUF_SIZE
  {
    match mode
    case Debug =>
      if chr == 'R' as int then Text("\r\nRegisters:\r\n")
      else if chr == 'M' as int then (if idx == 1 then Text("\r\nAddr? -> ") else MemoryText(buf))
      else if chr == 'S' as int then Text("\r\nStack (recent first):\r\n")
      else if chr == 'F' as int then ReadingsText(s) + Text("\r\n")
      else if chr == 'I' as int then SysInfoText(s.coreClock, isr)
      else if chr == 'N' as int then Text("\r\nMode -> Normal\r\n")
      else if chr == 'V' as int then VERSION_TEXT
      else if chr == '?' as int then DEBUG_MENU
      else Text("\r\nDebug (? menu) -> ")
    case _ =>
      if chr == 'A' as int then Text("\r\nMode -> ADC\r\n")
      else if chr == 'D' as int then Text("\r\nMode -> DEBUG\r\n") + DEBUG_MENU
      else if chr == 'N' as int then Text("\r\nMode -> NORMAL\r\n")
      else if chr == 'Q' as int then Text("\r\nMode -> QUIET\r\n")
      else if chr == 'I' as int then SysInfoText(s.coreClock, isr)
      else if chr == 'V' as int then VERSION_TEXT
      else if chr == '?' as int then MAIN_MENU
      else Text("\r\nMain (? menu) -> ")
  }

  /** `process_message` on the message in `v.buf`: the new globals and the
      text sent. */
  function Process(v: MonitorVars, s: Sensors, isr: u32): (MonitorVars, seq<byte>)
    requires |v.buf| == MSG_BUF_SIZE
  {
    var chr := Capitalize(v.buf[0]);
    var inputMode := NextInputMode(v.mode, chr, v.idx, v.inputMode);
    var resetTimer := inputMode == 0 || (v.mode != Debug && chr == 'A' as int);
    (v.(mode := NextMode(v.mode, chr), inputMode := inputMode,
        idx := if inputMode == 0 then 0 else v.idx,
        displayTimer := if resetTimer then 0 else v.displayTimer),
     Reply(v.mode, chr, v.idx, v.buf, s, isr))
  }

  /** Handling the first `k + 1` received bytes is handling the first `k`
      and then byte `k`: the output of that step follows the output so far. */
  lemma StepsNext(v: MonitorVars, js: seq<byte>, k: nat, s: Sensors, isr: u32)
    requires Inv(v) && k < |js|
    ensures Steps(v, js[..k + 1], s, isr)
         == (Step(Steps(v, js[..k], s, isr).0, js[k], s, isr).0,
             Steps(v, js[..k], s, isr).1 + Step(Steps(v, js[..k], s, isr).0, js[k], s, isr).1)
  {
    assert js[..k + 1][..k] == js[..k];
  }

  /** Commands are case-insensitive: a lower-case letter has exactly the
      effect of its upper-case form, apart from the byte left in `msg_buf`. */
  lemma ProcessIgnoresCase(v: MonitorVars, s: Sensors, isr: u32)
    requires |v.buf| == MSG_BUF_SIZE && 'a' as int <= v.buf[0] <= 'z' as int
    ensures var w := v.(buf := v.buf[0 := v.buf[0] - 32]);
      Process(v, s, isr).1 == Process(w, s, isr).1 &&
      Process(v, s, isr).0 == Process(w, s, isr).0.(buf := v.buf)
  {
    var w := v.(buf := v.buf[0 := v.buf[0] - 32]);
    assert w.buf[1..9] == v.buf[1..9];
    assert HexAddress(w.buf) == HexAddress(v.buf);
    assert Capitalize(w.buf[0]) == Capitalize(v.buf[0]);
  }

  // ---------------------------------------------------------------------
  // read_message_from_uart
  // ---------------------------------------------------------------------

  /** What holds between two received bytes.  In single-character mode the
      index is 0; in the address input the command letter `M` stays at index 0,
      DEBUG mode holds, and the index is 1..9, so that the terminator still
      fits. */
  ghost predicate Inv(v: MonitorVars)
  {
    |v.buf| == MSG_BUF_SIZE &&
    (v.inputMode == 0 ==> v.idx == 0) &&
    (v.inputMode != 0 ==>
      v.inputMode == 1 && v.mode == Debug && Capitalize(v.buf[0]) == 'M' as int && 1 <= v.idx < MSG_BUF_SIZE)
  }

  /** One pass of the loop of `read_message_from_uart` on byte `j`, with the
      store guard of line 119 corrected to `msg_buf_idx < MSG_BUF_SIZE - 1`,
      which leaves room for the terminator (see `StepAsWritten`). */
  function Step(v: MonitorVars, j: byte, s: Sensors, isr: u32): (MonitorVars, seq<byte>)
    requires Inv(v)
  {
    if v.inputMode == 0 then
      Process(v.(buf := v.buf[v.idx := j], idx := v.idx + 1), s, isr)
    else if j == CR then
      Process(v.(buf := v.buf[v.idx := 0], idx := v.idx + 1), s, isr)
    else if j == BS || j == DEL then
      if v.idx != 1 then (v.(idx := v.idx - 1), RUB_OUT) else (v, [])
    else if v.idx < MSG_BUF_SIZE - 1 then
      (v.(buf := v.buf[v.idx := j], idx := v.idx + 1), if j != CTRL_B then [j] else [])
    else
      (v, [])
  }

  /** Every received byte keeps the invariant, so every store into `msg_buf`
      is in bounds. */
  lemma StepKeepsInv(v: MonitorVars, j: byte, s: Sensors, isr: u32)
    requires Inv(v)
    ensures Inv(Step(v, j, s, isr).0)
  {
  }

  /** In single-character mode every byte is a complete command, which leaves
      index and `display_timer` at 0, except DEBUG `M`, which opens the
      address input with the index at 1. */
  lemma SingleCharCommand(v: MonitorVars, j: byte, s: Sensors, isr: u32)
    requires Inv(v) && v.inputMode == 0
    ensures var w := Step(v, j, s, isr).0;
      (w.inputMode == 1 <==> v.mode == Debug && Capitalize(j) == 'M' as int) &&
      (w.inputMode == 0 ==> w.idx == 0 && w.displayTimer == 0) &&
      (w.inputMode == 1 ==> w.idx == 1 && w.mode == Debug) &&
      w.mode == NextMode(v.mode, Capitalize(j))
  {
  }

  /** In the address input: CR ends the message, NUL-terminated, and prints
      the memory display; backspace and DEL take back one character but never
      the command letter; other bytes are stored and echoed while there is
      room, and dropped silently after that. */
  lemma AddressInput(v: MonitorVars, j: byte, s: Sensors, isr: u32)
    requires Inv(v) && v.inputMode == 1
    ensures var (w, out) := Step(v, j, s, isr);
      (j == CR ==> w.inputMode == 0 && w.idx == 0 && w.displayTimer == 0 && w.mode == Debug &&
                   out == MemoryText(v.buf[v.idx := 0])) &&
      ((j == BS || j == DEL) ==> w.idx == (if v.idx == 1 then 1 else v.idx - 1) && w.buf == v.buf) &&
      (j != CR && j != BS && j != DEL ==>
        w.idx == (if v.idx < MSG_BUF_SIZE - 1 then v.idx + 1 else v.idx) &&
        (v.idx < MSG_BUF_SIZE - 1 ==> w.buf == v.buf[v.idx := j]) &&
        (v.idx == MSG_BUF_SIZE - 1 ==> w == v && out == []))
  {
  }

  /** `read_message_from_uart` on the received bytes `js`, oldest first: the
      new globals and all the text sent. */
  ghost function Steps(v: MonitorVars, js: seq<byte>, s: Sensors, isr: u32): (r: (MonitorVars, seq<byte>))
    requires Inv(v)
    ensures Inv(r.0)
    decreases |js|
  {
    if js == [] then (v, [])
    else
      var p := Steps(v, js[..|js| - 1], s, isr);
      var j := js[|js| - 1];
      StepKeepsInv(p.0, j, s, isr);
      var q := Step(p.0, j, s, isr);
      (q.0, p.1 + q.1)
  }

  // ---------------------------------------------------------------------
  // The store guard of line 119 as written
  // ---------------------------------------------------------------------

  /** `Inv` with the guard as written, `msg_buf_idx < MSG_BUF_SIZE`: the
      address input may fill the buffer up to index 10. */
  ghost predicate InvAsWritten(v: MonitorVars)
  {
    |v.buf| == MSG_BUF_SIZE &&
    (v.inputMode == 0 ==> v.idx == 0) &&
    (v.inputMode != 0 ==>
      v.inputMode == 1 && v.mode == Debug && Capitalize(v.buf[0]) == 'M' as int && 1 <= v.idx <= MSG_BUF_SIZE)
  }

  /** One pass of the loop of `read_message_from_uart` with the store guard
      as written.  `None` stands for the terminator store `msg_buf[10] = 0`
      of a CR at index 10, one past the end of the buffer. */
  function StepAsWritten(v: MonitorVars, j: byte, s: Sensors, isr: u32): Option<(MonitorVars, seq<byte>)>
    requires InvAsWritten(v)
  {
    if v.inputMode == 0 then
      Some(Process(v.(buf := v.buf[v.idx := j], idx := v.idx + 1), s, isr))
    else if j == CR then
      if v.idx < MSG_BUF_SIZE then Some(Process(v.(buf := v.buf[v.idx := 0], idx := v.idx + 1), s, isr))
      else None
    else if j == BS || j == DEL then
      Some(if v.idx != 1 then (v.(idx := v.idx - 1), RUB_OUT) else (v, []))
    else if v.idx < MSG_BUF_SIZE then
      Some((v.(buf := v.buf[v.idx := j], idx := v.idx + 1), if j != CTRL_B then [j] else []))
    else
      Some((v, []))
  }

  lemma StepAsWrittenKeepsInv(v: MonitorVars, j: byte, s: Sensors, isr: u32)
    requires InvAsWritten(v) && StepAsWritten(v, j, s, isr).Some?
    ensures InvAsWritten(StepAsWritten(v, j, s, isr).value.0)
  {
  }

  /** `read_message_from_uart` with the guard as written on the bytes `js`;
      `None` once a store has gone past the end of `msg_buf`. */
  ghost function StepsAsWritten(v: MonitorVars, js: seq<byte>, s: Sensors, isr: u32): (r: Option<(MonitorVars, seq<byte>)>)
    requires InvAsWritten(v)
    ensures r.Some? ==> InvAsWritten(r.value.0)
    decreases |js|
  {
    if js == [] then Some((v, []))
    else
      match StepsAsWritten(v, js[..|js| - 1], s, isr)
      case None => None
      case Some(p) =>
        var j := js[|js| - 1];
        match StepAsWritten(p.0, j, s, isr)
        case None => None
        case Some(q) =>
          StepAsWrittenKeepsInv(p.0, j, s, isr);
          Some((q.0, p.1 + q.1))
  }

  /** The corrected `Step` and the step as written differ on exactly one
      kind of byte: an ordinary byte at index 9 of the address input, which
      the code as written stores at `msg_buf[9]` and echoes, and the
      corrected step drops. */
  lemma StepAgreesAsWritten(v: MonitorVars, j: byte, s: Sensors, isr: u32)
    requires Inv(v)
    ensures InvAsWritten(v)
    ensures StepAsWritten(v, j, s, isr) == Some(Step(v, j, s, isr)) <==>
      !(v.inputMode == 1 && v.idx == MSG_BUF_SIZE - 1 && j != CR && j != BS && j != DEL)
    ensures v.inputMode == 1 && v.idx == MSG_BUF_SIZE - 1 && j != CR && j != BS && j != DEL ==>
      StepAsWritten(v, j, s, isr) ==
        Some((v.(buf := v.buf[MSG_BUF_SIZE - 1 := j], idx := MSG_BUF_SIZE), if j != CTRL_B then [j] else [])) &&
      Step(v, j, s, isr) == (v, [])
  {
  }

  /** As written, ordinary bytes in the address input are stored and echoed
      up to index 10, after which they are dropped. */
  lemma {:induction false} StoresAsWritten(v: MonitorVars, js: seq<byte>, s: Sensors, isr: u32)
    requires InvAsWritten(v) && v.inputMode == 1
    requires forall k :: 0 <= k < |js| ==> js[k] != CR && js[k] != BS && js[k] != DEL
    ensures StepsAsWritten(v, js, s, isr).Some?
    ensures StepsAsWritten(v, js, s, isr).value.0.inputMode == 1
    ensures StepsAsWritten(v, js, s, isr).value.0.idx ==
      if v.idx + |js| <= MSG_BUF_SIZE then v.idx + |js| else MSG_BUF_SIZE
    decreases |js|
  {
    if js != [] {
      StoresAsWritten(v, js[..|js| - 1], s, isr);
    }
  }

  /** So, as written, `M` (which opens the address input at index 1) followed
      by nine or more ordinary bytes and a CR stores the terminator at
      `msg_buf[10]`, one past the end of the buffer. */
  lemma TerminatorOutOfBounds(v: MonitorVars, js: seq<byte>, s: Sensors, isr: u32)
    requires InvAsWritten(v) && v.inputMode == 1 && v.idx == 1 && |js| >= MSG_BUF_SIZE - 1
    requires forall k :: 0 <= k < |js| ==> js[k] != CR && js[k] != BS && js[k] != DEL
    ensures StepsAsWritten(v, js + [CR], s, isr) == None
  {
    StoresAsWritten(v, js, s, isr);
    assert (js + [CR])[..|js|] == js;
  }

  /** With the corrected guard the index after `M` and any number of
      ordinary bytes stays below 10, so the terminator always fits. */
  lemma {:induction false} CorrectedStoresFit(v: MonitorVars, js: seq<byte>, s: Sensors, isr: u32)
    requires Inv(v) && v.inputMode == 1
    requires forall k :: 0 <= k < |js| ==> js[k] != CR && js[k] != BS && js[k] != DEL
    ensures Steps(v, js, s, isr).0.inputMode == 1
    ensures Steps(v, js, s, isr).0.idx < MSG_BUF_SIZE
    ensures Steps(v, js, s, isr).0.idx == if v.idx + |js| < MSG_BUF_SIZE then v.idx + |js| else MSG_BUF_SIZE - 1
    decreases |js|
  {
    if js != [] {
      CorrectedStoresFit(v, js[..|js| - 1], s, isr);
    }
  }

  // ---------------------------------------------------------------------
  // The periodic display
  // ---------------------------------------------------------------------

  /** What `monitor()` prints: the readings in NORMAL mode and the ADC line in
      ADC mode, each only when `display_flag` is 1. */
  function DisplayText(mode: DisplayMode, flag: byte, s: Sensors): (r: seq<byte>)
    ensures r != [] <==> flag == 1 && (mode == Normal || mode == Adc)
  {
    if flag != 1 then []
    else match mode
      case Normal => TextNotEmpty("\r\n"); ReadingsText(s)
      case Adc => TextNotEmpty(" ADC CH0: "); AdcsText(s)
      case _ => []
  }

  // ---------------------------------------------------------------------
  // The module state
  // ---------------------------------------------------------------------

  class Console {
    const uart: Uart
    const timer: Timer.Timer
    const msgBuf: array<byte>
    var msgBufIdx: byte
    var inputMode: int
    var displayMode: DisplayMode

    ghost predicate Valid()
      reads this, uart
    {
      uart.Valid() && msgBuf.Length == MSG_BUF_SIZE && msgBuf != uart.rxBuf && msgBuf != uart.txBuf
    }

    ghost function Vars(): MonitorVars
      reads this, msgBuf, timer
    {
      MonitorVars(msgBuf[..], msgBufIdx, inputMode, displayMode, timer.displayTimer)
    }

    /** The static storage of monitor.cpp: a zeroed buffer, index 0,
        single-character input, NORMAL mode. */
    constructor (u: Uart, t: Timer.Timer)
      requires u.Valid()
      ensures Valid() && uart == u && timer == t && fresh(msgBuf)
      ensures Vars() == MonitorVars(seq(MSG_BUF_SIZE, _ => 0), 0, 0, Normal, t.displayTimer)
      ensures Inv(Vars())
    {
      uart := u;
      timer := t;
      msgBuf := new byte[MSG_BUF_SIZE](_ => 0);
      msgBufIdx := 0;
      inputMode := 0;
      displayMode := Normal;
    }

    /** `uart_msg_put(str)` as one piece of a longer text: `sofar` has been
        sent since the ring was `t`. */
    method Say(ghost t: Ring, ghost sofar: seq<byte>, str: string) returns (ghost sent: seq<byte>)
      requires Valid() && t.Valid() && uart.Tx() == t.PutAll(sofar)
      modifies uart`txIn, uart.txBuf
      ensures Valid() && sent == sofar + Text(str) && uart.Tx() == t.PutAll(sent)
    {
      uart.MsgPut(Ascii(str));
      PutAllConcat(t, sofar, Text(str));
      sent := sofar + Text(str);
    }

    /** `uart_dec_put(num)` as one piece of a longer text. */
    method SayDecimal(ghost t: Ring, ghost sofar: seq<byte>, num: u32) returns (ghost sent: seq<byte>)
      requires Valid() && t.Valid() && uart.Tx() == t.PutAll(sofar)
      modifies uart`txIn, uart.txBuf
      ensures Valid() && sent == sofar + Decimal(num) && uart.Tx() == t.PutAll(sent)
    {
      uart.DecPut(num);
      PutAllConcat(t, sofar, Decimal(num));
      sent := sofar + Decimal(num);
    }

    /** `uart_hex_word_put(word)` as one piece of a longer text. */
    method SayWord(ghost t: Ring, ghost sofar: seq<byte>, word: u32) returns (ghost sent: seq<byte>)
      requires Valid() && t.Valid() && uart.Tx() == t.PutAll(sofar)
      modifies uart`txIn, uart.txBuf
      ensures Valid() && sent == sofar + HexWord(word) && uart.Tx() == t.PutAll(sent)
    {
      uart.HexWordPut(word);
      PutAllConcat(t, sofar, HexWord(word));
      sent := sofar + HexWord(word);
    }

    /** `display_menu`. */
    method DisplayMenu()
      requires Valid()
      modifies uart`txIn, uart.txBuf
      ensures Valid() && uart.Tx() == old(uart.Tx()).PutAll(MAIN_MENU)
    {
      ghost var t := uart.Tx();
      uart.MsgPut(Ascii("\r\nMain\r\n"));
      ghost var out := Text("\r\nMain\r\n");
      out := Say(t, out, "N - Normal\r\n");
      out := Say(t, out, "Q - Quiet\r\n");
      out := Say(t, out, "D - Debug\r\n");
      out := Say(t, out, "A - ADCs\r\n");
      out := Say(t, out, "I - SysInfo\r\n");
      out := Say(t, out, "V - Version\r\n");
      out := Say(t, out, "-> ");
      assert out == MAIN_MENU;
    }

    /** `debug_menu`. */
    method DebugMenu()
      requires Valid()
      modifies uart`txIn, uart.txBuf
      ensures Valid() && uart.Tx() == old(uart.Tx()).PutAll(DEBUG_MENU)
    {
      ghost var t := uart.Tx();
      uart.MsgPut(Ascii("\r\nDebug\r\n"));
      ghost var out := Text("\r\nDebug\r\n");
      out := Say(t, out, "R - Registers\r\n");
      out := Say(t, out, "M - Memory\r\n");
      out := Say(t, out, "S - Stack\r\n");
      out := Say(t, out, "F - Flow Data\r\n");
      out := Say(t, out, "I - SysInfo\r\n");
      out := Say(t, out, "V - Version\r\n");
      out := Say(t, out, "N - Normal\r\n");
      out := Say(t, out, "-> ");
      assert out == DEBUG_MENU;
    }

    /** `display_version`. */
    method DisplayVersion()
      requires Valid()
      modifies uart`txIn, uart.txBuf
      ensures Valid() && uart.Tx() == old(uart.Tx()).PutAll(VERSION_TEXT)
    {
      ghost var t := uart.Tx();
      uart.MsgPut(Ascii("\r\nVer: "));
      ghost var out := Text("\r\nVer: ");
      out := Say(t, out, CODE_VERSION);
      out := Say(t, out, "\r\n");
      assert out == VERSION_TEXT;
    }

    /** `display_sysinfo`, with `SystemCoreClock` as a parameter. */
    method DisplaySysinfo(coreClock: u32)
      requires Valid()
      modifies uart`txIn, uart.txBuf
      ensures Valid() && uart.Tx() == old(uart.Tx()).PutAll(SysInfoText(coreClock, timer.swTimerIsrCounter))
    {
      ghost var t := uart.Tx();
      uart.MsgPut(Ascii("\r\n"));
      ghost var out := Text("\r\n");
      out := Say(t, out, "System Information:\r\n");
      out := Say(t, out, " Core clock: ");
      out := SayDecimal(t, out, coreClock);
      out := Say(t, out, "\r\n");
      out := Say(t, out, " Timer ISRs: ");
      out := SayDecimal(t, out, timer.swTimerIsrCounter);
      out := Say(t, out, "\r\n");
    }

    /** `display_readings`. */
    method DisplayReadings(s: Sensors)
      requires Valid()
      modifies uart`txIn, uart.txBuf
      ensures Valid() && uart.Tx() == old(uart.Tx()).PutAll(ReadingsText(s))
    {
      ghost var t := uart.Tx();
      uart.MsgPut(Ascii("\r\n"));
      ghost var out := Text("\r\n");
      out := Say(t, out, " Flow: ");
      out := SayDecimal(t, out, Wrap32(s.flow));
      out := Say(t, out, "  Temp: ");
      out := SayDecimal(t, out, Wrap32(ConvertTemp(s.adc2)));
      out := Say(t, out, "  Freq: ");
      out := SayDecimal(t, out, Wrap32(s.freq));
    }

    /** `display_adcs`. */
    method DisplayAdcs(s: Sensors)
      requires Valid()
      modifies uart`txIn, uart.txBuf
      ensures Valid() && uart.Tx() == old(uart.Tx()).PutAll(AdcsText(s))
    {
      ghost var t := uart.Tx();
      uart.MsgPut(Ascii(" ADC CH0: "));
      ghost var out := Text(" ADC CH0: ");
      out := SayWord(t, out, s.adc0);
      out := Say(t, out, "  CH1: ");
      out := SayWord(t, out, s.adc1);
      out := Say(t, out, " CH2: ");
      out := SayWord(t, out, s.adc2);
      out := Say(t, out, "\r\n");
    }

    /** The parse half of `display_memory`: up to eight hex digits from
        `msg_buf[1]` on, ended by a NUL, accumulated as `addr = addr * 16 +
        digit` in `unsigned int`; `None` for a byte that is not a digit. */
    method ParseAddress() returns (addr: Option<u32>)
      requires Valid()
      ensures addr == HexAddress(msgBuf[..])
    {
      ghost var buf := msgBuf[..];
      var a: u32 := 0;
      var i := 1;
      while i < 9
        invariant 1 <= i <= 9
        invariant forall k :: 1 <= k < i ==> buf[k] != 0 && IsHexChar(buf[k])
        invariant a == HexValue(buf[1..i]) && a < Pow16(i - 1)
      {
        var chr := msgBuf[i];
        if chr == 0 {
          break;
        }
        var digit := -1;
        if '0' as int <= chr <= '9' as int {
          digit := chr - '0' as int;
        }
        if 'A' as int <= chr <= 'F' as int {
          digit := 10 + chr - 'A' as int;
        }
        if 'a' as int <= chr <= 'f' as int {
          digit := 10 + chr - 'a' as int;
        }
        if digit < 0 {
          NotHexRejected(buf, i);
          return None;
        }
        HexDigitStep(buf, i, a);
        a := Wrap32(a * 16);
        a := Wrap32(a + digit);
        i := i + 1;
      }
      HexDigitsEnd(buf, i, a);
      addr := Some(a);
    }

    /** `display_memory` up to the dump: the address is parsed, and either
        "Bad memory location!" or the "Memory:" header is printed. */
    method DisplayMemory()
      requires Valid()
      modifies uart`txIn, uart.txBuf
      ensures Valid() && uart.Tx() == old(uart.Tx()).PutAll(MemoryText(msgBuf[..]))
    {
      var addr := ParseAddress();
      if addr.None? {
        uart.MsgPut(Ascii("\r\nBad memory location!\r\n"));
        return;
      }
      uart.MsgPut(Ascii("\r\nMemory:\r\n"));
    }

    /** `process_message`: interpret the command letter in `msg_buf[0]` for the
        current display mode. */
    method ProcessMessage(s: Sensors)
      requires Valid()
      modifies this`displayMode, this`inputMode, this`msgBufIdx, timer`displayTimer, uart`txIn, uart.txBuf
      ensures Valid()
      ensures Vars() == Process(old(Vars()), s, timer.swTimerIsrCounter).0
      ensures uart.Tx() == old(uart.Tx()).PutAll(Process(old(Vars()), s, timer.swTimerIsrCounter).1)
    {
      ghost var v := Vars();
      ghost var r := Process(v, s, timer.swTimerIsrCounter);
      var chr := msgBuf[0];
      if 'a' as int <= chr <= 'z' as int {
        chr := chr - ('a' as int - 'A' as int);
      }
      assert chr == Capitalize(v.buf[0]);
      if displayMode != Debug {
        MainCommand(chr, s);
      } else {
        DebugCommand(chr, s);
      }
      assert uart.Tx() == old(uart.Tx()).PutAll(r.1);
      assert displayMode == r.0.mode && inputMode == r.0.inputMode;
      if inputMode == 0 {
        msgBufIdx := 0;
        timer.displayTimer := 0;
      }
    }

    /** The NORMAL, QUIET and ADC arm of `process_message`. */
    method MainCommand(chr: byte, s: Sensors)
      requires Valid() && displayMode != Debug
      modifies this`displayMode, timer`displayTimer, uart`txIn, uart.txBuf
      ensures Valid()
      ensures displayMode == NextMode(old(displayMode), chr)
      ensures timer.displayTimer == if chr == 'A' as int then 0 else old(timer.displayTimer)
      ensures uart.Tx() == old(uart.Tx()).PutAll(Reply(old(displayMode), chr, msgBufIdx, msgBuf[..], s, timer.swTimerIsrCounter))
    {
      if chr == 'A' as int || chr == 'D' as int || chr == 'N' as int || chr == 'Q' as int {
        ModeCommand(chr, s);
      } else {
        InfoCommand(chr, s);
      }
    }

    /** The mode-changing letters of the NORMAL, QUIET and ADC arm. */
    method ModeCommand(chr: byte, s: Sensors)
      requires Valid() && displayMode != Debug
      requires chr == 'A' as int || chr == 'D' as int || chr == 'N' as int || chr == 'Q' as int
      modifies this`displayMode, timer`displayTimer, uart`txIn, uart.txBuf
      ensures Valid()
      ensures displayMode == NextMode(old(displayMode), chr)
      ensures timer.displayTimer == if chr == 'A' as int then 0 else old(timer.displayTimer)
      ensures uart.Tx() == old(uart.Tx()).PutAll(Reply(old(displayMode), chr, msgBufIdx, msgBuf[..], s, timer.swTimerIsrCounter))
    {
      if chr == 'A' as int {
        displayMode := Adc;
        uart.MsgPut(Ascii("\r\nMode -> ADC\r\n"));
        timer.displayTimer := 0;
      } else if chr == 'D' as int {
        EnterDebug();
      } else if chr == 'N' as int {
        displayMode := Normal;
        uart.MsgPut(Ascii("\r\nMode -> NORMAL\r\n"));
      } else {
        displayMode := Quiet;
        uart.MsgPut(Ascii("\r\nMode -> QUIET\r\n"));
      }
    }

    /** 'D' outside DEBUG: announce the mode, switch to it and print its menu. */
    method EnterDebug()
      requires Valid()
      modifies this`displayMode, uart`txIn, uart.txBuf
      ensures Valid() && displayMode == Debug
      ensures uart.Tx() == old(uart.Tx()).PutAll(Text("\r\nMode -> DEBUG\r\n") + DEBUG_MENU)
    {
      ghost var t := uart.Tx();
      uart.MsgPut(Ascii("\r\nMode -> DEBUG\r\n"));
      displayMode := Debug;
      DebugMenu();
      PutAllConcat(t, Text("\r\nMode -> DEBUG\r\n"), DEBUG_MENU);
    }

    /** The letters of the NORMAL, QUIET and ADC arm that only print. */
    method InfoCommand(chr: byte, s: Sensors)
      requires Valid() && displayMode != Debug
      requires chr != 'A' as int && chr != 'D' as int && chr != 'N' as int && chr != 'Q' as int
      modifies uart`txIn, uart.txBuf
      ensures Valid()
      ensures uart.Tx() == old(uart.Tx()).PutAll(Reply(displayMode, chr, msgBufIdx, msgBuf[..], s, timer.swTimerIsrCounter))
    {
      if chr == 'I' as int {
        DisplaySysinfo(s.coreClock);
      } else if chr == 'V' as int {
        DisplayVersion();
      } else if chr == '?' as int {
        DisplayMenu();
      } else {
        uart.MsgPut(Ascii("\r\nMain (? menu) -> "));
      }
    }

    /** The DEBUG arm of `process_message`. */
    method DebugCommand(chr: byte, s: Sensors)
      requires Valid() && displayMode == Debug
      modifies this`displayMode, this`inputMode, uart`txIn, uart.txBuf
      ensures Valid()
      ensures displayMode == NextMode(Debug, chr)
      ensures inputMode == NextInputMode(Debug, chr, msgBufIdx, old(inputMode))
      ensures uart.Tx() == old(uart.Tx()).PutAll(Reply(Debug, chr, msgBufIdx, msgBuf[..], s, timer.swTimerIsrCounter))
    {
      ghost var t := uart.Tx();
      if chr == 'R' as int {
        DisplayRegisters();
      } else if chr == 'M' as int {
        if msgBufIdx == 1 {
          uart.MsgPut(Ascii("\r\nAddr? -> "));
          inputMode := 1;
        } else {
          inputMode := 0;
          DisplayMemory();
        }
      } else if chr == 'S' as int {
        DisplayStack();
      } else if chr == 'F' as int {
        DisplayReadings(s);
        uart.MsgPut(Ascii("\r\n"));
        PutAllConcat(t, ReadingsText(s), Text("\r\n"));
      } else if chr == 'I' as int {
        DisplaySysinfo(s.coreClock);
      } else if chr == 'N' as int {
        displayMode := Normal;
        uart.MsgPut(Ascii("\r\nMode -> Normal\r\n"));
      } else if chr == 'V' as int {
        DisplayVersion();
      } else if chr == '?' as int {
        DebugMenu();
      } else {
        uart.MsgPut(Ascii("\r\nDebug (? menu) -> "));
      }
    }

    /** `display_registers` up to the register lines. */
    method DisplayRegisters()
      requires Valid()
      modifies uart`txIn, uart.txBuf
      ensures Valid() && uart.Tx() == old(uart.Tx()).PutAll(Text("\r\nRegisters:\r\n"))
    {
      uart.MsgPut(Ascii("\r\nRegisters:\r\n"));
    }

    /** `display_stack` up to the stack words. */
    method DisplayStack()
      requires Valid()
      modifies uart`txIn, uart.txBuf
      ensures Valid() && uart.Tx() == old(uart.Tx()).PutAll(Text("\r\nStack (recent first):\r\n"))
    {
      uart.MsgPut(Ascii("\r\nStack (recent first):\r\n"));
    }

    /** One pass of the loop of `read_message_from_uart`, on the byte `j`
        just taken from the receive queue. */
    method Receive(j: byte, s: Sensors)
      requires Valid() && Inv(Vars())
      modifies msgBuf, this`displayMode, this`inputMode, this`msgBufIdx, timer`displayTimer, uart`txIn, uart.txBuf
      ensures Valid() && Inv(Vars())
      ensures Vars() == Step(old(Vars()), j, s, timer.swTimerIsrCounter).0
      ensures uart.Tx() == old(uart.Tx()).PutAll(Step(old(Vars()), j, s, timer.swTimerIsrCounter).1)
      ensures uart.Rx() == old(uart.Rx())
    {
      StepKeepsInv(Vars(), j, s, timer.swTimerIsrCounter);
      if inputMode == 0 {
        StoreAndProcess(j, s);
      } else if j == CR {
        StoreAndProcess(0, s);
      } else {
        EditAddress(j, s);
      }
    }

    /** A complete message: store `b` (the command letter, or the NUL that
        ends the address) at the index and call `process_message`. */
    method StoreAndProcess(b: byte, s: Sensors)
      requires Valid() && msgBufIdx < MSG_BUF_SIZE
      modifies msgBuf, this`displayMode, this`inputMode, this`msgBufIdx, timer`displayTimer, uart`txIn, uart.txBuf
      ensures Valid()
      ensures Vars() == Process(old(Vars()).(buf := old(msgBuf[..])[old(msgBufIdx) := b], idx := old(msgBufIdx) + 1),
                                s, timer.swTimerIsrCounter).0
      ensures uart.Tx() == old(uart.Tx()).PutAll(Process(old(Vars()).(buf := old(msgBuf[..])[old(msgBufIdx) := b],
                                idx := old(msgBufIdx) + 1), s, timer.swTimerIsrCounter).1)
      ensures uart.Rx() == old(uart.Rx())
    {
      msgBuf[msgBufIdx] := b;
      msgBufIdx := msgBufIdx + 1;
      ProcessMessage(s);
    }

    /** The address input on any byte but CR: backspace and DEL take back a
        character, other bytes are stored and echoed while there is room. */
    method EditAddress(j: byte, s: Sensors)
      requires Valid() && Inv(Vars()) && inputMode == 1 && j != CR
      modifies msgBuf, this`msgBufIdx, uart`txIn, uart.txBuf
      ensures Valid()
      ensures Vars() == Step(old(Vars()), j, s, timer.swTimerIsrCounter).0
      ensures uart.Tx() == old(uart.Tx()).PutAll(Step(old(Vars()), j, s, timer.swTimerIsrCounter).1)
      ensures uart.Rx() == old(uart.Rx())
    {
      if j == BS || j == DEL {
        if msgBufIdx != 1 {
          uart.MsgPut(RUB_OUT);
          UntilNulNoNul(RUB_OUT);
          msgBufIdx := msgBufIdx - 1;
        }
      } else if msgBufIdx < MSG_BUF_SIZE as byte - 1 {
        msgBuf[msgBufIdx] := j;
        msgBufIdx := msgBufIdx + 1;
        if j != CTRL_B {
          ghost var t := uart.Tx();
          uart.Put(j);
          assert t.PutAll([j]) == t.PutAll([]).Put(j);
        }
      }
    }

    /** `read_message_from_uart`: handle every byte waiting in the receive
        queue, oldest first, and leave the queue empty. */
    method ReadMessageFromUart(s: Sensors)
      requires Valid() && Inv(Vars())
      modifies msgBuf, this`displayMode, this`inputMode, this`msgBufIdx, timer`displayTimer
      modifies uart`rxOut, uart`txIn, uart.txBuf
      ensures Valid() && Inv(Vars())
      ensures uart.Rx().Pending() == []
      ensures Vars() == Steps(old(Vars()), old(uart.Rx().Pending()), s, timer.swTimerIsrCounter).0
      ensures uart.Tx() == old(uart.Tx()).PutAll(Steps(old(Vars()), old(uart.Rx().Pending()), s, timer.swTimerIsrCounter).1)
    {
      ghost var v0 := Vars();
      ghost var t0 := uart.Tx();
      ghost var isr := timer.swTimerIsrCounter;
      ghost var pending := uart.Rx().Pending();
      ghost var k := 0;
      assert pending[..0] == [];
      assert Steps(v0, pending[..0], s, isr) == (v0, []);
      var more := uart.Input();
      while more != 0
        invariant Valid() && Inv(Vars()) && timer.swTimerIsrCounter == isr
        invariant 0 <= k <= |pending| && uart.Rx().Pending() == pending[k..]
        invariant more != 0 <==> k < |pending|
        invariant Vars() == Steps(v0, pending[..k], s, isr).0
        invariant uart.Tx() == t0.PutAll(Steps(v0, pending[..k], s, isr).1)
        decreases |pending| - k
      {
        ReceiveNext(v0, t0, pending, k, s);
        k := k + 1;
        more := uart.Input();
      }
      assert k == |pending| && pending[..k] == pending;
    }

    /** The body of the loop of `read_message_from_uart`: take the oldest
        byte, the `k`-th one received, and handle it. */
    method ReceiveNext(ghost v0: MonitorVars, ghost t0: Ring, ghost pending: seq<byte>, ghost k: nat, s: Sensors)
      requires Valid() && Inv(Vars()) && Inv(v0) && t0.Valid()
      requires k < |pending| && uart.Rx().Pending() == pending[k..]
      requires Vars() == Steps(v0, pending[..k], s, timer.swTimerIsrCounter).0
      requires uart.Tx() == t0.PutAll(Steps(v0, pending[..k], s, timer.swTimerIsrCounter).1)
      modifies msgBuf, this`displayMode, this`inputMode, this`msgBufIdx, timer`displayTimer
      modifies uart`rxOut, uart`txIn, uart.txBuf
      ensures Valid() && Inv(Vars())
      ensures uart.Rx().Pending() == pending[k + 1..]
      ensures Vars() == Steps(v0, pending[..k + 1], s, timer.swTimerIsrCounter).0
      ensures uart.Tx() == t0.PutAll(Steps(v0, pending[..k + 1], s, timer.swTimerIsrCounter).1)
    {
      ghost var isr := timer.swTimerIsrCounter;
      ghost var before := Steps(v0, pending[..k], s, isr);
      GetRemovesHead(uart.Rx());
      var j := uart.Get();
      assert j == pending[k];
      Receive(j, s);
      ghost var q := Step(before.0, j, s, isr);
      StepsNext(v0, pending, k, s, isr);
      assert uart.Tx() == t0.PutAll(before.1).PutAll(q.1);
      PutAllConcat(t0, before.1, q.1);
    }

    /** `monitor()`: the periodic display.  QUIET and DEBUG only clear
        `display_flag`; NORMAL and ADC print their line and clear it when it
        is 1. */
    method Monitor(s: Sensors)
      requires Valid()
      modifies timer`displayFlag, uart`txIn, uart.txBuf
      ensures Valid()
      ensures uart.Tx() == old(uart.Tx()).PutAll(DisplayText(displayMode, old(timer.displayFlag), s))
      ensures timer.displayFlag == if displayMode in {Quiet, Debug} || old(timer.displayFlag) == 1 then 0 else old(timer.displayFlag)
    {
      match displayMode
      case Quiet =>
        timer.displayFlag := 0;
      case Normal =>
        if timer.displayFlag == 1 {
          DisplayReadings(s);
          timer.displayFlag := 0;
        }
      case Debug =>
        timer.displayFlag := 0;
      case Adc =>
        if timer.displayFlag == 1 {
          DisplayAdcs(s);
          timer.displayFlag := 0;
        }
    }
  }
}
