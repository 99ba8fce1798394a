# KL25Z flow meter firmware: integer core in Dafny

This project models the integer core of the flow-meter firmware for the
Freescale FRDM-KL25Z board, together with two earlier revisions of its debug
monitor and the integer square root used by the first milestone. It covers
four parts:

- **Serial transport** (`uart.dfy`, `ring_buffer.dfy`). This is the UART
  driver's two circular byte queues: receive holds 10 bytes and transmit holds
  1000. Each queue has an in cursor and an out cursor, and "empty" means the
  two are equal. There is no full check. The same driver has routines that
  write text, hex digits and decimal numbers into the transmit queue. The
  class `Uart.Uart` holds the two arrays and four cursors. Each method is
  specified against the value `RingBuffer.Ring`, whose FIFO behaviour and
  overflow behaviour are proved as lemmas.
- **Cyclic executive** (`timer.dfy`). The 100 µs tick handler `timer0`
  increments an 8-bit phase counter. The lowest set bit of that counter picks
  one of seven task groups. The slowest group runs the display software timer
  and the heartbeat software timer. The class `Timer.Timer` is specified by
  the pure step `Tick`. Lemmas cover group selection, timer cadence and
  counter wrap-around.
- **Operator monitors** (`monitor.dfy`, `debug_monitor_letters.dfy`,
  `debug_monitor_words.dfy`). These are the command state machines that read
  received bytes, switch the display mode and print replies, plus the periodic
  `monitor()` display. Each revision is its own module. Each has a class for
  its globals and a pure step function on a `MonitorVars` value, and lemmas
  about that step.
- **Signal pipeline** (`flow_calc.dfy`, `math_funcs.dfy`, `sqrt_trunc.dfy`).
  This covers the 5-tap moving average, the rising-crossing counter and the
  frequency it yields, the temperature conversion in unsigned 32-bit
  arithmetic, the `pow10` table lookup and the bisection integer square root.

Shared definitions are in `bytes.dfy`. It holds fixed-width unsigned types,
wrap-around arithmetic, and the bytes of a NUL-terminated C string.

Where the design description and the code differ, the model follows the code:

- The display software timer is not reloaded on firing. It keeps counting down
  modulo 256, and the tick never clears its flag; `monitor()` clears it.
- In the flow meter, every completed command resets `display_timer`, not only
  mode switches.
- In the flow meter's address input, an over-long parameter is dropped
  silently. Nothing reports "too long". That report exists only in
  m3/debug_monitor/Monitor.cpp, where the model shows it cannot be reached.
  The code as written stores and echoes up to the ninth parameter byte, at
  `msg_buf[9]`, and then lets the CR terminator overrun the buffer (see
  "## Findings"). The model's console uses the corrected guard, which keeps
  eight parameter bytes and drops from the ninth on. `Monitor.StepAsWritten`
  models the code as written, and `Monitor.StepAgreesAsWritten` shows that
  the two differ only on that ninth byte.
- The mode enumeration in m4/flowmeter/monitor.h lists only QUIET, NORMAL and
  DEBUG. monitor.cpp also uses ADC, so the model has four modes.

## Model

| member | source | states |
|---|---|---|
| `RingBuffer.EmptyRing` | m4/flowmeter/uart.cpp:72-77 | a ring with both cursors at the start has no pending bytes |
| `RingBuffer.PutAppends` | m4/flowmeter/uart.cpp:161-166 | while there is room, a put appends the byte to the pending bytes |
| `RingBuffer.PutOnFullLooksEmpty` | m4/flowmeter/uart.cpp:153-166 | with no full check, the put that fills the last free slot makes the queue look empty and loses its bytes |
| `RingBuffer.GetRemovesHead` | m4/flowmeter/uart.cpp:176-190 | a get yields the oldest pending byte and removes exactly that byte |
| `RingBuffer.PutAllConcat` | m4/flowmeter/uart.cpp:210-218 | putting a + b is putting a, then b |
| `RingBuffer.PutAllAppends` | m4/flowmeter/uart.cpp:106-124 | FIFO: while fewer than capacity bytes are pending, the bytes put are appended in order |
| `RingBuffer.PutAllCursor` | m4/flowmeter/uart.cpp:163-165 | the in cursor moves one slot per byte, wrapping at the capacity |
| `RingBuffer.CapacityPutsLookEmpty` | m4/flowmeter/uart.cpp:153-166 | exactly capacity puts into an empty queue with no get leave in == out, so all of them are lost |
| `Uart.HexToAscDigits` | m4/flowmeter/uart.cpp:225-230 | `hex_to_asc` maps 0..9 to '0'..'9' and 10..15 to 'A'..'F' |
| `Uart.AscToHexInverts` | m4/flowmeter/uart.cpp:225-241 | `asc_to_hex(hex_to_asc(n)) == n` for every nibble, and 'a'..'f' read as 10..15 |
| `Uart.HexToAscInverts` | m4/flowmeter/uart.cpp:236-241 | every upper-case hex digit is `hex_to_asc` of its `asc_to_hex` value |
| `Uart.HexDigitsAt` | m4/flowmeter/uart.cpp:272-277 | digit k of an n-digit rendering is nibble n-1-k, the one `(word >> shift) & 0x0f` selects |
| `Uart.HexDigitsAreDigits` | m4/flowmeter/uart.cpp:247-277 | every character of a hex rendering is an upper-case hex digit |
| `Uart.HexDigitsRoundTrip` | m4/flowmeter/uart.cpp:247-277 | reading back n hex digits of a number below 16^n gives that number |
| `Uart.HexRoundTrip` | m4/flowmeter/uart.cpp:247-277 | the 2 digits of a byte and the 8 digits of a word read back as the byte and the word |
| `Uart.DecimalDigits` | m4/flowmeter/uart.cpp:279-292 | the decimal rendering is all digits with no leading zero, and "0" for 0 |
| `Uart.DecimalLength` | m4/flowmeter/uart.cpp:280-287 | a number below 10^k has at most k decimal digits |
| `Uart.DecimalLength32` | m4/flowmeter/uart.cpp:280-287 | a 32-bit number has at most 10 digits, so `digits[10]` suffices |
| `Uart.DecimalRoundTrip` | m4/flowmeter/uart.cpp:279-292 | reading the decimal rendering back gives the number |
| `Uart.Uart.constructor` | m4/flowmeter/uart.h:15-16 | zeroed buffers of 10 and 1000 bytes with all cursors at 0, so both queues are empty |
| `Uart.Uart.Init` | m4/flowmeter/uart.cpp:72-77 | all four cursors go to 0 and both queues are empty |
| `Uart.Uart.RxEnqueue` | m4/flowmeter/uart.cpp:106-111 | the received byte is put on the receive ring |
| `Uart.Uart.TxDequeue` | m4/flowmeter/uart.cpp:116-131 | sends and removes the oldest transmit byte if there is one, and otherwise sends nothing and clears `tx_in_progress` |
| `Uart.Uart.Poll` | m4/flowmeter/uart.cpp:80-134 | counts errors mod 256, enqueues a received byte unless there is a framing error, dequeues when the transmitter is empty, and sets `serial_flag` |
| `Uart.Uart.Put` | m4/flowmeter/uart.cpp:161-166 | the transmit ring becomes the old ring with c put |
| `Uart.Uart.Get` | m4/flowmeter/uart.cpp:176-190 | when a byte is pending, returns the oldest one and removes it |
| `Uart.Uart.Input` | m4/flowmeter/uart.cpp:198-204 | returns 1 exactly when receive bytes are pending and 0 otherwise, and changes nothing |
| `Uart.Uart.MsgPut` | m4/flowmeter/uart.cpp:210-218 | equals putting each byte before the first NUL, in order |
| `Uart.Uart.MsgPutAfter` | m4/flowmeter/uart.cpp:210-218 | consecutive `uart_msg_put` calls queue the concatenation of their texts |
| `Uart.Uart.HexPut` | m4/flowmeter/uart.cpp:247-252 | queues the two hex digits of the byte, high nibble first |
| `Uart.Uart.HexWordPut` | m4/flowmeter/uart.cpp:272-277 | queues the eight hex digits of the word, most significant first |
| `Uart.Uart.DecPut` | m4/flowmeter/uart.cpp:279-292 | queues the decimal digits of the number, most significant first |
| `Uart.Uart.PutDigits` | m4/flowmeter/uart.cpp:288-291 | sending `digits[count-1]` down to `digits[0]` queues them in reverse of collection order |
| `Timer.GroupIsLowestSetBit` | m4/flowmeter/timer.cpp:120-182 | the bit-k branch (k = 0..5) runs exactly when bit k is the lowest set bit of the phase |
| `Timer.GroupBExactly` | m4/flowmeter/timer.cpp:187-214 | group B runs exactly when the phase is a multiple of 64 |
| `Timer.TickCounts` | m4/flowmeter/timer.cpp:103-114 | each tick increments the phase, `timer0_count` and `SwTimerIsrCounter` with wrap-around, and sets `adc_flag` |
| `Timer.TickOutsideGroupB` | m4/flowmeter/timer.cpp:120-182 | outside group B, the display and heartbeat variables are unchanged |
| `Timer.TickInGroupB` | m4/flowmeter/timer.cpp:187-214 | in group B, the display timer is decremented mod 256 and the heartbeat timer is decremented, reloading 78 when it reaches 0 |
| `Timer.DisplayFlagRule` | m4/flowmeter/timer.cpp:195-198 | the display flag is raised exactly when group B brings the timer to 1, and a tick never lowers it |
| `Timer.HeartbeatNeverZero` | m4/flowmeter/timer.cpp:208-212 | group B never leaves the heartbeat timer at 0, and flags exactly when it reloads |
| `Timer.TicksPhase` | m4/flowmeter/timer.cpp:103 | after n ticks the phase has advanced by n mod 256 |
| `Timer.TicksCount16` | m4/flowmeter/timer.cpp:220 | after n ticks `timer0_count` has advanced by n mod 2^16 |
| `Timer.TicksCount32` | m4/flowmeter/timer.cpp:221 | after n ticks `SwTimerIsrCounter` has advanced by n mod 2^32 |
| `Timer.DisplayTimerAfter` | m4/flowmeter/timer.cpp:195-196 | n runs of group B lower the display timer by n mod 256 |
| `Timer.DisplayFlagFromZero` | m4/flowmeter/timer.cpp:195-198 | starting from timer 0 with the flag clear, the flag is up after n group-B runs exactly when n >= 255 |
| `Timer.DisplayPeriod` | m4/flowmeter/timer.cpp:195-198 | starting from timer 0, the timer reaches 1 (and fires) on run 255 and then every 256 runs |
| `Timer.HeartbeatAfterReload` | m4/flowmeter/timer.cpp:206-212 | after a reload the heartbeat timer reads 78 - (n mod 78) after n runs |
| `Timer.HeartbeatPeriod` | m4/flowmeter/timer.cpp:206-212 | after a reload the heartbeat fires again exactly every 78 runs of group B |
| `Timer.QuietTick` | m4/flowmeter/timer.cpp:103-182 | a tick from phase `t + k - 1` (t a multiple of 64, 0 < k < 64) lands on `t + k` and keeps the display and heartbeat variables |
| `Timer.GroupBTick` | m4/flowmeter/timer.cpp:103-214 | the tick from phase `t + 63` lands on a multiple of 64 and moves the display and heartbeat variables as one run of group B |
| `Timer.TicksBeforeGroupB` | m4/flowmeter/timer.cpp:103-182 | the 63 ticks after a multiple of 64 neither wrap the phase nor touch the display and heartbeat variables |
| `Timer.TicksAreGroupBRuns` | m4/flowmeter/timer.cpp:95-224 | from a phase multiple of 64, `64 * n` calls of `timer0` leave the display and heartbeat variables where `n` runs of group B do, on a phase multiple of 64 again |
| `Timer.DisplayPeriodInTicks` | m4/flowmeter/timer.h:25 | from phase and display timer 0, the display timer reaches 1 after `64 * n` ticks exactly when n is 255 mod 256: one firing per 16384 ticks of 100 us, about 1.6 s |
| `Timer.HeartbeatPeriodInTicks` | m4/flowmeter/timer.h:23 | after a reload on a phase multiple of 64, the heartbeat reloads again after `64 * (n + 1)` ticks exactly when n + 1 is a multiple of 78: every 4992 ticks, 0.4992 s |
| `Timer.Timer.constructor` | m4/flowmeter/timer.cpp:73-84 | every timer variable starts at 0 |
| `Timer.Timer.Timer0` | m4/flowmeter/timer.cpp:95-224 | the new variables are `Tick` of the old ones |
| `Timer.Timer.GroupBTasks` | m4/flowmeter/timer.cpp:195-213 | the group B branch leaves the variables at `GroupB` of the old ones: both software timers counted down with 8-bit wrap, the display flag raised at 1, the heartbeat flagged and reloaded to 78 at 0 |
| `SqrtTrunc.Sqrt` | m1/sqrt_c/sqrt_trunc.c:6-35 | the result r satisfies r*r <= num < (r+1)*(r+1) for every 32-bit num, and num <= 1 returns num |
| `SqrtTrunc.GuessSquareFits` | m1/sqrt_c/sqrt_trunc.c:21-22 | every guess is below 65536, so `guess*guess` never wraps in 32 bits |
| `SqrtTrunc.RepeatedGuess` | m1/sqrt_c/sqrt_trunc.c:19-33 | when the guess repeats, it is the truncated root |
| `SqrtTrunc.TruncSqrtUnique` | m1/sqrt_c/tests.c:65-94 | the truncated square root is unique, so the random test's oracle is determined |
| `SqrtTrunc.TestTable` | m1/sqrt_c/tests.c:8-29 | every row of the truncation table (0..11, 4294836223..4294967295) is the truncated root |
| `SqrtTrunc.TruncSqrtExists` | m1/sqrt_c/tests.c:65-94 | every 32-bit number has a truncated square root below 2^16 |
| `FlowCalc.TemperatureValue` | m4/flowmeter/flow_calc.cpp:11-14 | the temperature is 25 - (v - 716)/1620 for v >= 716, and below 716 the subtraction wraps to a large negative result |
| `FlowCalc.TemperatureMonotone` | m4/flowmeter/flow_calc.cpp:11-14 | 716 reads as 25 degrees, and from there the result is non-increasing in v |
| `FlowCalc.WindowPartialComplete` | m4/flowmeter/flow_calc.cpp:24-27 | the inner loop's running sum ends at the 5-sample window sum |
| `FlowCalc.LowpassBounds` | m4/flowmeter/flow_calc.cpp:18-29 | the window sum fits 32 bits, the average stays within 16 bits, and it never exceeds the window's largest sample |
| `FlowCalc.LowpassConstant` | m4/flowmeter/flow_calc.cpp:23-29 | a constant window averages to its value |
| `FlowCalc.Filtered` | m4/flowmeter/flow_calc.cpp:23-29 | the filtered values are `lp[2]..lp[n-3]`, each the window average |
| `FlowCalc.DetectStepRules` | m4/flowmeter/flow_calc.cpp:35-44 | a crossing counts only for a value above 0x8000 while `cur_sign <= 0`, and a value equal to 0x8000 changes nothing |
| `FlowCalc.DetectSign` | m4/flowmeter/flow_calc.cpp:34-44 | `cur_sign` is -1, 0 or 1, and is 0 only while every value has equalled 0x8000 |
| `FlowCalc.CrossingsBound` | m4/flowmeter/flow_calc.cpp:35-44 | crossings never exceed the number of filtered values |
| `FlowCalc.NoCrossingsWhenLow` | m4/flowmeter/flow_calc.cpp:37-39 | values that never exceed 0x8000 give no crossing |
| `FlowCalc.FrequencyZeroWhenLow` | m4/flowmeter/flow_calc.cpp:37-48 | a window whose filtered values never exceed 0x8000 gives frequency 0 |
| `FlowCalc.StaysPositive` | m4/flowmeter/flow_calc.cpp:37-43 | once the sign is positive, no crossing counts until a value below 0x8000 |
| `FlowCalc.CrossingsSeparated` | m4/flowmeter/flow_calc.cpp:35-44 | two counted crossings always have a filtered value below 0x8000 between them |
| `FlowCalc.FrequencyFitsInt` | m4/flowmeter/flow_calc.cpp:48 | 10000·crossings fits a 32-bit int and the frequency is at most 10000 |
| `FlowCalc.AdcTestData` | m4/flowmeter/flow_calc.cpp:106-1106 | the test data is 1000 samples repeating a 10-sample period |
| `FlowCalc.TestLowpass` | m4/flowmeter/flow_calc.cpp:18-29 | the filtered test data repeats a 10-value period |
| `FlowCalc.TestDetect` | m4/flowmeter/flow_calc.cpp:35-44 | the detector over the test data counts one crossing per period |
| `FlowCalc.TestVectorIs1000Hz` | m4/flowmeter/flow_calc.cpp:105-106 | `calc_freq(adc_test_data, 1000)` is 1000, the documented 1000 Hz |
| `FlowCalc.FlowCalc.constructor` | m4/flowmeter/flow_calc.cpp:4-5 | `temp` and `freq` start at 0 |
| `FlowCalc.FlowCalc.CalcTemp` | m4/flowmeter/flow_calc.cpp:11-14 | returns the unsigned-arithmetic temperature and stores it in `temp` |
| `FlowCalc.FlowCalc.CalcFreq` | m4/flowmeter/flow_calc.cpp:17-50 | for a positive sample count, returns 10000·crossings/n of the filtered window and stores it in `freq` |
| `MathFuncs.TableShape` | m4/flowmeter/math_funcs.cpp:6-75 | keys and values strictly increase, keys run from 1220 to 1807 (last value 64089), and a 0,0 sentinel ends the table |
| `MathFuncs.Lookup` | m4/flowmeter/math_funcs.cpp:79-88 | the loop over even indices up to the sentinel returns the scan's result |
| `MathFuncs.KeyPositive` | m4/flowmeter/math_funcs.cpp:82 | every key before the sentinel is non-zero, so the loop visits them all |
| `MathFuncs.Pow10` | m4/flowmeter/math_funcs.cpp:79-88 | `pow10(num)` is the lookup over `pow10_table` |
| `MathFuncs.KeysSorted` | m4/flowmeter/math_funcs.cpp:6-75 | a later pair has a larger key and a larger value |
| `MathFuncs.ScanKeepsLast` | m4/flowmeter/math_funcs.cpp:82-86 | the scan settles on the last pair whose key is below num |
| `MathFuncs.Pow10LargestKeyBelow` | m4/flowmeter/math_funcs.cpp:79-88 | the result is the value paired with the largest key strictly below num |
| `MathFuncs.Pow10Low` | m4/flowmeter/math_funcs.cpp:7 | num <= 1220 gives 0 |
| `MathFuncs.Pow10High` | m4/flowmeter/math_funcs.cpp:73 | num > 1807 gives 64089 |
| `MathFuncs.ScanMonotone` | m4/flowmeter/math_funcs.cpp:82-86 | the scan is non-decreasing in num |
| `MathFuncs.Pow10Monotone` | m4/flowmeter/math_funcs.cpp:79-88 | `pow10` is non-decreasing in num |
| `MathFuncs.Pow10Range` | m4/flowmeter/math_funcs.cpp:79-88 | the result is 0 or one of the table's values |
| `Monitor.CapitalizeFolds` | m4/flowmeter/monitor.cpp:140-143 | capitalizing leaves no lower-case letter, is idempotent, and maps both cases of a letter to one command |
| `Monitor.NextModeFollowsTable` | m4/flowmeter/monitor.cpp:145-217 | in NORMAL, QUIET and ADC mode, A/D/N/Q select their mode and other bytes keep it; in DEBUG only N leaves, to NORMAL |
| `Monitor.NextModeIdempotent` | m4/flowmeter/monitor.cpp:145-217 | a command sent twice selects the same mode as once |
| `Monitor.ConvertTemp` | m4/flowmeter/monitor.cpp:370-372 | `convert_temp` is the same unsigned-arithmetic temperature as `calc_temp` |
| `Monitor.HexCharValue` | m4/flowmeter/monitor.cpp:292-301 | on an accepted digit, the parsed digit value is what `asc_to_hex` reads |
| `Monitor.HexValueBound` | m4/flowmeter/monitor.cpp:306-307 | n hex digits accumulate to a value below 16^n, so 8 digits never wrap |
| `Monitor.AddressRejects` | m4/flowmeter/monitor.cpp:289-305 | the address is bad exactly when a non-hex, non-NUL byte precedes the first NUL |
| `Monitor.NotHexRejected` | m4/flowmeter/monitor.cpp:302-305 | the early return on a non-hex byte yields the bad-location result |
| `Monitor.HexDigitStep` | m4/flowmeter/monitor.cpp:292-307 | each digit the loop accepts has the value the three ranges assign it, and shifting it in gives the value of one more digit, below 16^i and so never wrapping |
| `Monitor.HexDigitsEnd` | m4/flowmeter/monitor.cpp:289-291 | leaving the loop at a NUL or after eight digits leaves `HexAddress` of the buffer in `addr` |
| `Monitor.AddressRoundTrip` | m4/flowmeter/monitor.cpp:289-308 | n <= 8 hex digits of x, ended by NUL or the field's end, parse back to x |
| `Monitor.AddressOfWord` | m4/flowmeter/monitor.cpp:289-308 | the 8 digits `uart_hex_word_put` prints parse back to the word |
| `Monitor.ProcessIgnoresCase` | m4/flowmeter/monitor.cpp:140-143 | a lower-case command has exactly the effect of its upper-case form |
| `Monitor.StepKeepsInv` | m4/flowmeter/monitor.cpp:95-131 | with the corrected guard, every received byte keeps index 0 in single-char mode and 1..9 in the address input |
| `Monitor.SingleCharCommand` | m4/flowmeter/monitor.cpp:98-101 | in single-char mode each byte is a command that leaves index and `display_timer` at 0, except DEBUG M, which opens the address input at index 1 |
| `Monitor.AddressInput` | m4/flowmeter/monitor.cpp:103-128 | with the corrected guard (`msg_buf_idx < 9`): CR terminates and processes, BS/DEL back up except at index 1, and other bytes are stored and echoed up to index 8 and dropped from index 9 on |
| `Monitor.Steps` | m4/flowmeter/monitor.cpp:95-131 | with the corrected guard, the loop over the received bytes keeps the invariant, index at most 9 |
| `Monitor.StepAsWrittenKeepsInv` | m4/flowmeter/monitor.cpp:95-131 | with the guard as written, every byte that does not overrun the buffer keeps the index in 1..10 during the address input |
| `Monitor.StepsAsWritten` | m4/flowmeter/monitor.cpp:92-132 | the loop with the guard as written, over any bytes, keeps that invariant until a store overruns |
| `Monitor.StepAgreesAsWritten` | m4/flowmeter/monitor.cpp:97-128 | the corrected step equals the step as written on every byte except an ordinary byte at index 9, which the code as written stores at `msg_buf[9]` and echoes and the corrected step drops |
| `Monitor.StoresAsWritten` | m4/flowmeter/monitor.cpp:119-126 | with the guard as written, n ordinary bytes in the address input leave index min(idx + n, 10) |
| `Monitor.TerminatorOutOfBounds` | m4/flowmeter/monitor.cpp:104-106 | with the guard as written, the address input opened by M, nine or more ordinary bytes and a CR reach the terminator store `msg_buf[10]`, past the end of the buffer |
| `Monitor.CorrectedStoresFit` | m4/flowmeter/monitor.cpp:119-122 | with the corrected guard, any run of ordinary bytes leaves index min(idx+n, 9) < 10 |
| `Monitor.DisplayText` | m4/flowmeter/monitor.cpp:394-420 | output appears exactly when the flag is 1 and the mode is NORMAL or ADC; QUIET and DEBUG print nothing |
| `Monitor.Console.constructor` | m4/flowmeter/monitor.cpp:37-43 | a zeroed buffer, index 0, single-char input and NORMAL mode |
| `Monitor.Console.DisplayMenu` | m4/flowmeter/monitor.cpp:63-73 | queues the main menu |
| `Monitor.Console.DebugMenu` | m4/flowmeter/monitor.cpp:75-86 | queues the debug menu |
| `Monitor.Console.DisplayVersion` | m4/flowmeter/monitor.cpp:362-366 | queues the version line |
| `Monitor.Console.DisplaySysinfo` | m4/flowmeter/monitor.cpp:351-360 | queues the core clock and the ISR count in decimal |
| `Monitor.Console.DisplayReadings` | m4/flowmeter/monitor.cpp:339-348 | queues flow, converted temperature and frequency in decimal |
| `Monitor.Console.DisplayAdcs` | m4/flowmeter/monitor.cpp:375-387 | queues the three ADC words in hex |
| `Monitor.Console.ParseAddress` | m4/flowmeter/monitor.cpp:289-308 | the accumulation loop returns `HexAddress` of the buffer |
| `Monitor.Console.DisplayMemory` | m4/flowmeter/monitor.cpp:283-309 | prints "Bad memory location!" for a bad address, and otherwise the memory header |
| `Monitor.Console.ProcessMessage` | m4/flowmeter/monitor.cpp:137-223 | the new globals and the queued text are those of `Process` |
| `Monitor.Console.MainCommand` | m4/flowmeter/monitor.cpp:146-180 | in NORMAL, QUIET and ADC mode, sets the mode per the table and queues the reply; only A resets the timer here |
| `Monitor.Console.ModeCommand` | m4/flowmeter/monitor.cpp:150-168 | A, D, N and Q set the mode `NextMode` gives, queue the announcement (and the debug menu after D), and only A zeroes the display timer |
| `Monitor.Console.EnterDebug` | m4/flowmeter/monitor.cpp:155-159 | D queues "Mode -> DEBUG" followed by the debug menu and leaves the mode DEBUG |
| `Monitor.Console.InfoCommand` | m4/flowmeter/monitor.cpp:169-179 | I, V, ? and any other letter only queue their reply; mode and timers are untouched |
| `Monitor.Console.DebugCommand` | m4/flowmeter/monitor.cpp:181-217 | in DEBUG mode, sets the mode and `input_mode` per the table and queues the reply |
| `Monitor.Console.DisplayRegisters` | m4/flowmeter/monitor.cpp:260-276 | queues the register header |
| `Monitor.Console.DisplayStack` | m4/flowmeter/monitor.cpp:329-337 | queues the stack header |
| `Monitor.Console.Receive` | m4/flowmeter/monitor.cpp:97-129 | one loop pass is the corrected `Step` on the byte taken |
| `Monitor.Console.StoreAndProcess` | m4/flowmeter/monitor.cpp:98-107 | stores the command letter or the terminating NUL at the index, advances it, and ends with the globals and text of `Process` on that message |
| `Monitor.Console.EditAddress` | m4/flowmeter/monitor.cpp:108-127 | for any byte but CR in the address input, the new globals and queued text are those of the corrected `Step` (rub-out, store and echo below index 9, or drop) |
| `Monitor.Console.ReadMessageFromUart` | m4/flowmeter/monitor.cpp:92-132 | handles every pending byte in order, empties the receive queue, and the result is the corrected `Steps` over them |
| `Monitor.Console.ReceiveNext` | m4/flowmeter/monitor.cpp:95-97 | takes the k-th pending byte and extends `Steps` by it |
| `Monitor.StepsNext` | m4/flowmeter/monitor.cpp:95-131 | handling `k + 1` received bytes is handling the first `k` and then byte `k`, its output appended to the output so far |
| `Monitor.Console.Monitor` | m4/flowmeter/monitor.cpp:394-420 | QUIET and DEBUG clear the flag silently; NORMAL and ADC print and clear only when it is 1; the flag is never 1 afterwards |
| `LetterMonitor.SetBit5` | m3/debug_monitor/monitor.cpp:200 | `c \| 0x20`: the result has bit 5 set and the same low five bits and bits 6-7 as `c`, so it is `c` or `c + 0x20` |
| `LetterMonitor.IsHex` | m3/debug_monitor/monitor.cpp:198-203 | `is_hex` returns 0 or 1 |
| `LetterMonitor.IsHexAccepts` | m3/debug_monitor/monitor.cpp:198-203 | `is_hex` is 1 exactly for '0'..'9', 'a'..'f', 'A'..'F' and also bytes 0x10..0x19 (same function at m3/debug_monitor/Monitor.cpp:207-212) |
| `LetterMonitor.NextModeFollowsTable` | m3/debug_monitor/monitor.cpp:147-175 | D, N and Q select their mode from any mode, and every other command keeps it |
| `LetterMonitor.ReplyNotEmpty` | m3/debug_monitor/monitor.cpp:147-180 | every command is answered, unknown ones with the menu |
| `LetterMonitor.ProcessTimer` | m3/debug_monitor/monitor.cpp:149-189 | the index is 0 after every message; D, Q and V reset `display_timer` and N keeps it |
| `LetterMonitor.ProcessUnknown` | m3/debug_monitor/monitor.cpp:173-189 | a byte that is no command only prints the menu and resets the index |
| `LetterMonitor.ProcessIgnoresCase` | m3/debug_monitor/monitor.cpp:142-145 | a lower-case command has exactly the effect of its upper-case form |
| `LetterMonitor.ReadTakesOneByte` | m3/debug_monitor/monitor.cpp:78-83 | one call consumes at most one byte, stores it at index 0 and leaves the index at 0 |
| `LetterMonitor.DisplayText` | m3/debug_monitor/monitor.cpp:308-344 | output appears exactly when the flag is 1 and the mode is not QUIET |
| `LetterMonitor.Console.constructor` | m3/debug_monitor/monitor.cpp:37-41 | a zeroed buffer, index 0, NORMAL mode and a clear timer and flag |
| `LetterMonitor.Console.DisplayMenu` | m3/debug_monitor/monitor.cpp:61-69 | queues the menu |
| `LetterMonitor.Console.ProcessMessage` | m3/debug_monitor/monitor.cpp:137-190 | the new globals and the queued text are those of `Process` |
| `LetterMonitor.Console.Command` | m3/debug_monitor/monitor.cpp:147-184 | D, N and Q set their mode; D, Q and V reset `display_timer`; the reply is the mode line, the version text, or the menu for any other byte |
| `LetterMonitor.Console.ReadMessageFromUart` | m3/debug_monitor/monitor.cpp:75-132 | takes at most one pending byte, stores and processes it, and leaves the rest queued |
| `LetterMonitor.Console.DisplayReadings` | m3/debug_monitor/monitor.cpp:295-301 | queues the three labels |
| `LetterMonitor.Console.Monitor` | m3/debug_monitor/monitor.cpp:308-344 | QUIET clears the flag silently; NORMAL and DEBUG print and clear only when it is 1 |
| `WordMonitor.SelectedWords` | m3/debug_monitor/Monitor.cpp:127-175 | DEBUG, NORMAL or QUIET is selected exactly for "DEB", "NOR" or "QUI" with idx 3, and VERSION exactly for a first byte 'V' |
| `WordMonitor.LowerCaseRejected` | m3/debug_monitor/Monitor.cpp:177-184 | a lower-case first letter is always an error |
| `WordMonitor.Process` | m3/debug_monitor/Monitor.cpp:196-198 | processing keeps the buffer and always leaves the index at 0 |
| `WordMonitor.ProcessEffects` | m3/debug_monitor/Monitor.cpp:127-198 | an error keeps the mode and timer and prints "Error!"; a command sets its mode, and all but NOR reset `display_timer` |
| `WordMonitor.StepKeepsInv` | m3/debug_monitor/Monitor.cpp:107-115 | between bytes the index is at most 2, so "Too Long!" is never reached |
| `WordMonitor.StepsKeepInv` | m3/debug_monitor/Monitor.cpp:68-117 | the index stays at most 2 however many bytes arrive |
| `WordMonitor.StoreByte` | m3/debug_monitor/Monitor.cpp:107-110 | an ordinary byte below the third is stored and echoed |
| `WordMonitor.ThirdByte` | m3/debug_monitor/Monitor.cpp:107-115 | storing the third byte processes the message at once |
| `WordMonitor.SelectedThree` | m3/debug_monitor/Monitor.cpp:127-175 | the selection for a three-byte message is read off the word table |
| `WordMonitor.TypedCommand` | m3/debug_monitor/Monitor.cpp:65-198 | three typed bytes are echoed and form one message: a word sets its mode, V sets VERSION, and anything else prints the error and keeps the mode |
| `WordMonitor.DisplayText` | m3/debug_monitor/Monitor.cpp:292-346 | QUIET prints on every call, VERSION never, and NORMAL/DEBUG only when the flag is 1 |
| `WordMonitor.Console.constructor` | m3/debug_monitor/monitor.cpp:37-41 | the same globals as the other revision (Monitor.cpp declares none): a zeroed buffer, index 0, NORMAL mode and a clear timer and flag |
| `WordMonitor.Console.MsgProcess` | m3/debug_monitor/Monitor.cpp:123-199 | the new globals and the queued text are those of `Process` |
| `WordMonitor.Console.Select` | m3/debug_monitor/Monitor.cpp:131-170 | sets the mode, announces it, and resets `display_timer` except for NOR |
| `WordMonitor.Console.DisplayVersion` | m3/debug_monitor/Monitor.cpp:166-168 | queues the version text |
| `WordMonitor.Console.Receive` | m3/debug_monitor/Monitor.cpp:70-116 | one loop pass is `Step` on the byte taken |
| `WordMonitor.Console.EditMessage` | m3/debug_monitor/Monitor.cpp:87-115 | the part after the echo is `Edit` on the byte |
| `WordMonitor.Console.ChkUartMsg` | m3/debug_monitor/Monitor.cpp:65-118 | handles every pending byte in order, empties the receive queue, and the result is `Steps` over them |
| `WordMonitor.Console.ReceiveNext` | m3/debug_monitor/Monitor.cpp:68-70 | takes the k-th pending byte and extends `Steps` by it |
| `WordMonitor.Console.Monitor` | m3/debug_monitor/Monitor.cpp:292-346 | QUIET prints and clears the flag on every call, VERSION clears it silently, NORMAL and DEBUG print and clear only when it is 1 |
| `WordMonitor.Console.DisplayLabels` | m3/debug_monitor/Monitor.cpp:308-313 | queues the three labels |

## Left out

- `calc_flow` (m4/flowmeter/flow_calc.cpp:55-103) is not part of this model. It is floating-point physics with an unbounded convergence loop.
- The inline-assembly `sqrt` in math_funcs.cpp, and the register reads `r0` and `get_regs`, are not modelled. The bisection `sqrt_trunc` covers the square-root algorithm.
- Raw memory and stack reads are not modelled. This covers the dump loop of `display_memory` (m4/flowmeter/monitor.cpp:310-317), the register lines of `display_registers`, and the words of `display_stack`. Only their headers are queued. In the DEBUG display of both m3 monitors, the `display_registers`, `display_memory(0x0)` and `display_stack` calls are left out entirely, headers included. Their headers ("\r\nRegisters:\r\n", "\r\nMEM(0x" and, in monitor.cpp, "\r\nStack:\r\n") are interleaved with raw register and memory words that the model does not read, so `LetterMonitor.DisplayText` and `WordMonitor.DisplayText` end after the readings or labels.
- `uart_poll`'s hardware side is reduced to parameters: the status bits, the received byte and the sent byte. The C2 register toggling is not modelled. `uart_direct_msg_put` and `uart_direct_hex_put` are hardware spin-waits and are not modelled, and neither is `set_display_mode` in m3/debug_monitor/Monitor.cpp.
- LetterMonitor.IsHex: its own ensures only bounds the result to 0 or 1; the accepted set is stated by `LetterMonitor.IsHexAccepts`.
- Uart.Uart.Get: the spin-wait on an empty queue becomes the precondition that a byte is pending, which every caller checks with `uart_input` first.
- Concurrency is not modelled. Each entry point (`timer0`, `uart_poll`, the foreground routines) is one atomic step.
- `SystemCoreClock`, the `flow` global and the ADC readings are inputs (`Monitor.Sensors`). The ADC driver, PWM, LED and SPI outputs are not part of this model.
- `monitor.cpp:273` and its neighbours call `uart_word_put`, which the m4 UART does not define. It is modelled as `uart_hex_word_put`.
- m3/debug_monitor/uart.cpp, timer.cpp and shared.h are not part of this model. Both m3 monitors reuse the m4 UART model. For m3/debug_monitor/Monitor.cpp, the buffer size of 10 and the version text come from the other m3 revision.
- The "Mode Error" default of the m3 `monitor()` switches cannot be reached, because the mode enumeration has no other value.
- Monitor.AddressInput: stated with the corrected store guard `msg_buf_idx < 9`. The code as written also stores a ninth parameter byte at `msg_buf[9]` and echoes it (`Monitor.StepAgreesAsWritten`).
- Monitor.Steps: its invariant, index at most 9, holds only under the corrected guard. As written the loop reaches index 10 (`Monitor.StoresAsWritten`), and a CR there overruns `msg_buf` (`Monitor.TerminatorOutOfBounds`).
- Monitor.Console.Receive: equals the corrected `Step`. It neither stores nor echoes a ninth parameter byte, which line 119 as written does.
- Monitor.Console.EditAddress: implements the corrected guard `msgBufIdx < 9` where line 119 has `< 10`, because the array model of `msg_buf` cannot take the out-of-bounds terminator store that follows.
- Monitor.Console.ReadMessageFromUart: its result is the corrected `Steps`, and it requires the corrected invariant (index at most 9), which the loop as written does not keep. `Monitor.StepsAsWritten` is the loop as written.
- FlowCalc.FlowCalc.CalcFreq: `10000 * crossings` is computed without the signed 32-bit overflow of m4/flowmeter/flow_calc.cpp:48. Overflow, which is undefined in C, needs more than 214748 crossings. `FlowCalc.FrequencyFitsInt` shows that no overflow occurs for up to 214752 samples. The only caller, m4/flowmeter/main.cpp:87, passes 1000.
- `uart_dec_put` receives the `int` values `flow`, `freq` and the temperature converted to `unsigned int` (`Bytes.Wrap32`). A negative value prints as its 32-bit two's-complement number.

## Findings

| source | as written | input that shows it | evidently intended | confidence | as-written member | corrected member |
|---|---|---|---|---|---|---|
| m4/flowmeter/monitor.cpp:119 | the store guard `msg_buf_idx < MSG_BUF_SIZE` lets the index reach 10, and the CR terminator store at line 106 then writes `msg_buf[10]`, one past the 10-byte buffer | DEBUG mode, `M`, then nine ordinary bytes, then CR | keep room for the terminator with `msg_buf_idx < MSG_BUF_SIZE - 1` | high (not executed) | `Monitor.TerminatorOutOfBounds` | `Monitor.CorrectedStoresFit` |
