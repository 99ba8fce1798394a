/** The 100 us cyclic executive `timer0` of m4/flowmeter/timer.cpp.  An 8-bit
    phase counter is bumped on every tick and its lowest set bit picks one of
    seven task groups; only the slowest group ("6.4 ms group B", phases 0, 64,
    128, 192) has work: it runs the display and heartbeat software timers. */
module Timer {
  import opened Bytes

  const RED_HEARTBEAT_RESET: byte := 78

  /** Index of the residual group B among the seven groups. */
  const GROUP_B: nat := 6

  /** All variables `timer0` reads or writes. */
  datatype TimerVars = TimerVars(
    timerState: byte,
    displayTimer: byte,
    displayFlag: byte,
    adcFlag: byte,
    redHeartbeatTimer: byte,
    redHeartbeatFlag: byte,
    timer0Count: u16,
    swTimerIsrCounter: u32)

  function Pow2(k: nat): (p: nat)
    ensures p > 0
  {
    if k == 0 then 1 else 2 * Pow2(k - 1)
  }

  /** `(x & (1 << k)) != 0` */
  predicate BitSet(x: byte, k: nat)
  {
    (x / Pow2(k)) % 2 == 1
  }

  /** The `if ... else if` chain over the masks 0x01 .. 0x20: the group a
      phase value selects, 0 for the 200 us group up to 5 for group A and
      `GROUP_B` when none of the six bits is set. */
  function Group(s: byte): (g: nat)
    ensures g <= GROUP_B
  {
    if BitSet(s, 0) then 0
    else if BitSet(s, 1) then 1
    else if BitSet(s, 2) then 2
    else if BitSet(s, 3) then 3
    else if BitSet(s, 4) then 4
    else if BitSet(s, 5) then 5
    else GROUP_B
  }

  /** Group B: the display timer and the heartbeat timer count down. */
  function GroupB(v: TimerVars): (r: TimerVars)
  {
    var dt := Wrap8(v.displayTimer - 1);
    var hb := Wrap8(v.redHeartbeatTimer - 1);
    v.(displayTimer := dt,
       displayFlag := if dt == 1 then 1 else v.displayFlag,
       redHeartbeatTimer := if hb == 0 then RED_HEARTBEAT_RESET else hb,
       redHeartbeatFlag := if hb == 0 then 1 else v.redHeartbeatFlag)
  }

  /** One call of `timer0`. */
  function Tick(v: TimerVars): (r: TimerVars)
  {
    var s := Wrap8(v.timerState + 1);
    var w := v.(timerState := s, adcFlag := 1);
    var w' := if Group(s) == GROUP_B then GroupB(w) else w;
    w'.(timer0Count := Wrap16(v.timer0Count + 1),
        swTimerIsrCounter := Wrap32(v.swTimerIsrCounter + 1))
  }

  /** `n` calls of `timer0`. */
  function Ticks(v: TimerVars, n: nat): TimerVars
  {
    if n == 0 then v else Tick(Ticks(v, n - 1))
  }

  /** `n` runs of group B, with the interleaved ticks of the other groups
      left out (they do not touch the group B variables). */
  function GroupBRuns(v: TimerVars, n: nat): TimerVars
  {
    if n == 0 then v else GroupB(GroupBRuns(v, n - 1))
  }

  // ---------------------------------------------------------------------
  // Group selection
  // ---------------------------------------------------------------------

  /** The six masks of the chain, as arithmetic. */
  lemma Masks(s: byte)
    ensures BitSet(s, 0) <==> s % 2 == 1
    ensures BitSet(s, 1) <==> (s / 2) % 2 == 1
    ensures BitSet(s, 2) <==> (s / 4) % 2 == 1
    ensures BitSet(s, 3) <==> (s / 8) % 2 == 1
    ensures BitSet(s, 4) <==> (s / 16) % 2 == 1
    ensures BitSet(s, 5) <==> (s / 32) % 2 == 1
  {
    assert Pow2(1) == 2 && Pow2(2) == 4 && Pow2(3) == 8;
    assert Pow2(4) == 16 && Pow2(5) == 32;
  }

  // Clearing the phase bits one at a time: bits 0..k are 0 when bits
  // 0..k-1 are and bit k is, and bit k is the lowest set bit when bits
  // 0..k-1 are 0 and bit k is 1; one lemma per bit k = 1 .. 5.

  lemma Bit1Step(s: byte)
    ensures s % 4 == 0 <==> s % 2 == 0 && (s / 2) % 2 == 0
    ensures s % 4 == 2 <==> s % 2 == 0 && (s / 2) % 2 == 1
  {
    var a, b := s / 4, s % 4;
    assert s == 4 * a + b;
    assert s % 2 == b % 2;
    assert s / 2 == 2 * a + b / 2;
  }

  lemma Bit2Step(s: byte)
    ensures s % 8 == 0 <==> s % 4 == 0 && (s / 4) % 2 == 0
    ensures s % 8 == 4 <==> s % 4 == 0 && (s / 4) % 2 == 1
  {
    var a, b := s / 8, s % 8;
    assert s == 8 * a + b;
    assert s % 4 == b % 4;
    assert s / 4 == 2 * a + b / 4;
  }

  lemma Bit3Step(s: byte)
    ensures s % 16 == 0 <==> s % 8 == 0 && (s / 8) % 2 == 0
    ensures s % 16 == 8 <==> s % 8 == 0 && (s / 8) % 2 == 1
  {
    var a, b := s / 16, s % 16;
    assert s == 16 * a + b;
    assert s % 8 == b % 8;
    assert s / 8 == 2 * a + b / 8;
  }

  lemma Bit4Step(s: byte)
    ensures s % 32 == 0 <==> s % 16 == 0 && (s / 16) % 2 == 0
    ensures s % 32 == 16 <==> s % 16 == 0 && (s / 16) % 2 == 1
  {
    var a, b := s / 32, s % 32;
    assert s == 32 * a + b;
    assert s % 16 == b % 16;
    assert s / 16 == 2 * a + b / 16;
  }

  lemma Bit5Step(s: byte)
    ensures s % 64 == 0 <==> s % 32 == 0 && (s / 32) % 2 == 0
    ensures s % 64 == 32 <==> s % 32 == 0 && (s / 32) % 2 == 1
  {
    var a, b := s / 64, s % 64;
    assert s == 64 * a + b;
    assert s % 32 == b % 32;
    assert s / 32 == 2 * a + b / 32;
  }

  /** Bit k's branch runs exactly when bit k is the lowest set bit, that is
      when the phase is 2^k modulo 2^(k+1). */
  lemma GroupIsLowestSetBit(s: byte, k: nat)
    requires k < GROUP_B
    ensures Group(s) == k <==> s % Pow2(k + 1) == Pow2(k)
  {
    Masks(s);
    Bit1Step(s);
    Bit2Step(s);
    Bit3Step(s);
    Bit4Step(s);
    Bit5Step(s);
    assert Pow2(1) == 2 && Pow2(2) == 4 && Pow2(3) == 8;
    assert Pow2(4) == 16 && Pow2(5) == 32 && Pow2(6) == 64;
  }

  /** Group B runs exactly on the phases that are multiples of 64. */
  lemma GroupBExactly(s: byte)
    ensures Group(s) == GROUP_B <==> s % 64 == 0
  {
    Masks(s);
    Bit1Step(s);
    Bit2Step(s);
    Bit3Step(s);
    Bit4Step(s);
    Bit5Step(s);
  }

  // ---------------------------------------------------------------------
  // One tick
  // ---------------------------------------------------------------------

  /** Every tick advances the phase and both counters by one, with
      wrap-around, and raises the ADC flag. */
  lemma TickCounts(v: TimerVars)
    ensures Tick(v).timerState == (v.timerState + 1) % 0x100
    ensures Tick(v).adcFlag == 1
    ensures Tick(v).timer0Count == (v.timer0Count + 1) % 0x1_0000
    ensures Tick(v).swTimerIsrCounter == (v.swTimerIsrCounter + 1) % 0x1_0000_0000
  {
  }

  /** Outside group B the other group bodies are empty: the display and
      heartbeat variables keep their values. */
  lemma TickOutsideGroupB(v: TimerVars)
    requires (v.timerState + 1) % 64 != 0
    ensures Tick(v).displayTimer == v.displayTimer && Tick(v).displayFlag == v.displayFlag
    ensures Tick(v).redHeartbeatTimer == v.redHeartbeatTimer
    ensures Tick(v).redHeartbeatFlag == v.redHeartbeatFlag
  {
    GroupBExactly(Wrap8(v.timerState + 1));
  }

  /** In group B the display and heartbeat variables move as one run of
      group B: the display timer counts down modulo 256 and the heartbeat
      timer counts down, reloading on reaching 0. */
  lemma TickInGroupB(v: TimerVars)
    requires (v.timerState + 1) % 64 == 0
    ensures Tick(v).displayTimer == GroupB(v).displayTimer && Tick(v).displayFlag == GroupB(v).displayFlag
    ensures Tick(v).redHeartbeatTimer == GroupB(v).redHeartbeatTimer
    ensures Tick(v).redHeartbeatFlag == GroupB(v).redHeartbeatFlag
    ensures Tick(v).displayTimer == (v.displayTimer + 255) % 0x100
    ensures Tick(v).redHeartbeatTimer ==
      if v.redHeartbeatTimer == 1 then RED_HEARTBEAT_RESET else (v.redHeartbeatTimer + 255) % 0x100
  {
    GroupBExactly(Wrap8(v.timerState + 1));
  }

  /** The display flag is raised exactly when group B brings the display
      timer to 1, and a tick never lowers it. */
  lemma DisplayFlagRule(v: TimerVars)
    ensures Tick(v).displayFlag ==
      if (v.timerState + 1) % 64 == 0 && v.displayTimer == 2 then 1 else v.displayFlag
    ensures v.displayFlag == 1 ==> Tick(v).displayFlag == 1
  {
    GroupBExactly(Wrap8(v.timerState + 1));
  }

  /** Group B never leaves the heartbeat timer at 0, and flags the heartbeat
      exactly when it reloads. */
  lemma HeartbeatNeverZero(v: TimerVars)
    ensures GroupB(v).redHeartbeatTimer != 0
    ensures GroupB(v).redHeartbeatFlag == if v.redHeartbeatTimer == 1 then 1 else v.redHeartbeatFlag
  {
  }

  // ---------------------------------------------------------------------
  // Many ticks
  // ---------------------------------------------------------------------

  /** After n ticks the phase and the counters have moved by n, wrapping. */
  lemma {:induction false} TicksPhase(v: TimerVars, n: nat)
    ensures Ticks(v, n).timerState == (v.timerState + n) % 0x100
  {
    if n > 0 {
      var p := Ticks(v, n - 1);
      TicksPhase(v, n - 1);
      TickCounts(p);
      ModSucc(v.timerState + n - 1, 0x100);
      assert Ticks(v, n).timerState == Tick(p).timerState == (p.timerState + 1) % 0x100;
    }
  }

  lemma {:induction false} TicksCount16(v: TimerVars, n: nat)
    ensures Ticks(v, n).timer0Count == (v.timer0Count + n) % 0x1_0000
  {
    if n > 0 {
      var p := Ticks(v, n - 1);
      TicksCount16(v, n - 1);
      TickCounts(p);
      ModSucc(v.timer0Count + n - 1, 0x1_0000);
      assert Ticks(v, n).timer0Count == Tick(p).timer0Count == (p.timer0Count + 1) % 0x1_0000;
    }
  }

  lemma {:induction false} TicksCount32(v: TimerVars, n: nat)
    ensures Ticks(v, n).swTimerIsrCounter == (v.swTimerIsrCounter + n) % 0x1_0000_0000
  {
    if n > 0 {
      var p := Ticks(v, n - 1);
      TicksCount32(v, n - 1);
      TickCounts(p);
      ModSucc(v.swTimerIsrCounter + n - 1, 0x1_0000_0000);
      assert Ticks(v, n).swTimerIsrCounter == Tick(p).swTimerIsrCounter == (p.swTimerIsrCounter + 1) % 0x1_0000_0000;
    }
  }

  lemma ModSucc(a: nat, m: nat)
    requires m == 0x100 || m == 0x1_0000 || m == 0x1_0000_0000
    ensures (a % m + 1) % m == (a + 1) % m
  {
    var q, r := a / m, a % m;
    assert a == q * m + r;
    if r + 1 == m {
      assert a + 1 == (q + 1) * m;
    } else {
      assert a + 1 == q * m + (r + 1);
    }
  }

  /** n runs of group B move the display timer down by n modulo 256. */
  lemma {:induction false} DisplayTimerAfter(v: TimerVars, n: nat)
    ensures GroupBRuns(v, n).displayTimer == (v.displayTimer - n) % 0x100
  {
    if n > 0 {
      var p := GroupBRuns(v, n - 1);
      DisplayTimerAfter(v, n - 1);
      ModPred(v.displayTimer - (n - 1));
      assert GroupBRuns(v, n).displayTimer == Wrap8(p.displayTimer - 1);
    }
  }

  lemma ModPred(a: int)
    ensures (a % 0x100 - 1) % 0x100 == (a - 1) % 0x100
  {
    var q, r := a / 0x100, a % 0x100;
    assert a == q * 0x100 + r;
    if r == 0 {
      assert a - 1 == (q - 1) * 0x100 + 0xff;
    } else {
      assert a - 1 == q * 0x100 + (r - 1);
    }
  }

  /** Starting from display timer 0 (where the monitor leaves it) with the
      flag clear, the flag is up after n runs of group B exactly when
      n >= 255: the 255th run raises it. */
  lemma {:induction false} DisplayFlagFromZero(v: TimerVars, n: nat)
    requires v.displayTimer == 0 && v.displayFlag == 0
    ensures GroupBRuns(v, n).displayFlag == 1 <==> n >= 255
  {
    if n > 0 {
      DisplayFlagFromZero(v, n - 1);
      DisplayTimerAfter(v, n - 1);
    }
  }

  /** From display timer 0 the timer reaches 1, so the flag is raised, on
      run 255 and then every 256 runs: this repeats however often the
      monitor clears the flag in between. */
  lemma DisplayPeriod(v: TimerVars, n: nat)
    requires v.displayTimer == 0
    ensures GroupBRuns(v, n).displayTimer == 1 <==> n % 256 == 255
  {
    DisplayTimerAfter(v, n);
    var m: int, q: int, r: int := n, n / 256, n % 256;
    assert m == 256 * q + r;
    if r == 0 {
      assert -m == 256 * -q;
    } else {
      assert -m == 256 * (-q - 1) + (256 - r);
    }
  }

  /** Right after a reload the heartbeat timer reads 78 - (n % 78) after n
      more runs of group B. */
  lemma {:induction false} HeartbeatAfterReload(v: TimerVars, n: nat)
    requires v.redHeartbeatTimer == RED_HEARTBEAT_RESET
    ensures GroupBRuns(v, n).redHeartbeatTimer == RED_HEARTBEAT_RESET - n % 78
  {
    if n > 0 {
      HeartbeatAfterReload(v, n - 1);
    }
  }

  /** After a reload the heartbeat is flagged again every 78 runs of group B:
      run n + 1 reloads exactly when n + 1 is a multiple of 78. */
  lemma HeartbeatPeriod(v: TimerVars, n: nat)
    requires v.redHeartbeatTimer == RED_HEARTBEAT_RESET
    ensures GroupBRuns(v, n + 1).redHeartbeatTimer == RED_HEARTBEAT_RESET <==> (n + 1) % 78 == 0
    ensures GroupBRuns(v, n).redHeartbeatTimer == 1 <==> (n + 1) % 78 == 0
  {
    HeartbeatAfterReload(v, n);
    HeartbeatAfterReload(v, n + 1);
  }

  // ---------------------------------------------------------------------
  // Ticks and runs of group B
  // ---------------------------------------------------------------------

  /** The display and heartbeat variables, the only ones group B touches,
      agree. */
  predicate SameGroupBVars(a: TimerVars, b: TimerVars)
  {
    a.displayTimer == b.displayTimer && a.displayFlag == b.displayFlag &&
    a.redHeartbeatTimer == b.redHeartbeatTimer && a.redHeartbeatFlag == b.redHeartbeatFlag
  }

  /** Within one period of 64 ticks from a multiple of 64 the phase does not
      wrap and sits k past the multiple. */
  lemma PhaseOffset(t: int, k: nat)
    requires 0 <= t < 0x100 && t % 64 == 0 && k < 64
    ensures t + k < 0x100 && (t + k) % 64 == k
  {
    assert t == 0 || t == 64 || t == 128 || t == 192;
  }

  /** A tick from phase `t + k - 1`, with `t` a multiple of 64 and k < 64,
      selects another group than B, so the group B variables are kept. */
  lemma QuietTick(w: TimerVars, t: int, k: nat)
    requires 0 <= t < 0x100 && t % 64 == 0 && 0 < k < 64 && w.timerState == t + k - 1
    ensures SameGroupBVars(Tick(w), w) && Tick(w).timerState == t + k
  {
    PhaseOffset(t, k);
    TickCounts(w);
    TickOutsideGroupB(w);
  }

  /** The tick from phase `t + 63` is the group B run of the period. */
  lemma GroupBTick(w: TimerVars, t: int)
    requires 0 <= t < 0x100 && t % 64 == 0 && w.timerState == t + 63
    ensures SameGroupBVars(Tick(w), GroupB(w)) && Tick(w).timerState % 64 == 0
  {
    assert t == 0 || t == 64 || t == 128 || t == 192;
    TickCounts(w);
    TickInGroupB(w);
  }

  /** From a multiple of 64, the next 63 ticks select other groups only: the
      group B variables keep their values. */
  lemma {:induction false} TicksBeforeGroupB(v: TimerVars, m: nat, k: nat)
    requires Ticks(v, 64 * m).timerState % 64 == 0 && k < 64
    ensures SameGroupBVars(Ticks(v, 64 * m + k), Ticks(v, 64 * m))
    ensures Ticks(v, 64 * m + k).timerState == Ticks(v, 64 * m).timerState + k
  {
    if k > 0 {
      var w := Ticks(v, 64 * m + (k - 1));
      TicksBeforeGroupB(v, m, k - 1);
      QuietTick(w, Ticks(v, 64 * m).timerState, k);
      assert Ticks(v, 64 * m + k) == Tick(w);
    }
  }

  /** From a phase that is a multiple of 64, `64 * n` ticks of `timer0` move
      the display and heartbeat variables exactly as `n` runs of group B. */
  lemma {:induction false} TicksAreGroupBRuns(v: TimerVars, n: nat)
    requires v.timerState % 64 == 0
    ensures SameGroupBVars(Ticks(v, 64 * n), GroupBRuns(v, n))
    ensures Ticks(v, 64 * n).timerState % 64 == 0
  {
    if n > 0 {
      var m := n - 1;
      TicksAreGroupBRuns(v, m);
      TicksBeforeGroupB(v, m, 63);
      var w := Ticks(v, 64 * m + 63);
      GroupBTick(w, Ticks(v, 64 * m).timerState);
      assert 64 * n == 64 * m + 63 + 1;
      assert Ticks(v, 64 * n) == Tick(w);
    }
  }

  /** In ticks: from phase and display timer 0, the display timer reaches 1
      after `64 * n` ticks exactly when n is 255 modulo 256, that is every
      256 * 64 ticks of 100 us, 1.6384 s. */
  lemma DisplayPeriodInTicks(v: TimerVars, n: nat)
    requires v.timerState == 0 && v.displayTimer == 0
    ensures Ticks(v, 64 * n).displayTimer == 1 <==> n % 256 == 255
  {
    TicksAreGroupBRuns(v, n);
    DisplayPeriod(v, n);
  }

  /** In ticks: right after a heartbeat reload on a phase multiple of 64, the
      heartbeat is due again every 78 * 64 ticks of 100 us, 0.4992 s. */
  lemma HeartbeatPeriodInTicks(v: TimerVars, n: nat)
    requires v.timerState % 64 == 0 && v.redHeartbeatTimer == RED_HEARTBEAT_RESET
    ensures Ticks(v, 64 * (n + 1)).redHeartbeatTimer == RED_HEARTBEAT_RESET <==> (n + 1) % 78 == 0
  {
    TicksAreGroupBRuns(v, n + 1);
    HeartbeatPeriod(v, n);
  }

  // ---------------------------------------------------------------------
  // The interrupt handler
  // ---------------------------------------------------------------------

  /** The globals and statics of timer.cpp. */
  class Timer {
    var timerState: byte
    var displayTimer: byte
    var displayFlag: byte
    var adcFlag: byte
    var redHeartbeatTimer: byte
    var redHeartbeatFlag: byte
    var timer0Count: u16
    var swTimerIsrCounter: u32

    function Vars(): TimerVars
      reads this
    {
      TimerVars(timerState, displayTimer, displayFlag, adcFlag,
                redHeartbeatTimer, redHeartbeatFlag, timer0Count, swTimerIsrCounter)
    }

    /** The power-on values: everything 0. */
    constructor ()
      ensures Vars() == TimerVars(0, 0, 0, 0, 0, 0, 0, 0)
    {
      timerState, displayTimer, displayFlag, adcFlag := 0, 0, 0, 0;
      redHeartbeatTimer, redHeartbeatFlag := 0, 0;
      timer0Count, swTimerIsrCounter := 0, 0;
    }

    /** `timer0` */
    method Timer0()
      modifies this
      ensures Vars() == Tick(old(Vars()))
    {
      timerState := Wrap8(timerState + 1);
      adcFlag := 1;
      if BitSet(timerState, 0) {
      } else if BitSet(timerState, 1) {
      } else if BitSet(timerState, 2) {
      } else if BitSet(timerState, 3) {
      } else if BitSet(timerState, 4) {
      } else if BitSet(timerState, 5) {
      } else {
        GroupBTasks();
      }
      timer0Count := Wrap16(timer0Count + 1);
      swTimerIsrCounter := Wrap32(swTimerIsrCounter + 1);
    }

    /** The body of the "6.4 ms group B" branch of `timer0`. */
    method GroupBTasks()
      modifies this
      ensures Vars() == GroupB(old(Vars()))
    {
      displayTimer := Wrap8(displayTimer - 1);
      if displayTimer == 1 {
        displayFlag := 1;
      }
      redHeartbeatTimer := Wrap8(redHeartbeatTimer - 1);
      if redHeartbeatTimer == 0 {
        redHeartbeatFlag := 1;
        redHeartbeatTimer := RED_HEARTBEAT_RESET;
      }
    }
  }
}
