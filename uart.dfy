/** The buffered UART driver of m4/flowmeter/uart.cpp: a receive queue of 10
    bytes filled by the serial poll, a transmit queue of 1000 bytes drained by
    it, and the routines that write text, hex and decimal numbers into the
    transmit queue.  Each queue is an array and two cursors; `Rx()` and `Tx()`
    view them as `RingBuffer.Ring` values, against which every method is
    specified. */
module Uart {
  import opened Bytes
  import opened RingBuffer

  const RX_BUF_SIZE: nat := 10
  const TX_BUF_SIZE: nat := 1000

  // ---------------------------------------------------------------------
  // Digit conversions
  // ---------------------------------------------------------------------

  /** `hex_to_asc`: a nibble to its upper-case ASCII hex digit. */
  function HexToAsc(c: byte): byte
  {
    if c <= 9 then c + 0x30 else c % 0x10 + 0x37
  }

  /** `c & 0xdf`: clear bit 5, which folds 'a'..'z' onto 'A'..'Z'. */
  function ClearBit5(c: byte): (r: byte)
    ensures r == if (c / 0x20) % 2 == 1 then c - 0x20 else c
  {
    if (c / 0x20) % 2 == 1 then c - 0x20 else c
  }

  /** `asc_to_hex`: an ASCII hex digit, either case, to its value.  The
      subtraction is `UCHAR` arithmetic, so other bytes wrap. */
  function AscToHex(c: byte): byte
  {
    if c <= '9' as int then Wrap8(c - 0x30) else Wrap8(ClearBit5(c) - 0x37)
  }

  predicate IsUpperHexDigit(c: byte)
  {
    '0' as int <= c <= '9' as int || 'A' as int <= c <= 'F' as int
  }

  /** `hex_to_asc` yields '0'..'9' for 0..9 and 'A'..'F' for 10..15. */
  lemma HexToAscDigits(n: byte)
    requires n < 16
    ensures IsUpperHexDigit(HexToAsc(n))
    ensures n <= 9 ==> HexToAsc(n) == '0' as int + n
    ensures n >= 10 ==> HexToAsc(n) == 'A' as int + (n - 10)
  {
  }

  /** `asc_to_hex` inverts `hex_to_asc` on nibbles, and also reads the
      lower-case letters 'a'..'f'. */
  lemma AscToHexInverts(n: byte)
    requires n < 16
    ensures AscToHex(HexToAsc(n)) == n
    ensures n >= 10 ==> AscToHex('a' as int + (n - 10)) == n
  {
  }

  /** Conversely, every hex digit is `hex_to_asc` of what `asc_to_hex` reads. */
  lemma HexToAscInverts(c: byte)
    requires IsUpperHexDigit(c)
    ensures AscToHex(c) < 16 && HexToAsc(AscToHex(c)) == c
  {
  }

  // ---------------------------------------------------------------------
  // Hex and decimal renderings
  // ---------------------------------------------------------------------

  /** `x >> (4 * m)`: `x` shifted right by `m` nibbles. */
  function Shr4(x: nat, m: nat): nat
  {
    if m == 0 then x else Shr4(x / 16, m - 1)
  }

  function Pow16(n: nat): (p: nat)
    ensures p > 0
  {
    if n == 0 then 1 else 16 * Pow16(n - 1)
  }

  /** The `n` low nibbles of `x` as hex digits, most significant first. */
  function HexDigits(x: nat, n: nat): (r: seq<byte>)
    ensures |r| == n
  {
    if n == 0 then [] else HexDigits(x / 16, n - 1) + [HexToAsc(x % 16)]
  }

  /** What `uart_hex_word_put` sends: the eight nibbles of a word. */
  function HexWord(w: u32): seq<byte>
  {
    HexDigits(w, 8)
  }

  /** The reading of a run of hex digits, most significant first, with
      `asc_to_hex`. */
  function HexValue(s: seq<byte>): nat
  {
    if s == [] then 0 else HexValue(s[..|s| - 1]) * 16 + AscToHex(s[|s| - 1])
  }

  /** Digit `k` of `HexDigits(x, n)` is nibble `n-1-k` of `x`, the one
      `(x >> shift) & 0x0f` selects. */
  lemma {:induction false} HexDigitsAt(x: nat, n: nat, k: nat)
    requires k < n
    ensures HexDigits(x, n)[k] == HexToAsc(Shr4(x, n - 1 - k) % 16)
  {
    if k < n - 1 {
      HexDigitsAt(x / 16, n - 1, k);
    }
  }

  /** Every character of a hex rendering is an upper-case hex digit. */
  lemma {:induction false} HexDigitsAreDigits(x: nat, n: nat)
    ensures forall k :: 0 <= k < n ==> IsUpperHexDigit(HexDigits(x, n)[k])
  {
    if n > 0 {
      HexDigitsAreDigits(x / 16, n - 1);
      HexToAscDigits(x % 16);
    }
  }

  /** Reading back `n` hex digits of a number below 16^n gives the number. */
  lemma {:induction false} HexDigitsRoundTrip(x: nat, n: nat)
    requires x < Pow16(n)
    ensures HexValue(HexDigits(x, n)) == x
  {
    if n > 0 {
      HexDigitsRoundTrip(x / 16, n - 1);
      AscToHexInverts(x % 16);
      var s := HexDigits(x, n);
      assert s[..|s| - 1] == HexDigits(x / 16, n - 1);
    }
  }

  /** `uart_hex_put` and `uart_hex_word_put` lose nothing: the digits read
      back as the byte and the word. */
  lemma HexRoundTrip(c: byte, w: u32)
    ensures HexValue(HexDigits(c, 2)) == c
    ensures HexValue(HexWord(w)) == w
  {
    assert Pow16(2) == 0x100;
    assert Pow16(8) == 0x1_0000_0000;
    HexDigitsRoundTrip(c, 2);
    HexDigitsRoundTrip(w, 8);
  }

  function DigitChar(d: nat): byte
    requires d < 10
  {
    '0' as int + d
  }

  /** What `uart_dec_put` sends: the decimal digits of `n`, most
      significant first. */
  function Decimal(n: nat): (r: seq<byte>)
    ensures |r| >= 1
  {
    if n < 10 then [DigitChar(n)] else Decimal(n / 10) + [DigitChar(n % 10)]
  }

  function Pow10(k: nat): (p: nat)
    ensures p > 0
  {
    if k == 0 then 1 else 10 * Pow10(k - 1)
  }

  /** The reading of a run of decimal digits, most significant first. */
  function DecValue(s: seq<byte>): int
  {
    if s == [] then 0 else DecValue(s[..|s| - 1]) * 10 + (s[|s| - 1] - '0' as int)
  }

  /** The rendering is all digits, with no leading zero; 0 is "0". */
  lemma {:induction false} DecimalDigits(n: nat)
    ensures forall k :: 0 <= k < |Decimal(n)| ==> '0' as int <= Decimal(n)[k] <= '9' as int
    ensures Decimal(n)[0] == '0' as int <==> n == 0
    ensures n == 0 ==> Decimal(n) == ['0' as int]
  {
    if n >= 10 {
      DecimalDigits(n / 10);
    }
  }

  /** A number below 10^k has at most k digits; a 32-bit number at most 10,
      so `digits[10]` is large enough. */
  lemma {:induction false} DecimalLength(n: nat, k: nat)
    requires 1 <= k && n < Pow10(k)
    ensures |Decimal(n)| <= k
  {
    if n >= 10 {
      DecimalLength(n / 10, k - 1);
    }
  }

  lemma DecimalLength32(n: u32)
    ensures |Decimal(n)| <= 10
  {
    assert Pow10(10) == 10_000_000_000;
    DecimalLength(n, 10);
  }

  /** Reading the rendering back gives the number. */
  lemma {:induction false} DecimalRoundTrip(n: nat)
    ensures DecValue(Decimal(n)) == n
  {
    if n >= 10 {
      DecimalRoundTrip(n / 10);
      var s := Decimal(n);
      assert s[..|s| - 1] == Decimal(n / 10);
    }
  }

  // ---------------------------------------------------------------------
  // The driver state
  // ---------------------------------------------------------------------

  class Uart {
    const rxBuf: array<byte>
    const txBuf: array<byte>
    var rxIn: nat
    var rxOut: nat
    var txIn: nat
    var txOut: nat
    var txInProgress: bool
    var errorCount: byte
    var serialFlag: byte

    ghost predicate Valid()
      reads this
    {
      rxBuf.Length == RX_BUF_SIZE && txBuf.Length == TX_BUF_SIZE && rxBuf != txBuf &&
      rxIn < RX_BUF_SIZE && rxOut < RX_BUF_SIZE && txIn < TX_BUF_SIZE && txOut < TX_BUF_SIZE
    }

    /** The receive queue. */
    ghost function Rx(): Ring
      reads this`rxIn, this`rxOut, rxBuf
    {
      Ring(rxBuf[..], rxIn, rxOut)
    }

    /** The transmit queue. */
    ghost function Tx(): Ring
      reads this`txIn, this`txOut, txBuf
    {
      Ring(txBuf[..], txIn, txOut)
    }

    /** The static storage of uart.cpp after `uart_init`: zeroed buffers, all
        cursors at the start. */
    constructor ()
      ensures Valid() && fresh(rxBuf) && fresh(txBuf)
      ensures Rx() == EmptyRing(RX_BUF_SIZE) && Tx() == EmptyRing(TX_BUF_SIZE)
      ensures !txInProgress && errorCount == 0 && serialFlag == 0
    {
      rxBuf := new byte[RX_BUF_SIZE](_ => 0);
      txBuf := new byte[TX_BUF_SIZE](_ => 0);
      rxIn, rxOut, txIn, txOut := 0, 0, 0, 0;
      txInProgress := false;
      errorCount, serialFlag := 0, 0;
    }

    /** `uart_init`: all four cursors to the start of their buffers, so both
        queues are empty; the stored bytes stay. */
    method Init()
      requires Valid()
      modifies this`rxIn, this`rxOut, this`txIn, this`txOut
      ensures Valid()
      ensures rxIn == 0 && rxOut == 0 && txIn == 0 && txOut == 0
      ensures Rx().Pending() == [] && Tx().Pending() == []
    {
      rxIn, rxOut, txIn, txOut := 0, 0, 0, 0;
    }

    /** The receive half of `uart_poll`: the byte read from the data
        register is stored at the rx in cursor, which advances. */
    method RxEnqueue(c: byte)
      requires Valid()
      modifies this`rxIn, rxBuf
      ensures Valid()
      ensures Rx() == old(Rx()).Put(c)
    {
      rxBuf[rxIn] := c;
      rxIn := if rxIn + 1 >= RX_BUF_SIZE then 0 else rxIn + 1;
    }

    /** The transmit half of `uart_poll`, run when the transmitter is empty:
        the oldest pending byte, if any, goes to the data register. */
    method TxDequeue() returns (sent: Option<byte>)
      requires Valid()
      modifies this`txOut, this`txInProgress
      ensures Valid()
      ensures old(txIn == txOut) ==> sent == None && Tx() == old(Tx()) && !txInProgress
      ensures old(txIn != txOut) ==>
        sent == Some(old(Tx()).Head()) && Tx() == old(Tx()).Get() && txInProgress
    {
      if txIn != txOut {
        sent := Some(txBuf[txOut]);
        txOut := if txOut + 1 >= TX_BUF_SIZE then 0 else txOut + 1;
        txInProgress := true;
      } else {
        sent := None;
        txInProgress := false;
      }
    }

    /** `uart_poll`, with the status bits and the data register as
        parameters: each overrun or framing error counts, a framing error
        discards the received byte, and `sent` is what goes to the data
        register when the transmitter is empty. */
    method Poll(oerr: bool, ferr: bool, rcif: bool, rcreg: byte, txif: bool)
      returns (sent: Option<byte>)
      requires Valid()
      modifies this, rxBuf
      ensures Valid()
      ensures errorCount == Wrap8(old(errorCount) + (if oerr then 1 else 0) + (if ferr then 1 else 0))
      ensures Rx() == if !ferr && rcif then old(Rx()).Put(rcreg) else old(Rx())
      ensures !txif ==> sent == None && Tx() == old(Tx()) && txInProgress == old(txInProgress)
      ensures txif && old(txIn == txOut) ==> sent == None && Tx() == old(Tx()) && !txInProgress
      ensures txif && old(txIn != txOut) ==>
        sent == Some(old(Tx()).Head()) && Tx() == old(Tx()).Get() && txInProgress
      ensures serialFlag == 1
    {
      if oerr {
        errorCount := Wrap8(errorCount + 1);
      }
      if ferr {
        errorCount := Wrap8(errorCount + 1);
      } else if rcif {
        RxEnqueue(rcreg);
      }
      sent := None;
      if txif {
        sent := TxDequeue();
      }
      serialFlag := 1;
    }

    /** `uart_put`: store `c` at the tx in cursor and advance it. */
    method Put(c: byte)
      requires Valid()
      modifies this`txIn, txBuf
      ensures Valid()
      ensures Tx() == old(Tx()).Put(c)
    {
      txBuf[txIn] := c;
      txIn := if txIn + 1 >= TX_BUF_SIZE then 0 else txIn + 1;
    }

    /** `uart_get`, called only when `uart_input` says a byte is there (it
        spins otherwise): the oldest received byte, removed from the queue. */
    method Get() returns (c: byte)
      requires Valid() && rxIn != rxOut
      modifies this`rxOut
      ensures Valid()
      ensures c == old(Rx()).Head() && Rx() == old(Rx()).Get()
    {
      c := rxBuf[rxOut];
      rxOut := if rxOut + 1 >= RX_BUF_SIZE then 0 else rxOut + 1;
    }

    /** `uart_input`: 1 exactly when a received byte is pending. */
    method Input() returns (r: byte)
      requires Valid()
      ensures r == 1 <==> Rx().Pending() != []
      ensures r == 0 <==> Rx().Pending() == []
    {
      r := if rxIn == rxOut then 0 else 1;
    }

    /** `uart_msg_put`: the bytes of `str` before its NUL, each as by `uart_put`. */
    method MsgPut(str: seq<byte>)
      requires Valid()
      modifies this`txIn, txBuf
      ensures Valid()
      ensures Tx() == old(Tx()).PutAll(UntilNul(str))
    {
      var i := 0;
      while i < |str| && str[i] != 0
        invariant Valid()
        invariant 0 <= i <= |str| && 0 !in str[..i]
        invariant Tx() == old(Tx()).PutAll(str[..i])
      {
        txBuf[txIn] := str[i];
        txIn := if txIn + 1 >= TX_BUF_SIZE then 0 else txIn + 1;
        assert str[..i + 1][..i] == str[..i];
        i := i + 1;
      }
      UntilNulPrefix(str, i);
    }

    /** `uart_msg_put(str)` as one piece of a longer text: `sofar` has been
        queued since the transmit queue was `t`. */
    method MsgPutAfter(ghost t: Ring, ghost sofar: seq<byte>, str: seq<byte>) returns (ghost sent: seq<byte>)
      requires Valid() && t.Valid() && Tx() == t.PutAll(sofar)
      modifies this`txIn, txBuf
      ensures Valid() && sent == sofar + UntilNul(str) && Tx() == t.PutAll(sent)
    {
      MsgPut(str);
      PutAllConcat(t, sofar, UntilNul(str));
      sent := sofar + UntilNul(str);
    }

    /** `uart_hex_put`: the byte as two hex digits, high nibble first. */
    method HexPut(c: byte)
      requires Valid()
      modifies this`txIn, txBuf
      ensures Valid()
      ensures Tx() == old(Tx()).PutAll(HexDigits(c, 2))
    {
      var hi, lo := HexToAsc((c / 16) % 0x10), HexToAsc(c % 0x10);
      ghost var t := Tx();
      Put(hi);
      Put(lo);
      assert HexDigits(c, 2) == [hi, lo];
      assert [hi, lo][..1] == [hi] && [hi][..0] == [];
      assert t.PutAll([hi]) == t.Put(hi);
    }

    /** `uart_hex_word_put`: the word as eight hex digits, shift 28 down to 0. */
    method HexWordPut(word: u32)
      requires Valid()
      modifies this`txIn, txBuf
      ensures Valid()
      ensures Tx() == old(Tx()).PutAll(HexWord(word))
    {
      var shift: int := 28;
      ghost var k := 0;
      while shift >= 0
        invariant Valid()
        invariant 0 <= k <= 8 && shift == 28 - 4 * k
        invariant Tx() == old(Tx()).PutAll(HexWord(word)[..k])
        decreases shift + 4
      {
        HexDigitsAt(word, 8, k);
        assert shift / 4 == 7 - k;
        var c := HexToAsc(Shr4(word, shift / 4) % 0x10);
        assert HexWord(word)[k] == c;
        ghost var sent := HexWord(word)[..k];
        Put(c);
        assert HexWord(word)[..k + 1] == sent + [c];
        assert (sent + [c])[..k] == sent;
        shift := shift - 4;
        k := k + 1;
      }
      assert HexWord(word)[..8] == HexWord(word);
    }

    /** `uart_dec_put`: the first loop collects the decimal digits of `num`
        least significant first in `digits[10]`; the second sends them back
        to front. */
    method DecPut(num: u32)
      requires Valid()
      modifies this`txIn, txBuf
      ensures Valid()
      ensures Tx() == old(Tx()).PutAll(Decimal(num))
    {
      DecimalLength32(num);
      var digits := new byte[10];
      var digit := 0;
      var n: nat := num;
      ghost var tail: seq<byte> := [];
      while true
        invariant Valid() && digits != txBuf && Tx() == old(Tx())
        invariant Decimal(num) == Decimal(n) + tail
        invariant |tail| == digit
        invariant forall k :: 0 <= k < digit ==> digits[k] < 10
        invariant forall k :: 0 <= k < digit ==> tail[digit - 1 - k] == DigitChar(digits[k])
        decreases n
      {
        ghost var m := n;
        digits[digit] := n % 10;
        tail := [DigitChar(n % 10)] + tail;
        n := n / 10;
        digit := digit + 1;
        if n == 0 {
          assert Decimal(m) == [DigitChar(m % 10)];
          break;
        }
      }
      assert Decimal(num) == tail;
      PutDigits(digits, digit, tail);
    }

    /** The second loop of `uart_dec_put`: send `digits[count-1]` down to
        `digits[0]` as characters, which spells `tail`. */
    method PutDigits(digits: array<byte>, count: nat, ghost tail: seq<byte>)
      requires Valid() && digits != txBuf && count <= digits.Length && |tail| == count
      requires forall k :: 0 <= k < count ==> digits[k] < 10
      requires forall k :: 0 <= k < count ==> tail[count - 1 - k] == DigitChar(digits[k])
      modifies this`txIn, txBuf
      ensures Valid() && Tx() == old(Tx()).PutAll(tail)
    {
      var digit := count;
      while digit > 0
        invariant Valid() && 0 <= digit <= count
        invariant Tx() == old(Tx()).PutAll(tail[..count - digit])
      {
        digit := digit - 1;
        ghost var sent := tail[..count - digit - 1];
        var c := '0' as int + digits[digit];
        assert c == tail[count - 1 - digit];
        Put(c);
        assert tail[..count - digit] == sent + [c];
        assert (sent + [c])[..count - digit - 1] == sent;
      }
      assert tail[..count] == tail;
    }
  }
}
