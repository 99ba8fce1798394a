/** Fixed-width unsigned integers of the KL25Z firmware and the byte strings the
    UART routines send.  The C types `UCHAR`, `uint16_t` and `unsigned int`
    (32 bits on the target) become subset types of `int`; wrap-around is written
    out wherever the firmware relies on it. */
module Bytes {

  datatype Option<T> = None | Some(value: T)

  type byte = x: int | 0 <= x < 0x100
  type u16 = x: int | 0 <= x < 0x1_0000
  type u32 = x: int | 0 <= x < 0x1_0000_0000

  /** `UCHAR` arithmetic: the value kept after an 8-bit store. */
  function Wrap8(x: int): (r: byte)
    ensures 0 <= x < 0x100 ==> r == x
    ensures (r - x) % 0x100 == 0
  {
    x % 0x100
  }

  /** `uint16_t` arithmetic. */
  function Wrap16(x: int): (r: u16)
    ensures 0 <= x < 0x1_0000 ==> r == x
    ensures (r - x) % 0x1_0000 == 0
  {
    x % 0x1_0000
  }

  /** `unsigned int` arithmetic, also the conversion of a C `int` argument to
      an `unsigned int` parameter. */
  function Wrap32(x: int): (r: u32)
    ensures 0 <= x < 0x1_0000_0000 ==> r == x
    ensures (r - x) % 0x1_0000_0000 == 0
  {
    x % 0x1_0000_0000
  }

  /** An `unsigned int` stored into an `int`: two's complement on the
      target. */
  function Int32(x: u32): (r: int)
    ensures -0x8000_0000 <= r < 0x8000_0000
    ensures Wrap32(r) == x
  {
    if x < 0x8000_0000 then x else x - 0x1_0000_0000
  }

  /** The byte a C character literal stands for (all literals here are ASCII). */
  function CharByte(c: char): byte
  {
    (c as int) % 0x100
  }

  /** A C string literal as the bytes stored in memory, without its terminator. */
  function Ascii(s: string): (r: seq<byte>)
    ensures |r| == |s|
    ensures forall i :: 0 <= i < |s| ==> r[i] == CharByte(s[i])
  {
    seq(|s|, i requires 0 <= i < |s| => CharByte(s[i]))
  }

  /** The bytes a routine that walks a NUL-terminated string sees: everything
      before the first NUL.  The end of `s` stands for the terminator. */
  function UntilNul(s: seq<byte>): (r: seq<byte>)
    ensures |r| <= |s| && r == s[..|r|]
    ensures 0 !in r
    ensures |r| < |s| ==> s[|r|] == 0
  {
    if s == [] || s[0] == 0 then [] else [s[0]] + UntilNul(s[1..])
  }

  /** The bytes `uart_msg_put("...")` sends for a string literal. */
  function Text(s: string): seq<byte>
  {
    UntilNul(Ascii(s))
  }

  /** A prefix free of NUL that ends at a NUL or at the end is what a
      NUL-terminated walk sees. */
  lemma UntilNulPrefix(s: seq<byte>, i: nat)
    requires i <= |s| && 0 !in s[..i] && (i == |s| || s[i] == 0)
    ensures UntilNul(s) == s[..i]
  {
    var r := UntilNul(s);
    assert forall k :: 0 <= k < i ==> s[k] == s[..i][k] != 0;
    assert forall k :: 0 <= k < |r| ==> s[k] == r[k] != 0;
  }

  /** A literal that does not start with NUL sends at least one byte. */
  lemma TextNotEmpty(s: string)
    requires s != [] && CharByte(s[0]) != 0
    ensures Text(s) != [] && Text(s)[0] == CharByte(s[0])
  {
  }

  lemma {:induction false} UntilNulNoNul(s: seq<byte>)
    requires 0 !in s
    ensures UntilNul(s) == s
  {
    if s != [] {
      UntilNulNoNul(s[1..]);
    }
  }
}
