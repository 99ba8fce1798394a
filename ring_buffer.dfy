/** The circular byte queues of m4/flowmeter/uart.cpp, as values: the storage,
    the in cursor (where the next byte is stored) and the out cursor (where the
    oldest pending byte is).  The firmware keeps pointers into the storage; a
    pointer `buf + k` is cursor `k` here.  "Empty" is `inp == out`; nothing
    distinguishes a full queue, so a put that fills the last free slot makes the
    queue look empty again. */
module RingBuffer {
  import opened Bytes

  datatype Ring = Ring(buf: seq<byte>, inp: nat, out: nat) {

    ghost predicate Valid() {
      |buf| > 0 && inp < |buf| && out < |buf|
    }

    /** `p++; if (p >= buf + SIZE) p = buf;` */
    function Next(k: nat): (r: nat)
      requires k < |buf|
      ensures r < |buf|
      ensures r == if k + 1 == |buf| then 0 else k + 1
    {
      if k + 1 >= |buf| then 0 else k + 1
    }

    /** Slot `x` of the storage, for a slot number counted past the end at
        most once. */
    function Slot(x: nat): (r: nat)
      requires x < 2 * |buf|
      ensures r < |buf|
    {
      if x < |buf| then x else x - |buf|
    }

    /** Number of pending bytes. */
    function Count(): (n: nat)
      requires Valid()
      ensures n < |buf|
      ensures n == 0 <==> inp == out
    {
      if out <= inp then inp - out else inp + |buf| - out
    }

    /** The pending bytes, oldest first. */
    function Pending(): (p: seq<byte>)
      requires Valid()
      ensures |p| == Count()
      ensures p == [] <==> inp == out
      ensures forall k :: 0 <= k < |p| ==> p[k] == buf[Slot(out + k)]
    {
      if out <= inp then buf[out..inp] else buf[out..] + buf[..inp]
    }

    /** Store `c` at the in cursor and advance it. */
    function Put(c: byte): (r: Ring)
      requires Valid()
      ensures r.Valid() && |r.buf| == |buf| && r.out == out
    {
      Ring(buf[inp := c], Next(inp), out)
    }

    /** The oldest pending byte. */
    function Head(): byte
      requires Valid()
    {
      buf[out]
    }

    /** Advance the out cursor past the oldest byte. */
    function Get(): (r: Ring)
      requires Valid()
      ensures r.Valid() && r.buf == buf && r.inp == inp
    {
      Ring(buf, inp, Next(out))
    }

    /** `Put` applied to every byte of `s`, first byte first. */
    function PutAll(s: seq<byte>): (r: Ring)
      requires Valid()
      ensures r.Valid() && |r.buf| == |buf| && r.out == out
      decreases |s|
    {
      if s == [] then this else PutAll(s[..|s| - 1]).Put(s[|s| - 1])
    }
  }

  /** A ring of the given capacity as static storage leaves it: zeroed, with
      both cursors at the start. */
  function EmptyRing(capacity: nat): (r: Ring)
    requires capacity > 0
    ensures r.Valid() && |r.buf| == capacity && r.Pending() == []
  {
    Ring(seq(capacity, _ => 0), 0, 0)
  }

  /** While there is room, a put appends to the pending bytes. */
  lemma PutAppends(r: Ring, c: byte)
    requires r.Valid() && r.Count() < |r.buf| - 1
    ensures r.Put(c).Count() == r.Count() + 1
    ensures r.Put(c).Pending() == r.Pending() + [c]
  {
    var p, q := r.Pending(), r.Put(c).Pending();
    assert r.Slot(r.out + r.Count()) == r.inp;
    forall k | 0 <= k < |q| ensures q[k] == (p + [c])[k] {
      if k < |p| {
        assert r.Slot(r.out + k) != r.inp;
      }
    }
  }

  /** No full check: the put that fills the last free slot brings the in cursor
      onto the out cursor, so the queue looks empty and its bytes are lost. */
  lemma PutOnFullLooksEmpty(r: Ring, c: byte)
    requires r.Valid() && r.Count() == |r.buf| - 1
    ensures r.Put(c).inp == r.out
    ensures r.Put(c).Pending() == []
  {
  }

  /** A get yields the oldest pending byte and removes exactly that byte. */
  lemma GetRemovesHead(r: Ring)
    requires r.Valid() && r.inp != r.out
    ensures r.Pending() != [] && r.Head() == r.Pending()[0]
    ensures r.Get().Pending() == r.Pending()[1..]
  {
    var p, q := r.Pending(), r.Get().Pending();
    assert |q| == |p| - 1;
    forall k | 0 <= k < |q| ensures q[k] == p[k + 1] {
      assert r.Slot(r.Next(r.out) + k) == r.Slot(r.out + (k + 1));
    }
  }

  /** Putting a + b is putting a, then b. */
  lemma {:induction false} PutAllConcat(r: Ring, a: seq<byte>, b: seq<byte>)
    requires r.Valid()
    ensures r.PutAll(a + b) == r.PutAll(a).PutAll(b)
    decreases |b|
  {
    if b == [] {
      assert a + b == a;
    } else {
      assert (a + b)[..|a + b| - 1] == a + b[..|b| - 1];
      PutAllConcat(r, a, b[..|b| - 1]);
    }
  }

  /** FIFO: while fewer than capacity bytes are pending, putting `s` appends `s`
      to the pending bytes, in order. */
  lemma {:induction false} PutAllAppends(r: Ring, s: seq<byte>)
    requires r.Valid() && r.Count() + |s| < |r.buf|
    ensures r.PutAll(s).Pending() == r.Pending() + s
    decreases |s|
  {
    if s != [] {
      var init := s[..|s| - 1];
      PutAllAppends(r, init);
      PutAppends(r.PutAll(init), s[|s| - 1]);
      assert init + [s[|s| - 1]] == s;
    }
  }

  /** The in cursor moves by one slot per byte, wrapping at the capacity. */
  lemma {:induction false} PutAllCursor(r: Ring, s: seq<byte>)
    requires r.Valid() && |s| <= |r.buf|
    ensures r.PutAll(s).inp == r.Slot(r.inp + |s|)
    decreases |s|
  {
    if s != [] {
      PutAllCursor(r, s[..|s| - 1]);
    }
  }

  /** Exactly capacity puts with no get in between bring the in cursor back to
      where it was: a queue that was empty looks empty again and all of `s` is
      lost. */
  lemma CapacityPutsLookEmpty(r: Ring, s: seq<byte>)
    requires r.Valid() && r.inp == r.out && |s| == |r.buf|
    ensures r.PutAll(s).inp == r.PutAll(s).out
    ensures r.PutAll(s).Pending() == []
  {
    PutAllCursor(r, s);
  }
}
