/** The 10^x lookup of m4/flowmeter/math_funcs.cpp: `pow10_table` holds
    pairs (key, value) with key = 1000 x and value close to 1000 * 10^x,
    for x from 1.220 to 1.807, ended by a 0, 0 pair; `pow10(num)` returns
    the value of the last pair whose key is below `num`. */
module MathFuncs {
  import opened Bytes

  /** The 67 (key, value) pairs of `pow10_table`, ten to a row. */
  const ROW0: seq<u16> := [1220, 16588, 1226, 16820, 1232, 17058, 1238, 17301, 1244, 17550, 1251, 17806, 1257, 18068, 1263, 18337, 1270, 18612, 1276, 18894]
  const ROW1: seq<u16> := [1283, 19184, 1290, 19481, 1296, 19786, 1303, 20099, 1310, 20421, 1317, 20751, 1324, 21090, 1331, 21438, 1338, 21796, 1346, 22164]
  const ROW2: seq<u16> := [1353, 22542, 1360, 22931, 1368, 23331, 1376, 23742, 1383, 24166, 1391, 24602, 1399, 25050, 1407, 25513, 1415, 25989, 1423, 26480]
  const ROW3: seq<u16> := [1431, 26985, 1439, 27507, 1448, 28045, 1456, 28600, 1465, 29172, 1474, 29764, 1483, 30374, 1491, 31004, 1500, 31656, 1510, 32329]
  const ROW4: seq<u16> := [1519, 33025, 1528, 33745, 1538, 34490, 1547, 35261, 1557, 36060, 1567, 36886, 1577, 37743, 1587, 38631, 1597, 39552, 1608, 40507]
  const ROW5: seq<u16> := [1618, 41497, 1629, 42526, 1639, 43594, 1650, 44704, 1661, 45858, 1673, 47058, 1684, 48305, 1696, 49604, 1707, 50956, 1719, 52365]
  const ROW6: seq<u16> := [1731, 53833, 1743, 55364, 1756, 56961, 1768, 58628, 1781, 60369, 1794, 62187, 1807, 64089]

  /** `pow10_table`: the 67 pairs, then the 0, 0 sentinel. */
  const POW10_TABLE: seq<u16> := ROW0 + ROW1 + ROW2 + ROW3 + ROW4 + ROW5 + ROW6 + [0, 0]

  /** Pairs before the sentinel. */
  const PAIRS: nat := 67

  function Key(t: seq<u16>, k: nat): u16
    requires 2 * k + 1 < |t|
  {
    t[2 * k]
  }

  function Val(t: seq<u16>, k: nat): u16
    requires 2 * k + 1 < |t|
  {
    t[2 * k + 1]
  }

  /** What the lookup needs of a table: `PAIRS` pairs with non-zero keys,
      keys and values strictly increasing from pair to pair, then a 0, 0
      pair. */
  ghost predicate SortedTable(t: seq<u16>)
  {
    |t| == 2 * PAIRS + 2 &&
    (forall k :: 0 <= k < PAIRS - 1 ==> 0 < t[2 * k] < t[2 * k + 2] && t[2 * k + 1] < t[2 * k + 3]) &&
    0 < t[2 * PAIRS - 2] && t[2 * PAIRS] == 0 && t[2 * PAIRS + 1] == 0
  }

  /** Pair k of a run of pairs has a non-zero key, and both its key and value
      are below those of the next pair, if there is one. */
  predicate PairOk(t: seq<u16>, k: nat)
    requires 2 * k + 1 < |t|
  {
    0 < t[2 * k] && (2 * k + 3 < |t| ==> t[2 * k] < t[2 * k + 2] && t[2 * k + 1] < t[2 * k + 3])
  }

  /** A non-empty run of pairs, each in order with the next. */
  predicate PairsSorted(t: seq<u16>)
  {
    2 <= |t| && |t| % 2 == 0 && forall k :: 0 <= k < |t| / 2 ==> PairOk(t, k)
  }

  /** Two sorted runs whose boundary pairs are in order join to a sorted
      run. */
  lemma JoinSorted(a: seq<u16>, b: seq<u16>)
    requires PairsSorted(a) && PairsSorted(b)
    requires a[|a| - 2] < b[0] && a[|a| - 1] < b[1]
    ensures PairsSorted(a + b)
  {
    var c := a + b;
    forall k | 0 <= k < |c| / 2 ensures PairOk(c, k) {
      if 2 * k + 2 < |a| {
        assert PairOk(a, k);
        assert c[2 * k] == a[2 * k] && c[2 * k + 2] == a[2 * k + 2];
        assert c[2 * k + 1] == a[2 * k + 1] && c[2 * k + 3] == a[2 * k + 3];
      } else if 2 * k + 2 == |a| {
        assert PairOk(a, k);
        assert c[2 * k] == a[2 * k] && c[2 * k + 2] == b[0];
        assert c[2 * k + 1] == a[2 * k + 1] && c[2 * k + 3] == b[1];
      } else {
        var j := k - |a| / 2;
        assert PairOk(b, j);
        assert c[2 * k] == b[2 * j] && c[2 * k + 1] == b[2 * j + 1];
        if 2 * k + 3 < |c| {
          assert c[2 * k + 2] == b[2 * j + 2] && c[2 * k + 3] == b[2 * j + 3];
        }
      }
    }
  }

  lemma Row0Sorted()
    ensures PairsSorted(ROW0)
  {
    forall k | 0 <= k < 10 ensures PairOk(ROW0, k) {
      if k == 0 { }
      else if k == 1 { }
      else if k == 2 { }
      else if k == 3 { }
      else if k == 4 { }
      else if k == 5 { }
      else if k == 6 { }
      else if k == 7 { }
      else if k == 8 { }
      else if k == 9 { }
    }
  }

  lemma Row1Sorted()
    ensures PairsSorted(ROW1)
  {
    forall k | 0 <= k < 10 ensures PairOk(ROW1, k) {
      if k == 0 { }
      else if k == 1 { }
      else if k == 2 { }
      else if k == 3 { }
      else if k == 4 { }
      else if k == 5 { }
      else if k == 6 { }
      else if k == 7 { }
      else if k == 8 { }
      else if k == 9 { }
    }
  }

  lemma Row2Sorted()
    ensures PairsSorted(ROW2)
  {
    forall k | 0 <= k < 10 ensures PairOk(ROW2, k) {
      if k == 0 { }
      else if k == 1 { }
      else if k == 2 { }
      else if k == 3 { }
      else if k == 4 { }
      else if k == 5 { }
      else if k == 6 { }
      else if k == 7 { }
      else if k == 8 { }
      else if k == 9 { }
    }
  }

  lemma Row3Sorted()
    ensures PairsSorted(ROW3)
  {
    forall k | 0 <= k < 10 ensures PairOk(ROW3, k) {
      if k == 0 { }
      else if k == 1 { }
      else if k == 2 { }
      else if k == 3 { }
      else if k == 4 { }
      else if k == 5 { }
      else if k == 6 { }
      else if k == 7 { }
      else if k == 8 { }
      else if k == 9 { }
    }
  }

  lemma Row4Sorted()
    ensures PairsSorted(ROW4)
  {
    forall k | 0 <= k < 10 ensures PairOk(ROW4, k) {
      if k == 0 { }
      else if k == 1 { }
      else if k == 2 { }
      else if k == 3 { }
      else if k == 4 { }
      else if k == 5 { }
      else if k == 6 { }
      else if k == 7 { }
      else if k == 8 { }
      else if k == 9 { }
    }
  }

  lemma Row5Sorted()
    ensures PairsSorted(ROW5)
  {
    forall k | 0 <= k < 10 ensures PairOk(ROW5, k) {
      if k == 0 { }
      else if k == 1 { }
      else if k == 2 { }
      else if k == 3 { }
      else if k == 4 { }
      else if k == 5 { }
      else if k == 6 { }
      else if k == 7 { }
      else if k == 8 { }
      else if k == 9 { }
    }
  }

  lemma Row6Sorted()
    ensures PairsSorted(ROW6)
  {
    forall k | 0 <= k < 7 ensures PairOk(ROW6, k) {
      if k == 0 { }
      else if k == 1 { }
      else if k == 2 { }
      else if k == 3 { }
      else if k == 4 { }
      else if k == 5 { }
      else if k == 6 { }
    }
  }

  /** The 67 pairs form one sorted run. */
  lemma PairsOfTable()
    ensures PairsSorted(ROW0 + ROW1 + ROW2 + ROW3 + ROW4 + ROW5 + ROW6)
  {
    Row0Sorted();
    Row1Sorted();
    JoinSorted(ROW0, ROW1);
    Row2Sorted();
    JoinSorted(ROW0 + ROW1, ROW2);
    Row3Sorted();
    JoinSorted(ROW0 + ROW1 + ROW2, ROW3);
    Row4Sorted();
    JoinSorted(ROW0 + ROW1 + ROW2 + ROW3, ROW4);
    Row5Sorted();
    JoinSorted(ROW0 + ROW1 + ROW2 + ROW3 + ROW4, ROW5);
    Row6Sorted();
    JoinSorted(ROW0 + ROW1 + ROW2 + ROW3 + ROW4 + ROW5, ROW6);
  }

  /** Keys and values are strictly increasing, every key before the
      sentinel is non-zero, and the sentinel is the pair 0, 0 after pair 66
      (key 1807, value 64089). */
  lemma TableShape()
    ensures SortedTable(POW10_TABLE)
    ensures Key(POW10_TABLE, 0) == 1220 && Key(POW10_TABLE, PAIRS - 1) == 1807
    ensures Val(POW10_TABLE, PAIRS - 1) == 64089
  {
    var d := ROW0 + ROW1 + ROW2 + ROW3 + ROW4 + ROW5 + ROW6;
    PairsOfTable();
    assert POW10_TABLE == d + [0, 0];
    assert |d| == 2 * PAIRS;
    forall k | 0 <= k < PAIRS - 1
      ensures 0 < POW10_TABLE[2 * k] < POW10_TABLE[2 * k + 2]
      ensures POW10_TABLE[2 * k + 1] < POW10_TABLE[2 * k + 3]
    {
      assert PairOk(d, k);
    }
    assert PairOk(d, PAIRS - 1);
    assert d[0] == ROW0[0] && d[2 * PAIRS - 2] == ROW6[12] && d[2 * PAIRS - 1] == ROW6[13];
  }

  /** The `result` of `pow10` after the loop has looked at pairs 0 .. k-1. */
  function Scan(t: seq<u16>, num: int, k: nat): int
    requires 2 * k <= |t|
  {
    if k == 0 then 0 else if Key(t, k - 1) < num then Val(t, k - 1) else Scan(t, num, k - 1)
  }

  /** What `pow10(num)` returns. */
  function Pow10Of(num: int): int
  {
    Scan(POW10_TABLE, num, PAIRS)
  }

  /** The loop of `pow10` over a table of the right shape: walk the keys at
      even indices until the 0 key of the sentinel, keeping the value of each
      key below `num`. */
  method Lookup(t: seq<u16>, num: int) returns (result: int)
    requires SortedTable(t)
    ensures result == Scan(t, num, PAIRS)
  {
    var i := 0;
    result := 0;
    while t[i] != 0
      invariant 0 <= i <= 2 * PAIRS && i % 2 == 0
      invariant result == Scan(t, num, i / 2)
      decreases 2 * PAIRS - i
    {
      if t[i] < num {
        result := t[i + 1];
      }
      i := i + 2;
    }
    if i < 2 * PAIRS {
      KeyPositive(t, i);
      assert false;
    }
  }

  /** Every key before the sentinel is non-zero, so the loop of `pow10` only
      stops at the sentinel. */
  lemma KeyPositive(t: seq<u16>, i: nat)
    requires SortedTable(t) && i % 2 == 0 && i < 2 * PAIRS
    ensures 0 < t[i]
  {
    assert i == 2 * (i / 2);
    if i / 2 < PAIRS - 1 {
      assert 0 < t[2 * (i / 2)];
    }
  }

  /** `pow10` */
  method Pow10(num: int) returns (result: int)
    ensures result == Pow10Of(num)
  {
    TableShape();
    result := Lookup(POW10_TABLE, num);
  }

  /** Later keys are larger: the keys are sorted, not just pairwise. */
  lemma {:induction false} KeysSorted(t: seq<u16>, j: nat, k: nat)
    requires SortedTable(t) && j < k < PAIRS
    ensures Key(t, j) < Key(t, k) && Val(t, j) < Val(t, k)
    decreases k - j
  {
    if j + 1 < k {
      KeysSorted(t, j + 1, k);
    }
  }

  /** The scan settles on the last pair whose key is below `num`: once no
      later key is below `num`, the result stays. */
  lemma {:induction false} ScanKeepsLast(t: seq<u16>, num: int, k: nat, m: nat)
    requires SortedTable(t) && k < m <= PAIRS && Key(t, k) < num
    requires forall j :: k < j < m ==> num <= Key(t, j)
    ensures Scan(t, num, m) == Val(t, k)
  {
    if m > k + 1 {
      ScanKeepsLast(t, num, k, m - 1);
    }
  }

  /** `pow10(num)` is the value paired with the largest key strictly below
      `num`. */
  lemma Pow10LargestKeyBelow(num: int, k: nat)
    requires k < PAIRS && Key(POW10_TABLE, k) < num
    requires k == PAIRS - 1 || num <= Key(POW10_TABLE, k + 1)
    ensures Pow10Of(num) == Val(POW10_TABLE, k)
  {
    TableShape();
    var t := POW10_TABLE;
    forall j | k < j < PAIRS ensures num <= Key(t, j) {
      if j > k + 1 {
        KeysSorted(t, k + 1, j);
      }
    }
    ScanKeepsLast(t, num, k, PAIRS);
  }

  /** No key is below `num`: the result stays 0. */
  lemma {:induction false} ScanNoneBelow(t: seq<u16>, num: int, m: nat)
    requires 2 * m <= |t|
    requires forall j :: 0 <= j < m ==> num <= Key(t, j)
    ensures Scan(t, num, m) == 0
  {
    if m > 0 {
      ScanNoneBelow(t, num, m - 1);
    }
  }

  /** At or below the first key, 1220, the result is 0. */
  lemma Pow10Low(num: int)
    requires num <= 1220
    ensures Pow10Of(num) == 0
  {
    TableShape();
    var t := POW10_TABLE;
    forall j | 0 <= j < PAIRS ensures num <= Key(t, j) {
      if j > 0 {
        KeysSorted(t, 0, j);
      }
    }
    ScanNoneBelow(t, num, PAIRS);
  }

  /** Above the last key, 1807, the result is the last value, 64089. */
  lemma Pow10High(num: int)
    requires num > 1807
    ensures Pow10Of(num) == 64089
  {
    TableShape();
    Pow10LargestKeyBelow(num, PAIRS - 1);
  }

  /** The scanned value never exceeds the value of the last pair looked at. */
  lemma {:induction false} ScanBelowLastVal(t: seq<u16>, num: int, m: nat)
    requires SortedTable(t) && 0 < m <= PAIRS
    ensures Scan(t, num, m) <= Val(t, m - 1)
  {
    if m > 1 {
      ScanBelowLastVal(t, num, m - 1);
      KeysSorted(t, m - 2, m - 1);
    }
  }

  lemma {:induction false} ScanMonotone(t: seq<u16>, a: int, b: int, m: nat)
    requires SortedTable(t) && a <= b && m <= PAIRS
    ensures Scan(t, a, m) <= Scan(t, b, m)
  {
    if m > 0 {
      ScanMonotone(t, a, b, m - 1);
      if m > 1 {
        ScanBelowLastVal(t, a, m - 1);
        KeysSorted(t, m - 2, m - 1);
      }
    }
  }

  /** `pow10` is non-decreasing in `num`. */
  lemma Pow10Monotone(a: int, b: int)
    requires a <= b
    ensures Pow10Of(a) <= Pow10Of(b)
  {
    TableShape();
    ScanMonotone(POW10_TABLE, a, b, PAIRS);
  }

  /** The result is 0 or one of the table's values. */
  lemma {:induction false} ScanRange(t: seq<u16>, num: int, m: nat)
    requires 2 * m <= |t|
    ensures Scan(t, num, m) == 0 || exists k :: 0 <= k < m && Scan(t, num, m) == Val(t, k)
  {
    if m > 0 {
      ScanRange(t, num, m - 1);
    }
  }

  lemma Pow10Range(num: int)
    ensures Pow10Of(num) == 0 || exists k :: 0 <= k < PAIRS && Pow10Of(num) == Val(POW10_TABLE, k)
  {
    ScanRange(POW10_TABLE, num, PAIRS);
  }
}
