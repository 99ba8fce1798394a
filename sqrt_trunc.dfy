/** The bisection integer square root of m1/sqrt_c/sqrt_trunc.c.  All
    variables are `uint32_t`; the proof shows that neither `low + high` nor
    `guess * guess` ever wraps, so the 32-bit arithmetic agrees with the
    unbounded one. */
module SqrtTrunc {
  import opened Bytes

  /** The initial `high`: `1<<15+1` parses as `1 << 16`, which is indeed the
      smallest bound whose square exceeds every 32-bit number. */
  const SQRT_HIGH: u32 := 0x1_0000

  /** `r` is the square root of `num`, rounded down. */
  predicate IsTruncSqrt(num: int, r: int)
  {
    0 <= r && r * r <= num < (r + 1) * (r + 1)
  }

  lemma SquareMonotone(a: int, b: int)
    requires 0 <= a <= b
    ensures a * a <= b * b
  {
    assert a * a <= a * b <= b * b;
  }

  /** There is at most one truncated square root. */
  lemma TruncSqrtUnique(num: int, r: int, s: int)
    requires IsTruncSqrt(num, r) && IsTruncSqrt(num, s)
    ensures r == s
  {
    if r < s {
      SquareMonotone(r + 1, s);
    } else if s < r {
      SquareMonotone(s + 1, r);
    }
  }

  /** `guess * guess` for the guesses the loop makes: below 2^32. */
  lemma GuessSquareFits(g: int)
    requires 0 <= g < SQRT_HIGH
    ensures g * g <= 0xFFFE_0001 < 0x1_0000_0000
  {
    SquareMonotone(g, SQRT_HIGH - 1);
  }

  lemma BelowOwnSquare(n: int)
    requires 2 <= n
    ensures n < n * n
  {
    assert n * n >= 2 * n;
  }

  /** A guess that repeats the previous one: the previous guess was `low`,
      `high` or an exact root, and halving the range gave it again. */
  lemma RepeatedGuess(num: int, low: int, high: int, g: int)
    requires 0 <= low < high && low * low <= num < high * high
    requires g == (low + high) / 2
    requires g == low || g == high || g * g == num
    ensures g * g <= num
    ensures g * g < num ==> high == g + 1
  {
  }

  /** `sqrt_trunc`: for `num <= 1` the answer is `num` itself; otherwise
      bisect between `low` (square at most `num`) and `high` (square above
      `num`) until a guess repeats. */
  method Sqrt(num: u32) returns (r: u32)
    ensures IsTruncSqrt(num, r)
    ensures num <= 1 ==> r == num
  {
    var low: u32 := 0;
    var high: u32 := SQRT_HIGH;
    var lastGuess: u32;
    var guess: u32 := 0;
    var squared: u32;

    high := if num <= high then num else high;

    if num <= 1 {
      return num;
    }

    BelowOwnSquare(num);
    while true
      invariant low < high <= SQRT_HIGH
      invariant low * low <= num < high * high
      invariant guess == low || guess == high || guess * guess == num
      decreases high - low, if guess == (low + high) / 2 then 0 else 1
    {
      lastGuess := guess;
      guess := Wrap32(low + high) / 2;
      GuessSquareFits(guess);
      squared := Wrap32(guess * guess);
      assert squared == guess * guess;
      assert low <= guess < high;
      if lastGuess == guess {
        RepeatedGuess(num, low, high, guess);
      }

      if squared != num {
        if squared < num {
          low := guess;
        } else {
          high := guess;
        }
      }
      if lastGuess == guess {
        break;
      }
    }
    r := guess;
  }

  /** The rows of the truncation test table all agree with the truncated
      square root, so a result with the contract of `Sqrt` passes each of
      them. */
  lemma TestTable(num: int, r: int)
    requires IsTruncSqrt(num, r)
    ensures num == 0 ==> r == 0
    ensures num == 1 ==> r == 1
    ensures 2 <= num <= 3 ==> r == 1
    ensures 4 <= num <= 8 ==> r == 2
    ensures 9 <= num <= 11 ==> r == 3
    ensures 4294836223 <= num <= 4294836224 ==> r == 65534
    ensures 4294836225 <= num <= 4294967295 ==> r == 65535
  {
    if num == 0 { TruncSqrtUnique(num, r, 0); }
    else if num == 1 { TruncSqrtUnique(num, r, 1); }
    else if 2 <= num <= 3 { TruncSqrtUnique(num, r, 1); }
    else if 4 <= num <= 8 { TruncSqrtUnique(num, r, 2); }
    else if 9 <= num <= 11 { TruncSqrtUnique(num, r, 3); }
    else if 4294836223 <= num <= 4294836224 { TruncSqrtUnique(num, r, 65534); }
    else if 4294836225 <= num <= 4294967295 { TruncSqrtUnique(num, r, 65535); }
  }

  /** Every 32-bit number has a truncated square root, below 2^16. */
  lemma {:induction false} TruncSqrtExists(num: nat) returns (r: nat)
    ensures IsTruncSqrt(num, r)
    ensures num < 0x1_0000_0000 ==> r < SQRT_HIGH
  {
    if num == 0 {
      r := 0;
    } else {
      var q := TruncSqrtExists(num - 1);
      if (q + 1) * (q + 1) == num {
        r := q + 1;
        SquareMonotone(q + 2, q + 2);
      } else {
        r := q;
      }
      if num < 0x1_0000_0000 && r >= SQRT_HIGH {
        SquareMonotone(SQRT_HIGH, r);
      }
    }
  }
}
