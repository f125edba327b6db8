/** Retry delays: the tier computed for an attempt and the parking queue it names. */
module Backoff {
  const WORD := 0x1_0000_0000_0000_0000
  const HALF_WORD := 0x8000_0000_0000_0000

  function Pow2(k: nat): (r: nat)
    ensures r >= 1
  {
    if k == 0 then 1 else 2 * Pow2(k - 1)
  }

  /** `1 << k` on a signed 64-bit integer: bits shifted out are lost, the top bit is the sign. */
  function ShiftOne(k: nat): int {
    var u := Pow2(k) % WORD;
    if u >= HALF_WORD then u - WORD else u
  }

  /** The delay in seconds before attempt `n`. */
  function Tier(n: nat): int
    requires n >= 2
  {
    var t := ShiftOne(n - 2);
    if t > 16 then 16 else t
  }

  /** The tier column is a 32-bit integer; PostgreSQL refuses anything else. */
  predicate FitsInt32(tier: int) {
    -0x8000_0000 <= tier < 0x8000_0000
  }

  const RETRY_TIERS: seq<int> := [1, 2, 4, 8, 16]

  lemma {:induction false} Pow2Splits(a: nat, b: nat)
    ensures Pow2(a + b) == Pow2(a) * Pow2(b)
  {
    if a > 0 {
      Pow2Splits(a - 1, b);
    }
  }

  lemma {:induction false} Pow2Monotone(a: nat, b: nat)
    requires a <= b
    ensures Pow2(a) <= Pow2(b)
  {
    if a < b { Pow2Monotone(a, b - 1); }
  }

  lemma {:induction false} Pow2Of64()
    ensures Pow2(4) == 16 && Pow2(62) == 0x4000_0000_0000_0000 && Pow2(63) == HALF_WORD && Pow2(64) == WORD
  {
    SmallPowers();
    assert Pow2(8) == 0x100 by { Pow2Splits(4, 4); }
    assert Pow2(16) == 0x1_0000 by { Pow2Splits(8, 8); }
    assert Pow2(32) == 0x1_0000_0000 by { Pow2Splits(16, 16); }
    assert Pow2(64) == WORD by { Pow2Splits(32, 32); }
    assert Pow2(64) == 2 * Pow2(63);
    assert Pow2(63) == 2 * Pow2(62);
  }

  /**
   * For every attempt from 2 on, the tier is the capped power of two, and one of the declared tiers,
   * exactly up to attempt 64. At 65 the sign bit is set and the column refuses the value; beyond it
   * the shift is lost and the task is sent without delay.
   */
  lemma {:induction false} TierExact(n: nat)
    requires n >= 2
    ensures n <= 64 <==> Tier(n) == if Pow2(n - 2) <= 16 then Pow2(n - 2) else 16
    ensures n <= 64 <==> Tier(n) in RETRY_TIERS
    ensures FitsInt32(Tier(n)) <==> n != 65
    ensures n >= 66 ==> Tier(n) == 0
  {
    Pow2Of64();
    if n <= 64 {
      TierUpTo64(n);
    } else if n >= 66 {
      ShiftedOut(n - 2);
    }
  }

  lemma {:induction false} TierUpTo64(n: nat)
    requires 2 <= n <= 64
    ensures Tier(n) == if Pow2(n - 2) <= 16 then Pow2(n - 2) else 16
    ensures Tier(n) in RETRY_TIERS
  {
    var k := n - 2;
    Pow2Of64();
    Pow2Monotone(k, 62);
    assert ShiftOne(k) == Pow2(k);
    if k > 4 {
      Pow2Monotone(4, k);
    } else {
      SmallPowers();
    }
  }

  lemma {:induction false} SmallPowers()
    ensures Pow2(0) == 1 && Pow2(1) == 2 && Pow2(2) == 4 && Pow2(3) == 8 && Pow2(4) == 16
  {
  }

  lemma {:induction false} ShiftedOut(k: nat)
    requires k >= 64
    ensures ShiftOne(k) == 0
  {
    Pow2Of64();
    Pow2Splits(k - 64, 64);
    MultipleOfWord(Pow2(k - 64));
  }

  lemma {:induction false} MultipleOfWord(q: nat)
    ensures q * WORD % WORD == 0
  {
  }

  /** Seconds spent waiting when an activity runs through `m` attempts. */
  function TotalDelay(m: nat): int {
    if m < 2 then 0 else TotalDelay(m - 1) + Tier(m)
  }

  lemma {:induction false} TotalDelayClosedForm(m: nat)
    requires 1 <= m <= 64
    ensures TotalDelay(m) == if m <= 6 then Pow2(m - 1) - 1 else 31 + 16 * (m - 6)
  {
    if m > 1 {
      TotalDelayClosedForm(m - 1);
      TierExact(m);
      assert Pow2(m - 1) == 2 * Pow2(m - 2);
      SmallPowers();
      if m > 6 { Pow2Monotone(5, m - 2); }
    }
  }
}
