// Machine integers of the Rust sources, as ranges of int, and the three u64
// bit operations the replay window uses, spelled out on the binary digits.
module Words {
  const U8_LIMIT := 0x100
  const U16_LIMIT := 0x1_0000
  const U32_LIMIT := 0x1_0000_0000
  const U64_LIMIT := 0x1_0000_0000_0000_0000
  const U64_MAX := U64_LIMIT - 1

  type Byte = x: int | 0 <= x < U8_LIMIT
  type U8 = x: int | 0 <= x < U8_LIMIT
  type U16 = x: int | 0 <= x < U16_LIMIT
  type U32 = x: int | 0 <= x < U32_LIMIT
  type U64 = x: int | 0 <= x < U64_LIMIT
  type I32 = x: int | -0x8000_0000 <= x < 0x8000_0000

  type Bytes = seq<Byte>

  function SaturatingAdd(a: U64, b: U64): (r: U64)
    ensures r == a + b || (r == U64_MAX && U64_MAX < a + b)
  {
    if a + b < U64_LIMIT then a + b else U64_MAX
  }

  function Abs(v: int): (a: nat)
    ensures a == v || a == -v
  {
    if v < 0 then -v else v
  }

  function Pow2(n: nat): (p: nat)
    ensures p > 0
  {
    if n == 0 then 1 else 2 * Pow2(n - 1)
  }

  // Binary digit i of b.
  predicate Bit(b: nat, i: nat)
    decreases i
  {
    if i == 0 then b % 2 == 1 else Bit(b / 2, i - 1)
  }

  // The u64 expression `b << s` for s < 64: digits shifted past 63 are lost.
  function Shl64(b: U64, s: nat): (r: U64)
    decreases s
  {
    if s == 0 then b else (2 * Shl64(b, s - 1)) % U64_LIMIT
  }

  // The u64 expression `b | (1 << k)`.
  function SetBit(b: nat, k: nat): (r: nat)
    decreases k
  {
    if k == 0 then (if b % 2 == 1 then b else b + 1)
    else 2 * SetBit(b / 2, k - 1) + b % 2
  }

  lemma {:induction false} SetBitBound(b: nat, k: nat, n: nat)
    requires b < Pow2(n) && k < n
    ensures SetBit(b, k) < Pow2(n)
  {
    if k != 0 {
      var half, r := Pow2(n - 1), SetBit(b / 2, k - 1);
      assert b / 2 < half;
      SetBitBound(b / 2, k - 1, n - 1);
      assert r + 1 <= half;
    } else {
      assert Pow2(n) % 2 == 0;
    }
  }

  lemma Pow2Of64()
    ensures Pow2(64) == U64_LIMIT
  {
    assert Pow2(8) == 0x100;
    hide Pow2;
    Pow2Add(8, 8);
    Pow2Add(16, 16);
    Pow2Add(32, 32);
  }

  lemma {:induction false} Pow2Add(m: nat, n: nat)
    ensures Pow2(m + n) == Pow2(m) * Pow2(n)
  {
    if m != 0 {
      Pow2Add(m - 1, n);
      Doubled(Pow2(m - 1), Pow2(n));
    }
  }

  lemma Doubled(a: nat, b: nat)
    ensures 2 * a * b == 2 * (a * b)
  {
  }

  lemma {:induction false} Pow2Monotone(m: nat, n: nat)
    requires m <= n
    ensures Pow2(m) <= Pow2(n)
  {
    if m < n {
      Pow2Monotone(m, n - 1);
    }
  }

  lemma {:induction false} ZeroHasNoBits(i: nat)
    ensures !Bit(0, i)
  {
    if i != 0 {
      ZeroHasNoBits(i - 1);
    }
  }

  lemma {:induction false} BitOfSetBit(b: nat, k: nat, i: nat)
    ensures Bit(SetBit(b, k), i) <==> (i == k || Bit(b, i))
  {
    if k == 0 {
      if i != 0 {
        assert SetBit(b, 0) / 2 == b / 2;
      }
    } else if i != 0 {
      assert SetBit(b, k) / 2 == SetBit(b / 2, k - 1);
      BitOfSetBit(b / 2, k - 1, i - 1);
    } else {
      assert SetBit(b, k) % 2 == b % 2;
    }
  }

  // Adding a higher power of two leaves the lower digits alone.
  lemma {:induction false} BitBelowPow2(x: nat, k: nat, j: nat)
    requires j < k
    ensures Bit(x + Pow2(k), j) <==> Bit(x, j)
  {
    if j == 0 {
      assert (x + Pow2(k)) % 2 == x % 2;
    } else {
      assert (x + Pow2(k)) / 2 == x / 2 + Pow2(k - 1);
      BitBelowPow2(x / 2, k - 1, j - 1);
    }
  }

  lemma BitOfDouble(x: U64, i: nat)
    requires i < 64
    ensures Bit((2 * x) % U64_LIMIT, i) <==> (i > 0 && Bit(x, i - 1))
  {
    Pow2Of64();
    var half := Pow2(63);
    assert U64_LIMIT == 2 * half;
    if i > 0 {
      if x < half {
        assert (2 * x) % U64_LIMIT == 2 * x;
      } else {
        assert (2 * x) % U64_LIMIT == 2 * (x - half);
        BitBelowPow2(x - half, 63, i - 1);
      }
    } else {
      assert (2 * x) % U64_LIMIT % 2 == 0;
    }
  }

  lemma {:induction false} BitOfShl64(b: U64, s: nat, i: nat)
    requires i < 64
    ensures Bit(Shl64(b, s), i) <==> (i >= s && Bit(b, i - s))
    decreases s
  {
    if s != 0 {
      BitOfDouble(Shl64(b, s - 1), i);
      if i > 0 {
        BitOfShl64(b, s - 1, i - 1);
      }
    }
  }

  // A word is determined by its digits.
  lemma {:induction false} EqualBits(a: nat, b: nat, n: nat)
    requires a < Pow2(n) && b < Pow2(n)
    requires forall i: nat :: i < n ==> (Bit(a, i) <==> Bit(b, i))
    ensures a == b
  {
    if n != 0 {
      assert Bit(a, 0) <==> Bit(b, 0);
      forall i: nat | i < n - 1
        ensures Bit(a / 2, i) <==> Bit(b / 2, i)
      {
        assert Bit(a, i + 1) <==> Bit(b, i + 1);
      }
      EqualBits(a / 2, b / 2, n - 1);
    }
  }
}
