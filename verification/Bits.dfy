/**
 Unsigned 64-bit words as numbers, with the machine's shift and bitwise
 operations written out (shifting left drops the bits pushed past bit 63).
 */
module Bits {
  import opened Wrappers

  function Pow2(n: nat): (r: nat)
    ensures r >= 1
  {
    if n == 0 then 1 else 2 * Pow2(n - 1)
  }

  /** Bit `n` of `w`, counted from the least significant end. */
  predicate Bit(w: nat, n: nat) {
    if n == 0 then w % 2 == 1 else Bit(w / 2, n - 1)
  }

  function Or(v: nat, w: nat): nat {
    if v == 0 && w == 0 then 0
    else (if v % 2 == 1 || w % 2 == 1 then 1 else 0) + 2 * Or(v / 2, w / 2)
  }

  function And(v: nat, w: nat): nat {
    if v == 0 || w == 0 then 0
    else (if v % 2 == 1 && w % 2 == 1 then 1 else 0) + 2 * And(v / 2, w / 2)
  }

  function ShiftLeft(w: u64, s: nat): u64
    decreases s
  {
    if s == 0 then w else ShiftLeft((2 * w) % U64_SIZE, s - 1)
  }

  function ShiftRight(w: u64, s: nat): u64
    decreases s
  {
    if s == 0 then w else ShiftRight(w / 2, s - 1)
  }

  lemma {:induction false} Pow2OfSum(a: nat, b: nat)
    ensures Pow2(a + b) == Pow2(a) * Pow2(b)
  {
    if a > 0 {
      Pow2OfSum(a - 1, b);
    }
  }

  lemma SizeIsPow2()
    ensures Pow2(64) == U64_SIZE
    ensures 2 * Pow2(63) == U64_SIZE
  {
    assert Pow2(64) == 0x1_0000_0000 * 0x1_0000_0000 by {
      HalfSizeIsPow2();
      Pow2OfSum(32, 32);
    }
  }

  lemma HalfSizeIsPow2()
    ensures Pow2(32) == 0x1_0000_0000
  {
    assert Pow2(8) == 256;
    Pow2OfSum(8, 8);
    Pow2OfSum(16, 16);
  }

  lemma {:induction false} BitOfOr(v: nat, w: nat, n: nat)
    ensures Bit(Or(v, w), n) <==> Bit(v, n) || Bit(w, n)
  {
    if v == 0 && w == 0 {
      BitOfSmall(0, 0, n);
    } else {
      assert Or(v, w) / 2 == Or(v / 2, w / 2);
      if n > 0 {
        BitOfOr(v / 2, w / 2, n - 1);
      }
    }
  }

  lemma {:induction false} OrFits(v: nat, w: nat, t: nat)
    requires v < Pow2(t) && w < Pow2(t)
    ensures Or(v, w) < Pow2(t)
  {
    if t > 0 && !(v == 0 && w == 0) {
      OrFits(v / 2, w / 2, t - 1);
    }
  }

  /** Bits past the width of a number are zero. */
  lemma {:induction false} BitOfSmall(w: nat, t: nat, n: nat)
    requires w < Pow2(t) && t <= n
    ensures !Bit(w, n)
  {
    if n > 0 {
      BitOfSmall(w / 2, if t == 0 then 0 else t - 1, n - 1);
    }
  }

  lemma {:induction false} BitBelowTop(w: nat, t: nat, n: nat)
    requires Pow2(t) <= w && n < t
    ensures Bit(w - Pow2(t), n) <==> Bit(w, n)
  {
    assert (w - Pow2(t)) / 2 == w / 2 - Pow2(t - 1);
    if n > 0 {
      BitBelowTop(w / 2, t - 1, n - 1);
    }
  }

  lemma BitOfDouble(w: u64, n: nat)
    requires n < 64
    ensures Bit((2 * w) % U64_SIZE, n) <==> n > 0 && Bit(w, n - 1)
  {
    SizeIsPow2();
    if n > 0 {
      if w < Pow2(63) {
        assert (2 * w) % U64_SIZE / 2 == w;
      } else {
        assert (2 * w) % U64_SIZE / 2 == w - Pow2(63);
        BitBelowTop(w, 63, n - 1);
      }
    }
  }

  lemma {:induction false} BitOfShiftLeft(w: u64, s: nat, n: nat)
    requires n < 64
    ensures Bit(ShiftLeft(w, s), n) <==> s <= n && Bit(w, n - s)
    decreases s
  {
    if s > 0 {
      BitOfShiftLeft((2 * w) % U64_SIZE, s - 1, n);
      if s - 1 <= n {
        BitOfDouble(w, n - (s - 1));
      }
    }
  }

  lemma {:induction false} BitOfShiftRight(w: u64, s: nat, n: nat)
    ensures Bit(ShiftRight(w, s), n) <==> Bit(w, n + s)
    decreases s
  {
    if s > 0 {
      BitOfShiftRight(w / 2, s - 1, n);
    }
  }

  lemma BitOfOne(j: nat, n: nat)
    requires n < 64
    ensures Bit(ShiftLeft(1, j), n) <==> n == j
  {
    BitOfShiftLeft(1, j, n);
    if j < n {
      BitOfSmall(1, 1, n - j);
    }
  }

  lemma {:induction false} Pow2Monotone(a: nat, b: nat)
    requires a <= b
    ensures Pow2(a) <= Pow2(b)
  {
    if a < b {
      Pow2Monotone(a, b - 1);
    }
  }

  lemma Pow2Fits(i: nat)
    requires i < 64
    ensures Pow2(i) < U64_SIZE
  {
    SizeIsPow2();
    Pow2Monotone(i, 63);
  }

  lemma {:induction false} Pow2Shifted(i: nat, j: nat)
    requires i + j < 64
    ensures Pow2(i) < U64_SIZE && ShiftLeft(Pow2(i), j) == Pow2(i + j)
    decreases j
  {
    Pow2Fits(i);
    if j > 0 {
      Pow2Fits(i + 1);
      var next := Pow2(i + 1);
      assert (2 * Pow2(i)) % U64_SIZE == next;
      Pow2Shifted(i + 1, j - 1);
    }
  }

  lemma {:induction false} AndWithPow2(w: nat, k: nat)
    ensures And(w, Pow2(k)) == if Bit(w, k) then Pow2(k) else 0
  {
    if w == 0 {
      BitOfSmall(0, 0, k);
    } else if k > 0 {
      AndWithPow2(w / 2, k - 1);
    } else {
      assert And(w / 2, 0) == 0;
    }
  }

  /** Masking with a one shifted into place reads the bit. */
  lemma BitByMask(w: nat, k: nat)
    requires k < 64
    ensures And(w, ShiftLeft(1, k)) != 0 <==> Bit(w, k)
  {
    Pow2Shifted(0, k);
    AndWithPow2(w, k);
  }
}
