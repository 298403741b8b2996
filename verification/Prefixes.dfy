/** IPv4 prefixes and longest-match facts shared by the two routing implementations. */
module Prefixes {
  import opened Wrappers
  import opened Bits

  const ADDRESS_BITS: nat := 32
  const ADDRESS_COUNT: nat := 0x1_0000_0000

  type Address = a: nat | a < ADDRESS_COUNT

  /** `a` with the bits outside the first `length` cleared: the address under the mask. */
  function Masked(a: Address, length: nat): int
    requires length <= ADDRESS_BITS
  {
    a - a % Pow2(ADDRESS_BITS - length)
  }

  datatype RawPrefix = Prefix(network: Address, length: nat) {
    predicate Contains(a: Address)
      requires length <= ADDRESS_BITS
    {
      Masked(network, length) == Masked(a, length)
    }

    /** No bit of the network lies outside the mask. */
    predicate Canonical()
      requires length <= ADDRESS_BITS
    {
      Masked(network, length) == network
    }
  }

  type Prefix = p: RawPrefix | p.length <= ADDRESS_BITS witness Prefix(0, 0)

  function Max(a: nat, b: nat): nat {
    if a >= b then a else b
  }

  /** Length of the longest listed prefix that contains `a`, if any does. */
  function LongestContaining(prefixes: seq<Prefix>, a: Address): Option<nat> {
    if prefixes == [] then None
    else
      var rest := LongestContaining(prefixes[1..], a);
      if !prefixes[0].Contains(a) then rest
      else match rest
        case None => Some(prefixes[0].length)
        case Some(n) => Some(Max(prefixes[0].length, n))
  }

  /** `LongestContaining` is the maximum of the lengths of the containing prefixes. */
  lemma {:induction false} LongestIsMaximum(prefixes: seq<Prefix>, a: Address)
    ensures LongestContaining(prefixes, a) == None <==> forall p :: p in prefixes ==> !p.Contains(a)
    ensures forall p :: p in prefixes && p.Contains(a) ==>
                            LongestContaining(prefixes, a).Some? && p.length <= LongestContaining(prefixes, a).value
    ensures LongestContaining(prefixes, a).Some? ==>
              exists p :: p in prefixes && p.Contains(a) && p.length == LongestContaining(prefixes, a).value
  {
    if prefixes != [] {
      LongestIsMaximum(prefixes[1..], a);
      assert prefixes == [prefixes[0]] + prefixes[1..];
      var rest := LongestContaining(prefixes[1..], a);
      if rest.Some? {
        var p :| p in prefixes[1..] && p.Contains(a) && p.length == rest.value;
        assert p in prefixes;
      }
      assert prefixes[0] in prefixes;
    }
  }

  /** Only which prefixes are listed matters, not their order or number. */
  lemma LongestOfSameMembers(xs: seq<Prefix>, ys: seq<Prefix>, a: Address)
    requires forall p: Prefix :: p in xs <==> p in ys
    ensures LongestContaining(xs, a) == LongestContaining(ys, a)
  {
    LongestIsMaximum(xs, a);
    LongestIsMaximum(ys, a);
  }

  lemma {:induction false} LongestOfSum(xs: seq<Prefix>, ys: seq<Prefix>, a: Address)
    ensures LongestContaining(xs + ys, a) ==
            match (LongestContaining(xs, a), LongestContaining(ys, a))
            case (None, y) => y
            case (x, None) => x
            case (Some(m), Some(n)) => Some(Max(m, n))
  {
    if xs == [] {
      assert xs + ys == ys;
    } else {
      assert (xs + ys)[1..] == xs[1..] + ys;
      LongestOfSum(xs[1..], ys, a);
    }
  }

  lemma AddressSpaceIsPow2()
    ensures Pow2(32) == ADDRESS_COUNT && Pow2(31) == 0x8000_0000
  {
    HalfSizeIsPow2();
    assert Pow2(32) == 2 * Pow2(31);
  }

  lemma DefaultContainsAll(p: Prefix, a: Address)
    requires p.length == 0
    ensures p.Contains(a)
  {
    AddressSpaceIsPow2();
  }

  lemma HostContainsItself(host: Address, a: Address)
    ensures RawPrefix.Prefix(host, 32).Contains(a) <==> a == host
  {
    assert Pow2(0) == 1;
  }

  lemma HalvesCoverAll(a: Address)
    ensures RawPrefix.Prefix(0, 1).Contains(a) <==> a < 0x8000_0000
    ensures RawPrefix.Prefix(0x8000_0000, 1).Contains(a) <==> a >= 0x8000_0000
  {
    AddressSpaceIsPow2();
  }

  /** Two canonical prefixes of one length that share an address are the same prefix. */
  lemma CanonicalMatchIsUnique(p: Prefix, q: Prefix, a: Address)
    requires p.length == q.length && p.Canonical() && q.Canonical()
    requires p.Contains(a) && q.Contains(a)
    ensures p == q
  {}

  // ---------------------------------------------------------------------------
  // Prefixes and bits.
  // ---------------------------------------------------------------------------

  lemma Distribute(x: int, y: int, p: int)
    ensures (x - y) * p == x * p - y * p
  {}

  lemma {:induction false} MultipleIsLarger(d: nat, p: nat)
    requires d > 0
    ensures d * p >= p
  {
    if d > 1 {
      MultipleIsLarger(d - 1, p);
      Distribute(d, 1, p);
    }
  }

  /** Two multiples that are less than one step apart are the same. */
  lemma CloseMultiples(x: nat, y: nat, p: nat)
    requires 0 - p < x * p - y * p < p
    ensures x == y
  {
    if x > y {
      Distribute(x, y, p);
      MultipleIsLarger(x - y, p);
    } else if x < y {
      Distribute(y, x, p);
      MultipleIsLarger(y - x, p);
    }
  }

  lemma QuotientAndRest(a: nat, p: nat)
    requires p > 0
    ensures a == a / p * p + a % p && 0 <= a / p && 0 <= a % p < p
  {}

  lemma DivideUnique(a: nat, p: nat, q: nat, r: nat)
    requires p > 0 && r < p && a == q * p + r
    ensures a / p == q && a % p == r
  {
    QuotientAndRest(a, p);
    CloseMultiples(a / p, q, p);
  }

  lemma TwiceMultiple(x: nat, p: nat)
    ensures x * (2 * p) == 2 * (x * p)
  {}

  lemma DoubleQuotient(a: nat, p: nat, double: nat, x: nat, y: nat)
    requires p > 0 && y < p && a / 2 == x * p + y && double == 2 * p
    ensures a / double == x
  {
    TwiceMultiple(x, p);
    DivideUnique(a, double, x, 2 * y + a % 2);
  }

  lemma DivideByDouble(a: nat, p: nat, double: nat)
    requires p > 0 && double == 2 * p
    ensures a / double == a / 2 / p
  {
    QuotientAndRest(a / 2, p);
    DoubleQuotient(a, p, double, a / 2 / p, a / 2 % p);
  }

  /** A number without its last `k` bits. */
  function Front(a: nat, k: nat): nat {
    if k == 0 then a else Front(a / 2, k - 1)
  }

  lemma {:induction false} FrontIsQuotient(a: nat, k: nat)
    ensures a / Pow2(k) == Front(a, k)
    decreases k
  {
    if k > 0 {
      DivideByDouble(a, Pow2(k - 1), Pow2(k));
      FrontIsQuotient(a / 2, k - 1);
    }
  }

  lemma {:induction false} FrontHalves(a: nat, k: nat)
    ensures Front(a, k + 1) == Front(a, k) / 2
    decreases k
  {
    if k > 0 {
      FrontHalves(a / 2, k - 1);
    }
  }

  /** From bit `k` on the numbers agree. */
  ghost predicate SameBitsFrom(a: nat, b: nat, k: nat) {
    forall i: nat :: i >= k ==> (Bit(a, i) <==> Bit(b, i))
  }

  lemma SameBitsOfHalves(a: nat, b: nat, k: nat)
    ensures SameBitsFrom(a / 2, b / 2, k) <==> SameBitsFrom(a, b, k + 1)
  {
    if SameBitsFrom(a, b, k + 1) {
      forall i: nat | i >= k ensures Bit(a / 2, i) <==> Bit(b / 2, i) {
        assert Bit(a, i + 1) <==> Bit(b, i + 1);
      }
    }
    if SameBitsFrom(a / 2, b / 2, k) {
      forall i: nat | i >= k + 1 ensures Bit(a, i) <==> Bit(b, i) {
        assert Bit(a / 2, i - 1) <==> Bit(b / 2, i - 1);
      }
    }
  }

  lemma {:induction false} SameBitsMeansEqual(a: nat, b: nat)
    requires SameBitsFrom(a, b, 0)
    ensures a == b
    decreases a + b
  {
    assert Bit(a, 0) <==> Bit(b, 0);
    if a > 0 || b > 0 {
      forall i: nat ensures Bit(a / 2, i) <==> Bit(b / 2, i) {
        assert Bit(a, i + 1) <==> Bit(b, i + 1);
      }
      SameBitsMeansEqual(a / 2, b / 2);
    }
  }

  lemma {:induction false} SameFrontIff(a: nat, b: nat, k: nat)
    ensures Front(a, k) == Front(b, k) <==> SameBitsFrom(a, b, k)
    decreases k
  {
    if k > 0 {
      SameFrontIff(a / 2, b / 2, k - 1);
      SameBitsOfHalves(a, b, k - 1);
    } else if SameBitsFrom(a, b, k) {
      SameBitsMeansEqual(a, b);
    }
  }

  lemma QuotientTimes(a: nat, p: nat)
    requires p > 0
    ensures a - a % p == a / p * p
  {}

  lemma SameQuotientMeansSameMask(a: nat, b: nat, p: nat)
    requires p > 0
    ensures a - a % p == b - b % p <==> a / p == b / p
  {
    QuotientTimes(a, p);
    QuotientTimes(b, p);
    if a - a % p == b - b % p {
      CloseMultiples(a / p, b / p, p);
    }
  }

  /** Under a mask of this length two addresses are the same exactly when they agree without their last bits. */
  lemma SameMaskIff(a: Address, b: Address, length: nat)
    requires length <= ADDRESS_BITS
    ensures Masked(a, length) == Masked(b, length) <==>
            Front(a, ADDRESS_BITS - length) == Front(b, ADDRESS_BITS - length)
  {
    SameQuotientMeansSameMask(a, b, Pow2(ADDRESS_BITS - length));
    FrontIsQuotient(a, ADDRESS_BITS - length);
    FrontIsQuotient(b, ADDRESS_BITS - length);
  }

  /** A prefix contains an address exactly when they agree in all but the last bits. */
  lemma ContainsIff(p: Prefix, a: Address)
    ensures p.Contains(a) <==> SameBitsFrom(p.network, a, 32 - p.length)
  {
    SameMaskIff(p.network, a, p.length);
    SameFrontIff(p.network, a, 32 - p.length);
  }

  lemma {:induction false} FrontOf(q: nat, k: nat) returns (b: nat)
    ensures Front(b, k) == q
  {
    b := q;
    if k > 0 {
      var c := FrontOf(q, k - 1);
      b := 2 * c;
    }
  }

  /** An address that differs from `n` in bit `k` and agrees above it. */
  lemma Neighbour(n: Address, k: nat) returns (a: Address)
    requires k < 32
    ensures Front(a, k) != Front(n, k) && Front(a, k + 1) == Front(n, k + 1)
  {
    var q := Front(n, k);
    var b := FrontOf(if q % 2 == 0 then q + 1 else q - 1, k);
    FrontHalves(n, k);
    FrontHalves(b, k);
    AddressesBelow(n, b, k + 1);
    a := b;
  }

  /** A number that agrees with an address from some bit on is an address. */
  lemma {:induction false} AddressesBelow(n: Address, b: nat, k: nat)
    requires k <= 32 && Front(b, k) == Front(n, k)
    ensures b < ADDRESS_COUNT
    decreases 32 - k
  {
    if k == 32 {
      AddressSpaceIsPow2();
      FrontIsQuotient(n, 32);
      FrontIsQuotient(b, 32);
    } else {
      FrontHalves(n, k);
      FrontHalves(b, k);
      AddressesBelow(n, b, k + 1);
    }
  }
}
