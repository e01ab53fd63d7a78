/** Subnet masks, and the bit count that reads a prefix length back. */
module Ipv4 {
  import opened Bytes

  function Pow2(n: nat): (r: nat)
    ensures r >= 1
  {
    if n == 0 then 1 else 2 * Pow2(n - 1)
  }

  /** All ones shifted left by `32 - prefixlen`, high bits lost. */
  function SubnetMask(prefixlen: nat): U32
    requires prefixlen <= 32
  {
    if prefixlen == 0 then 0 else (0xFFFF_FFFF * Pow2(32 - prefixlen)) % 0x1_0000_0000
  }

  function CountOnes(n: nat): nat {
    if n == 0 then 0 else n % 2 + CountOnes(n / 2)
  }

  lemma DoubleOut(p: nat, n: nat)
    ensures (2 * p) * n == 2 * (p * n)
  {
  }

  lemma {:induction false} Pow2Adds(a: nat, b: nat)
    ensures Pow2(a + b) == Pow2(a) * Pow2(b)
  {
    if a > 0 {
      Pow2Adds(a - 1, b);
      DoubleOut(Pow2(a - 1), Pow2(b));
    }
  }

  /** Shifted left by `k`, no bit lost. */
  function Shifted(n: nat, k: nat): nat {
    if k == 0 then n else 2 * Shifted(n, k - 1)
  }

  lemma OnesOfDouble(m: nat)
    ensures CountOnes(2 * m) == CountOnes(m)
  {
    assert (2 * m) / 2 == m && (2 * m) % 2 == 0;
  }

  lemma OnesOfOdd(m: nat)
    ensures CountOnes(2 * m + 1) == CountOnes(m) + 1
  {
    assert (2 * m + 1) / 2 == m && (2 * m + 1) % 2 == 1;
  }

  lemma {:induction false} ShiftedTimes(n: nat, k: nat)
    ensures Shifted(n, k) == Pow2(k) * n
  {
    if k > 0 {
      ShiftedTimes(n, k - 1);
      DoubleOut(Pow2(k - 1), n);
    }
  }

  lemma {:induction false} OnesOfShifted(n: nat, k: nat)
    ensures CountOnes(Shifted(n, k)) == CountOnes(n)
  {
    if k > 0 {
      OnesOfShifted(n, k - 1);
      OnesOfDouble(Shifted(n, k - 1));
    }
  }

  lemma {:induction false} OnesOfFull(k: nat)
    ensures CountOnes(Pow2(k) - 1) == k
  {
    if k > 0 {
      var m := Pow2(k - 1) - 1;
      assert CountOnes(m) == k - 1 by { OnesOfFull(k - 1); }
      assert Pow2(k) - 1 == 2 * m + 1;
      OnesOfOdd(m);
    }
  }

  lemma Pow32()
    ensures Pow2(32) == 0x1_0000_0000
  {
    assert Pow2(8) == 256;
    Pow2Adds(8, 8);
    Pow2Adds(16, 16);
  }

  lemma ShiftedOnes(s: nat, p: nat)
    requires s >= 1 && p >= 2 && s * p == 0x1_0000_0000
    ensures (0xFFFF_FFFF * s) % 0x1_0000_0000 == s * (p - 1)
  {
    assert s * (p - 1) == 0x1_0000_0000 - s;
    assert s < 0x1_0000_0000 by { assert s * 2 <= s * p; }
    assert 0xFFFF_FFFF * s == 0x1_0000_0000 * (s - 1) + (0x1_0000_0000 - s);
  }

  /** The mask is the top `prefixlen` bits. */
  lemma MaskValue(prefixlen: nat)
    requires prefixlen <= 32
    ensures SubnetMask(prefixlen) == Pow2(32 - prefixlen) * (Pow2(prefixlen) - 1)
  {
    if prefixlen > 0 {
      Pow32();
      Pow2Adds(32 - prefixlen, prefixlen);
      assert Pow2(prefixlen) == 2 * Pow2(prefixlen - 1);
      ShiftedOnes(Pow2(32 - prefixlen), Pow2(prefixlen));
    }
  }

  /** Counting the ones of a mask recovers every prefix length from 0 to 32. */
  lemma MaskRoundTrip(prefixlen: nat)
    requires prefixlen <= 32
    ensures CountOnes(SubnetMask(prefixlen)) == prefixlen
  {
    var ones := Pow2(prefixlen) - 1;
    assert SubnetMask(prefixlen) == Shifted(ones, 32 - prefixlen) by {
      MaskValue(prefixlen);
      ShiftedTimes(ones, 32 - prefixlen);
    }
    OnesOfShifted(ones, 32 - prefixlen);
    OnesOfFull(prefixlen);
  }
}
