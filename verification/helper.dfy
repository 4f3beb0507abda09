/** btmgmt/helper.go: reversing a byte slice into a fresh copy, and testing one bit of a byte. */
module Helper {
  import opened Bytes

  /** The sequence read back to front. */
  function Reversed(s: seq<Byte>): seq<Byte>
  {
    if s == [] then [] else [s[|s| - 1]] + Reversed(s[..|s| - 1])
  }

  /** Element `i` of the reversal is element `|s| - 1 - i` of the original. */
  lemma {:induction false} ReversedAt(s: seq<Byte>, i: nat)
    requires i < |s|
    ensures |Reversed(s)| == |s| && Reversed(s)[i] == s[|s| - 1 - i]
  {
    ReversedLength(s);
    if i > 0 {
      ReversedAt(s[..|s| - 1], i - 1);
    }
  }

  lemma {:induction false} ReversedLength(s: seq<Byte>)
    ensures |Reversed(s)| == |s|
  {
    if s != [] {
      ReversedLength(s[..|s| - 1]);
    }
  }

  /** Reversing twice gives back the original sequence. */
  lemma ReversedTwice(s: seq<Byte>)
    ensures Reversed(Reversed(s)) == s
  {
    ReversedLength(s);
    ReversedLength(Reversed(s));
    forall i | 0 <= i < |s|
      ensures Reversed(Reversed(s))[i] == s[i]
    {
      ReversedAt(Reversed(s), i);
      ReversedAt(s, |s| - 1 - i);
    }
  }

  /**
   * `copyReverse`: copies `src` into a fresh slice of the same length and
   * reverses the copy with two indices moving towards each other. `src`
   * itself is left as it was.
   */
  method CopyReverse(src: array<Byte>) returns (dst: array<Byte>)
    ensures fresh(dst)
    ensures dst[..] == Reversed(src[..])
    ensures src[..] == old(src[..])
  {
    dst := new Byte[src.Length];
    forall i | 0 <= i < src.Length {
      dst[i] := src[i];
    }
    var n := dst.Length;
    var l, r := 0, n - 1;
    while l < r
      invariant 0 <= l && 2 * l <= n + 1 && r == n - 1 - l
      invariant forall k :: 0 <= k < l ==> dst[k] == src[n - 1 - k] && dst[n - 1 - k] == src[k]
      invariant forall k :: l <= k <= r ==> dst[k] == src[k]
    {
      dst[l], dst[r] := dst[r], dst[l];
      l, r := l + 1, r - 1;
    }
    ReversedLength(src[..]);
    forall i | 0 <= i < n
      ensures dst[..][i] == Reversed(src[..])[i]
    {
      ReversedAt(src[..], i);
    }
  }

  /**
   * `testBit(in, n)`: `in & (1 << n) > 0` (the byte is called `b` here).
   * The shifted constant takes the type of the tested byte, so the test
   * sees bit `n` of the byte below 8, and from 8 upwards the mask has been
   * shifted out of the byte and the test is always false.
   */
  predicate TestBit(b: Byte, n: Byte): (isSet: bool)
    ensures isSet <==> n < 8 && Bit(b, n)
  {
    MaskTest(b, n);
    (b as bv8) & ShlByte(1, n) != 0
  }

  /** Masking a byte with `1 << n` leaves something exactly when `n < 8` and bit `n` is set. */
  lemma MaskTest(b: Byte, n: nat)
    ensures (b as bv8) & ShlByte(1, n) != 0 <==> n < 8 && Bit(b, n)
  {
    if n < 8 {
      MaskTestPair(b, n);
    }
  }

  /** The mask test below 8, two bits at a time (one proof for all eight is too costly). */
  lemma MaskTestPair(b: Byte, n: nat)
    requires n < 8
    ensures (b as bv8) & ShlByte(1, n) != 0 <==> Bit(b, n)
  {
    if n < 2 {
      MaskTestBits0And1(b, n);
    } else if n < 4 {
      MaskTestBits2And3(b, n);
    } else if n < 6 {
      MaskTestBits4And5(b, n);
    } else {
      MaskTestBits6And7(b, n);
    }
  }

  lemma MaskTestBits0And1(b: Byte, n: nat)
    requires 0 <= n <= 1
    ensures (b as bv8) & ShlByte(1, n) != 0 <==> Bit(b, n)
  {
    if n == 0 {
      assert Pow2(0) == 1;
    } else {
      assert Pow2(1) == 2;
    }
  }

  lemma MaskTestBits2And3(b: Byte, n: nat)
    requires 2 <= n <= 3
    ensures (b as bv8) & ShlByte(1, n) != 0 <==> Bit(b, n)
  {
    if n == 2 {
      assert Pow2(2) == 4;
    } else {
      assert Pow2(3) == 8;
    }
  }

  lemma MaskTestBits4And5(b: Byte, n: nat)
    requires 4 <= n <= 5
    ensures (b as bv8) & ShlByte(1, n) != 0 <==> Bit(b, n)
  {
    if n == 4 {
      assert Pow2(4) == 16;
    } else {
      assert Pow2(5) == 32;
    }
  }

  lemma MaskTestBits6And7(b: Byte, n: nat)
    requires 6 <= n <= 7
    ensures (b as bv8) & ShlByte(1, n) != 0 <==> Bit(b, n)
  {
    if n == 6 {
      assert Pow2(6) == 64;
    } else {
      assert Pow2(7) == 128;
    }
  }
}
