/**
 * Go's fixed-width integers as used by the management client: `byte` and
 * `uint16` values, shifting and masking a `byte`, and the little-endian
 * `uint16` codec of package encoding/binary.
 */
module Bytes {

  /** A Go `byte` (`uint8`). */
  type Byte = x: int | 0 <= x < 0x100

  /** A Go `uint16`. */
  type Uint16 = x: int | 0 <= x < 0x1_0000

  function Pow2(n: nat): (r: nat)
    ensures r >= 1
  {
    if n == 0 then 1 else 2 * Pow2(n - 1)
  }

  /** Bit `n` of `x`, counting from the least significant bit: the last binary digit of `x / 2^n`. */
  predicate Bit(x: nat, n: nat)
  {
    (x / Pow2(n)) % 2 == 1
  }

  /**
   * Go's `x << n` where `x` has type `byte`: the bits shifted past the
   * eighth are lost, so every shift by 8 or more gives 0.
   */
  function ShlByte(x: bv8, n: nat): bv8
  {
    if n >= 8 then 0 else x << n
  }

  /** `binary.LittleEndian.Uint16(s[off:off+2])`. */
  function Uint16At(s: seq<Byte>, off: nat): Uint16
    requires off + 2 <= |s|
  {
    s[off] as int + 0x100 * (s[off + 1] as int)
  }

  /** The two bytes `binary.LittleEndian.PutUint16` stores for `v`. */
  function LittleEndian(v: Uint16): (r: seq<Byte>)
    ensures |r| == 2 && Uint16At(r, 0) == v
  {
    [v % 0x100, v / 0x100]
  }

  /** Decoding two bytes and encoding the value again gives back the two bytes. */
  lemma LittleEndianOfUint16At(s: seq<Byte>, off: nat)
    requires off + 2 <= |s|
    ensures LittleEndian(Uint16At(s, off)) == s[off..off + 2]
  {
  }

  /** Two values with the same little-endian image are equal. */
  lemma LittleEndianInjective(u: Uint16, v: Uint16)
    requires LittleEndian(u) == LittleEndian(v)
    ensures u == v
  {
    assert Uint16At(LittleEndian(u), 0) == Uint16At(LittleEndian(v), 0);
  }

  /** `binary.LittleEndian.PutUint16(b[off:off+2], v)`: writes two bytes in place and nothing else. */
  method PutUint16(b: array<Byte>, off: nat, v: Uint16)
    requires off + 2 <= b.Length
    modifies b
    ensures b[off..off + 2] == LittleEndian(v)
    ensures b[..off] == old(b[..off]) && b[off + 2..] == old(b[off + 2..])
  {
    b[off] := v % 0x100;
    b[off + 1] := v / 0x100;
  }
}
