/**
 * Machine values of the ledger's wire format (SCALE, the encoding of the
 * `parity_scale_codec` crate): bytes, 128-bit unsigned integers, length-bounded
 * strings, and the little-endian layout every fixed-width integer uses.
 */
module Primitives {

  newtype byte = x: int | 0 <= x < 256

  /** Rust's `u128`. */
  newtype u128 = x: int | 0 <= x < 0x1_0000_0000_0000_0000_0000_0000_0000_0000

  /** Collection lengths travel as a `Compact<u32>`, so no encodable string reaches 2^32 bytes. */
  const MaxLength: nat := 0x1_0000_0000

  /** Rust's `String`, as the raw bytes it holds (UTF-8 validity is not modelled). */
  type Str = s: seq<byte> | |s| < MaxLength

  function Pow256(n: nat): (p: nat)
    ensures p >= 1
  {
    if n == 0 then 1 else 256 * Pow256(n - 1)
  }

  lemma Pow256Values()
    ensures Pow256(2) == 0x1_0000
    ensures Pow256(4) == 0x1_0000_0000
    ensures Pow256(16) == 0x1_0000_0000_0000_0000_0000_0000_0000_0000
  {
    assert Pow256(4) == 0x1_0000_0000 by {
      assert Pow256(2) == 0x1_0000;
    }
    assert Pow256(8) == Pow256(4) * Pow256(4) by {
      Pow256Add(4, 4);
    }
    assert Pow256(16) == Pow256(8) * Pow256(8) by {
      Pow256Add(8, 8);
    }
  }

  lemma {:induction false} Pow256Add(m: nat, n: nat)
    ensures Pow256(m + n) == Pow256(m) * Pow256(n)
  {
    if m > 0 {
      Pow256Add(m - 1, n);
    }
  }

  /** The `n` low-order bytes of `x`, least significant first. */
  function ToLE(x: nat, n: nat): (s: seq<byte>)
    requires x < Pow256(n)
    ensures |s| == n
  {
    if n == 0 then [] else [(x % 256) as byte] + ToLE(x / 256, n - 1)
  }

  /** The number whose little-endian bytes are `s`. */
  function FromLE(s: seq<byte>): (x: nat)
    ensures x < Pow256(|s|)
  {
    if s == [] then 0 else s[0] as nat + 256 * FromLE(s[1..])
  }

  lemma {:induction false} FromToLE(x: nat, n: nat)
    requires x < Pow256(n)
    ensures FromLE(ToLE(x, n)) == x
  {
    if n > 0 {
      var s := ToLE(x, n);
      assert s[0] as nat == x % 256;
      assert s[1..] == ToLE(x / 256, n - 1);
      FromToLE(x / 256, n - 1);
    }
  }

  lemma {:induction false} ToFromLE(s: seq<byte>)
    ensures ToLE(FromLE(s), |s|) == s
  {
    if s != [] {
      var x := FromLE(s);
      assert x % 256 == s[0] as nat;
      assert x / 256 == FromLE(s[1..]);
      ToFromLE(s[1..]);
    }
  }

  /** The two low bits of a little-endian number are those of its first byte. */
  lemma FromLELowBits(s: seq<byte>)
    requires |s| > 0
    ensures FromLE(s) % 4 == s[0] as nat % 4
  {
    var r := FromLE(s[1..]);
    assert FromLE(s) == s[0] as nat + 256 * r;
    assert 256 * r == 4 * (64 * r);
    ModFourShift(s[0] as nat, 64 * r);
  }

  lemma ModFourShift(b: nat, q: nat)
    ensures (b + 4 * q) % 4 == b % 4
  {
  }
}
