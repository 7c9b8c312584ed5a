/** Bytes, fixed-width integers and their little-endian encodings. */
module Bytes {
  type byte = b: int | 0 <= b < 256
  type u32 = n: int | 0 <= n < 0x1_0000_0000
  type u64 = n: int | 0 <= n < 0x1_0000_0000_0000_0000

  const U32_MAX: u32 := 0xFFFF_FFFF
  const U64_MAX: u64 := 0xFFFF_FFFF_FFFF_FFFF

  function Pow256(width: nat): (p: nat)
    ensures p > 0
  {
    if width == 0 then 1 else 256 * Pow256(width - 1)
  }

  lemma WordSizes()
    ensures Pow256(4) == 0x1_0000_0000
    ensures Pow256(8) == 0x1_0000_0000_0000_0000
  {
    assert Pow256(3) == 256 * Pow256(2);
    assert Pow256(4) == 256 * Pow256(3);
    assert Pow256(5) == 256 * Pow256(4);
    assert Pow256(6) == 256 * Pow256(5);
    assert Pow256(7) == 256 * Pow256(6);
  }

  function Pow2(k: nat): (p: nat)
    ensures p > 0
  {
    if k == 0 then 1 else 2 * Pow2(k - 1)
  }

  lemma {:induction false} Pow2Adds(a: nat, b: nat)
    ensures Pow2(a + b) == Pow2(a) * Pow2(b)
  {
    if a > 0 { Pow2Adds(a - 1, b); }
  }

  lemma PowersOfTwo()
    ensures Pow2(64) == U64_MAX + 1
  {
    assert Pow2(8) == 256;
    Pow2Adds(8, 8);
    assert Pow2(16) == 0x1_0000;
    Pow2Adds(16, 16);
    assert Pow2(32) == 0x1_0000_0000;
    Pow2Adds(32, 32);
  }

  /** Little-endian digits of `n`, least significant byte first. */
  function Le(n: nat, width: nat): (s: seq<byte>)
    ensures |s| == width
  {
    if width == 0 then [] else [n % 256] + Le(n / 256, width - 1)
  }

  /** The number a little-endian byte string denotes. */
  function Num(s: seq<byte>): (n: nat)
    ensures n < Pow256(|s|)
  {
    if s == [] then 0 else s[0] + 256 * Num(s[1..])
  }

  lemma {:induction false} NumLe(n: nat, width: nat)
    requires n < Pow256(width)
    ensures Num(Le(n, width)) == n
  {
    if width > 0 {
      NumLe(n / 256, width - 1);
      assert Le(n, width)[1..] == Le(n / 256, width - 1);
    }
  }

  lemma FirstDigit(digit: byte, rest: nat)
    ensures (digit + 256 * rest) % 256 == digit && (digit + 256 * rest) / 256 == rest
  {
  }

  lemma {:induction false} LeNum(s: seq<byte>)
    ensures Le(Num(s), |s|) == s
  {
    if s != [] {
      LeNum(s[1..]);
      FirstDigit(s[0], Num(s[1..]));
      assert Le(Num(s), |s|) == [s[0]] + Le(Num(s[1..]), |s| - 1);
    }
  }

  function U32(n: u32): (s: seq<byte>)
    ensures |s| == 4 && Num(s) == n
  {
    WordSizes();
    NumLe(n, 4);
    Le(n, 4)
  }

  function U64(n: u64): (s: seq<byte>)
    ensures |s| == 8 && Num(s) == n
  {
    WordSizes();
    NumLe(n, 8);
    Le(n, 8)
  }

  function Num32(s: seq<byte>): (n: u32)
    requires |s| == 4
    ensures n == Num(s) && U32(n) == s
  {
    WordSizes();
    LeNum(s);
    Num(s)
  }

  function Num64(s: seq<byte>): (n: u64)
    requires |s| == 8
    ensures n == Num(s) && U64(n) == s
  {
    WordSizes();
    LeNum(s);
    Num(s)
  }

  /** Pieces end to end. */
  function Joined(pieces: seq<seq<byte>>): seq<byte> {
    if pieces == [] then [] else Joined(pieces[..|pieces| - 1]) + pieces[|pieces| - 1]
  }

  /** What a buffer holds at an offset can be read off field by field. */
  lemma Peel(r: seq<byte>, offset: nat, field: seq<byte>, rest: seq<byte>)
    requires offset <= |r| && r[offset..] == field + rest
    ensures offset + |field| <= |r|
    ensures r[offset..offset + |field|] == field
    ensures r[offset + |field|..] == rest
  {
    assert |r[offset..]| == |field| + |rest|;
    assert (field + rest)[..|field|] == field && (field + rest)[|field|..] == rest;
    assert r[offset..][..|field|] == r[offset..offset + |field|];
    assert r[offset..][|field|..] == r[offset + |field|..];
  }
}
