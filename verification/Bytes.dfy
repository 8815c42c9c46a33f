/** Bytes, fixed-width little-endian integers and length-prefixed strings. */
module Bytes {
  import opened Wrappers

  type byte = x: int | 0 <= x < 0x100

  type bytes = seq<byte>

  const TWO_16 := 0x1_0000
  const TWO_32 := 0x1_0000_0000
  const TWO_64 := 0x1_0000_0000_0000_0000

  /** `width` bytes of `n`, least significant first; the high part of `n` is dropped. */
  function LittleEndian(n: nat, width: nat): (r: bytes)
    ensures |r| == width
  {
    if width == 0 then [] else [n % 0x100] + LittleEndian(n / 0x100, width - 1)
  }

  function FromLittleEndian(b: bytes): (n: nat)
  {
    if b == [] then 0 else b[0] + 0x100 * FromLittleEndian(b[1..])
  }

  function Pow256(width: nat): (p: nat)
    ensures p >= 1
  {
    if width == 0 then 1 else 0x100 * Pow256(width - 1)
  }

  lemma {:induction false} LittleEndianRoundTrip(n: nat, width: nat)
    requires n < Pow256(width)
    ensures FromLittleEndian(LittleEndian(n, width)) == n
  {
    if width > 0 {
      LittleEndianRoundTrip(n / 0x100, width - 1);
      assert LittleEndian(n, width)[1..] == LittleEndian(n / 0x100, width - 1);
    }
  }

  lemma {:induction false} FromLittleEndianRoundTrip(b: bytes)
    ensures FromLittleEndian(b) < Pow256(|b|)
    ensures LittleEndian(FromLittleEndian(b), |b|) == b
  {
    if b != [] {
      FromLittleEndianRoundTrip(b[1..]);
      assert (b[0] + 0x100 * FromLittleEndian(b[1..])) % 0x100 == b[0];
    }
  }

  lemma Widths()
    ensures Pow256(2) == TWO_16 && Pow256(4) == TWO_32 && Pow256(8) == TWO_64
  {
    assert Pow256(2) == 0x100 * Pow256(1) == 0x100 * (0x100 * Pow256(0));
    assert Pow256(4) == 0x100 * Pow256(3) == 0x100 * (0x100 * Pow256(2));
    assert Pow256(6) == 0x100 * Pow256(5) == 0x100 * (0x100 * Pow256(4));
    assert Pow256(8) == 0x100 * Pow256(7) == 0x100 * (0x100 * Pow256(6));
  }

  /** A value and the bytes that follow it. */
  datatype Read<+T> = Read(value: T, rest: bytes)

  function ReadFixed(b: bytes, width: nat): (r: Option<Read<bytes>>)
    ensures r.Some? <==> width <= |b|
    ensures r.Some? ==> r.value.value + r.value.rest == b && |r.value.value| == width
  {
    if width <= |b| then Some(Read(b[..width], b[width..])) else None
  }

  function ReadNat(b: bytes, width: nat): (r: Option<Read<nat>>)
    ensures r.Some? <==> width <= |b|
    ensures r.Some? ==>
              r.value.value < Pow256(width) && LittleEndian(r.value.value, width) + r.value.rest == b
  {
    var f :- ReadFixed(b, width);
    FromLittleEndianRoundTrip(f.value);
    Some(Read(FromLittleEndian(f.value), f.rest))
  }

  lemma ReadNatOfLittleEndian(n: nat, width: nat, rest: bytes)
    requires n < Pow256(width)
    ensures ReadNat(LittleEndian(n, width) + rest, width) == Some(Read(n, rest))
  {
    var b := LittleEndian(n, width) + rest;
    assert b[..width] == LittleEndian(n, width) && b[width..] == rest;
    LittleEndianRoundTrip(n, width);
  }

  /** A byte string behind its length, written in `width` bytes. */
  function Prefixed(value: bytes, width: nat): (r: bytes)
    ensures |r| == width + |value|
  {
    LittleEndian(|value|, width) + value
  }

  function ReadPrefixed(b: bytes, width: nat): (r: Option<Read<bytes>>)
    ensures r.Some? ==>
              && |r.value.value| < Pow256(width)
              && Prefixed(r.value.value, width) + r.value.rest == b
  {
    var n :- ReadNat(b, width);
    var f :- ReadFixed(n.rest, n.value);
    assert LittleEndian(n.value, width) + (f.value + f.rest) == Prefixed(f.value, width) + f.rest;
    Some(f)
  }

  lemma ReadPrefixedOfPrefixed(value: bytes, width: nat, rest: bytes)
    requires |value| < Pow256(width)
    ensures ReadPrefixed(Prefixed(value, width) + rest, width) == Some(Read(value, rest))
  {
    assert Prefixed(value, width) + rest == LittleEndian(|value|, width) + (value + rest);
    ReadNatOfLittleEndian(|value|, width, value + rest);
    assert (value + rest)[..|value|] == value && (value + rest)[|value|..] == rest;
  }
}
