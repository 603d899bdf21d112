/** Fixed-width integers as they appear in the boot sector, little-endian
    byte strings, and the wrap-around arithmetic of C#'s default unchecked
    `uint` operations. */
module Uint {

  type uint8 = x: int | 0 <= x < 0x100
  type uint16 = x: int | 0 <= x < 0x1_0000
  type uint32 = x: int | 0 <= x < 0x1_0000_0000
  type uint64 = x: int | 0 <= x < 0x1_0000_0000_0000_0000
  type int64 = x: int | -0x8000_0000_0000_0000 <= x < 0x8000_0000_0000_0000

  /** The fixed-size byte arrays of the boot-sector records. */
  type Bytes2 = s: seq<uint8> | |s| == 2 witness [0, 0]
  type Bytes3 = s: seq<uint8> | |s| == 3 witness [0, 0, 0]
  type Bytes8 = s: seq<uint8> | |s| == 8 witness [0, 0, 0, 0, 0, 0, 0, 0]
  type Bytes11 = s: seq<uint8> | |s| == 11 witness [0, 0, 0, 0, 0, 0, 0, 0, 0, 0, 0]
  type Bytes12 = s: seq<uint8> | |s| == 12 witness [0, 0, 0, 0, 0, 0, 0, 0, 0, 0, 0, 0]

  const TWO_TO_THE_32: int := 0x1_0000_0000
  const TWO_TO_THE_63: int := 0x8000_0000_0000_0000
  const TWO_TO_THE_64: int := 0x1_0000_0000_0000_0000

  /** 256 to the power n: one more than the largest value n bytes hold. */
  function Pow256(n: nat): (r: nat)
    ensures r > 0
  {
    if n == 0 then 1 else 0x100 * Pow256(n - 1)
  }

  lemma Pow256Widths()
    ensures Pow256(1) == 0x100
    ensures Pow256(2) == 0x1_0000
    ensures Pow256(4) == TWO_TO_THE_32
    ensures Pow256(8) == TWO_TO_THE_64
  {
    assert Pow256(1) == 0x100;
    assert Pow256(2) == 0x1_0000;
    assert Pow256(3) == 0x100_0000;
    assert Pow256(4) == TWO_TO_THE_32;
    assert Pow256(5) == 0x100_0000_0000;
    assert Pow256(6) == 0x1_0000_0000_0000;
    assert Pow256(7) == 0x100_0000_0000_0000;
  }

  /** The unsigned value of a little-endian byte string: the first byte is
      the least significant. */
  function LeUint(s: seq<uint8>): (r: nat)
    ensures r < Pow256(|s|)
  {
    if |s| == 0 then 0 else s[0] + 0x100 * LeUint(s[1..])
  }

  /** The n-byte little-endian encoding of v. */
  function LeBytes(v: nat, n: nat): (s: seq<uint8>)
    requires v < Pow256(n)
    ensures |s| == n
  {
    if n == 0 then [] else [v % 0x100] + LeBytes(v / 0x100, n - 1)
  }

  /** The last byte of a little-endian string is its most significant one. */
  lemma {:induction false} LeUintSplitLast(s: seq<uint8>)
    requires |s| > 0
    ensures LeUint(s) == LeUint(s[..|s| - 1]) + Pow256(|s| - 1) * s[|s| - 1]
  {
    if |s| > 1 {
      var t, init := s[1..], s[..|s| - 1];
      var last, high := s[|s| - 1] as int, Pow256(|s| - 2);
      LeUintSplitLast(t);
      assert t[..|t| - 1] == init[1..];
      var rest := LeUint(init[1..]);
      assert LeUint(t) == rest + high * last;
      assert LeUint(init) == s[0] + 0x100 * rest;
      ShiftSum(s[0], rest, high, last);
    } else {
      assert s[..0] == [];
    }
  }

  /** Multiplying out one step of LeUintSplitLast. */
  lemma ShiftSum(a: int, x: int, h: int, l: int)
    ensures a + 0x100 * (x + h * l) == (a + 0x100 * x) + (0x100 * h) * l
  {
  }

  /** Decoding an encoding gives the value back. */
  lemma {:induction false} LeUintOfLeBytes(v: nat, n: nat)
    requires v < Pow256(n)
    ensures LeUint(LeBytes(v, n)) == v
  {
    if n > 0 {
      var s := LeBytes(v, n);
      assert s[1..] == LeBytes(v / 0x100, n - 1);
      LeUintOfLeBytes(v / 0x100, n - 1);
    }
  }

  /** Encoding a decoded string at its own width gives the bytes back. */
  lemma {:induction false} LeBytesOfLeUint(s: seq<uint8>)
    ensures LeBytes(LeUint(s), |s|) == s
  {
    if |s| > 0 {
      var v := LeUint(s);
      assert v % 0x100 == s[0] && v / 0x100 == LeUint(s[1..]);
      LeBytesOfLeUint(s[1..]);
    }
  }

  /** The two's-complement reading of a 64-bit pattern: the unique int64
      congruent to u modulo 2^64. */
  function ToInt64(u: uint64): (x: int64)
    ensures (x - u) % TWO_TO_THE_64 == 0
    ensures x < 0 <==> u >= TWO_TO_THE_63
  {
    if u < TWO_TO_THE_63 then u else u - TWO_TO_THE_64
  }

  /** The 64-bit pattern of an int64 in two's complement. */
  function FromInt64(x: int64): (u: uint64)
    ensures (u - x) % TWO_TO_THE_64 == 0
  {
    if x >= 0 then x else x + TWO_TO_THE_64
  }

  lemma Int64RoundTrip(u: uint64, x: int64)
    ensures ToInt64(FromInt64(x)) == x
    ensures FromInt64(ToInt64(u)) == u
  {
  }

  /** C# `a + b` on two uints in an unchecked context. */
  function Add32(a: uint32, b: uint32): (r: uint32)
    ensures a + b < TWO_TO_THE_32 ==> r == a + b
    ensures a + b >= TWO_TO_THE_32 ==> r == a + b - TWO_TO_THE_32
  {
    (a + b) % TWO_TO_THE_32
  }

  /** C# `a - b` on two uints in an unchecked context. */
  function Sub32(a: uint32, b: uint32): (r: uint32)
    ensures a >= b ==> r == a - b
    ensures a < b ==> r == a - b + TWO_TO_THE_32
  {
    (a - b) % TWO_TO_THE_32
  }

  /** C# `a * b` on two uints in an unchecked context. */
  function Mul32(a: uint32, b: uint32): (r: uint32)
    ensures a * b < TWO_TO_THE_32 ==> r == a * b
    ensures (a * b - r) % TWO_TO_THE_32 == 0
  {
    (a * b) % TWO_TO_THE_32
  }

  /** Reducing a factor modulo 2^32 first does not change a product modulo 2^32. */
  lemma MulMod32(a: int, b: int)
    ensures ((a % TWO_TO_THE_32) * b) % TWO_TO_THE_32 == (a * b) % TWO_TO_THE_32
  {
    var q := a / TWO_TO_THE_32;
    var r := a % TWO_TO_THE_32;
    assert a * b == r * b + (q * b) * TWO_TO_THE_32 by {
      assert a == r + q * TWO_TO_THE_32;
      assert a * b == (r + q * TWO_TO_THE_32) * b;
      assert (r + q * TWO_TO_THE_32) * b == r * b + (q * TWO_TO_THE_32) * b;
    }
    ModOfMultipleAdded(r * b, q * b);
  }

  /** Adding a multiple of 2^32 does not change a value modulo 2^32. */
  lemma ModOfMultipleAdded(x: int, k: int)
    ensures (x + k * TWO_TO_THE_32) % TWO_TO_THE_32 == x % TWO_TO_THE_32
  {
  }

  /** Reducing the terms of a sum modulo 2^32 first does not change the sum modulo 2^32. */
  lemma AddMod32(a: int, b: int)
    ensures (a % TWO_TO_THE_32 + b % TWO_TO_THE_32) % TWO_TO_THE_32 == (a + b) % TWO_TO_THE_32
  {
    var qa, qb := a / TWO_TO_THE_32, b / TWO_TO_THE_32;
    assert a == qa * TWO_TO_THE_32 + a % TWO_TO_THE_32;
    assert b == qb * TWO_TO_THE_32 + b % TWO_TO_THE_32;
  }

  /** A value already below 2^32 added to a reduced term needs no further reduction. */
  lemma AddModSmall32(x: int, y: int)
    requires 0 <= x && x + y % TWO_TO_THE_32 < TWO_TO_THE_32
    ensures (x + y) % TWO_TO_THE_32 == x + y % TWO_TO_THE_32
  {
    AddMod32(x, y);
    assert x % TWO_TO_THE_32 == x;
  }

  /** Reducing the subtrahend modulo 2^32 first does not change a difference modulo 2^32. */
  lemma SubMod32(a: int, b: int)
    ensures (a - b % TWO_TO_THE_32) % TWO_TO_THE_32 == (a - b) % TWO_TO_THE_32
  {
    var q := b / TWO_TO_THE_32;
    assert b == q * TWO_TO_THE_32 + b % TWO_TO_THE_32;
    assert a - b % TWO_TO_THE_32 == (a - b) + q * TWO_TO_THE_32;
  }

  /** t - (r + p) modulo 2^32 may be computed with every step reduced modulo 2^32. */
  lemma SubOfSumMod32(t: int, r: int, p: int)
    requires 0 <= r < TWO_TO_THE_32
    ensures (t - (r + p % TWO_TO_THE_32) % TWO_TO_THE_32) % TWO_TO_THE_32 == (t - (r + p)) % TWO_TO_THE_32
  {
    AddMod32(r, p);
    assert r % TWO_TO_THE_32 == r;
    SubMod32(t, r + p);
  }

  /** Products grow with their factors. */
  lemma MulMonotone(a: nat, b: nat, x: nat, y: nat)
    requires a <= x && b <= y
    ensures a * b <= x * y
  {
    assert a * b <= x * b;
    assert x * b <= x * y;
  }

  /** C# `a * b` on a uint widened to ulong and a ushort: the exact product,
      which always fits in 64 bits. */
  function WideMul(a: uint32, b: uint16): (r: uint64)
    ensures r == a * b
  {
    MulMonotone(a, b, 0xFFFF_FFFF, 0xFFFF);
    a * b
  }

  /** A 1-, 2-, 4- or 8-byte little-endian field read as an unsigned value. */
  function LeU8(bytes: seq<uint8>): uint8
    requires |bytes| == 1
  {
    bytes[0]
  }

  function LeU16(bytes: seq<uint8>): uint16
    requires |bytes| == 2
  {
    Pow256Widths();
    LeUint(bytes)
  }

  function LeU32(bytes: seq<uint8>): uint32
    requires |bytes| == 4
  {
    Pow256Widths();
    LeUint(bytes)
  }

  function LeU64(bytes: seq<uint8>): uint64
    requires |bytes| == 8
  {
    Pow256Widths();
    LeUint(bytes)
  }

  /** An 8-byte little-endian field read as a two's-complement signed value. */
  function LeI64(bytes: seq<uint8>): int64
    requires |bytes| == 8
  {
    ToInt64(LeU64(bytes))
  }

  /** A signed 64-bit field is negative exactly when the top bit of its last byte is set. */
  lemma LeI64Sign(bytes: seq<uint8>)
    requires |bytes| == 8
    ensures LeI64(bytes) < 0 <==> bytes[7] >= 0x80
  {
    Pow256Widths();
    LeUintSplitLast(bytes);
    var low := LeUint(bytes[..7]);
    assert Pow256(7) == 0x100_0000_0000_0000 by {
      assert Pow256(5) == 0x100_0000_0000;
      assert Pow256(6) == 0x1_0000_0000_0000;
    }
    assert low < Pow256(7);
    assert LeU64(bytes) == low + 0x100_0000_0000_0000 * (bytes[7] as int);
  }

  /** The little-endian encodings that the readers above undo. */
  function U16Bytes(v: uint16): (r: seq<uint8>)
    ensures |r| == 2
  {
    Pow256Widths();
    LeBytes(v, 2)
  }

  function U32Bytes(v: uint32): (r: seq<uint8>)
    ensures |r| == 4
  {
    Pow256Widths();
    LeBytes(v, 4)
  }

  function U64Bytes(v: uint64): (r: seq<uint8>)
    ensures |r| == 8
  {
    Pow256Widths();
    LeBytes(v, 8)
  }

  function I64Bytes(x: int64): (r: seq<uint8>)
    ensures |r| == 8
  {
    U64Bytes(FromInt64(x))
  }

  /** Each reader undoes its writer, for every value of the field's type ... */
  lemma U16RoundTrip(v: uint16)
    ensures LeU16(U16Bytes(v)) == v
  {
    Pow256Widths();
    LeUintOfLeBytes(v, 2);
  }

  lemma U32RoundTrip(v: uint32)
    ensures LeU32(U32Bytes(v)) == v
  {
    Pow256Widths();
    LeUintOfLeBytes(v, 4);
  }

  lemma U64RoundTrip(v: uint64)
    ensures LeU64(U64Bytes(v)) == v
  {
    Pow256Widths();
    LeUintOfLeBytes(v, 8);
  }

  lemma I64RoundTrip(x: int64)
    ensures LeI64(I64Bytes(x)) == x
  {
    U64RoundTrip(FromInt64(x));
  }

  /** ... and each writer undoes its reader, for every byte string of the
      field's width. */
  lemma U16BytesRoundTrip(s: seq<uint8>)
    requires |s| == 2
    ensures U16Bytes(LeU16(s)) == s
  {
    LeBytesOfLeUint(s);
  }

  lemma U32BytesRoundTrip(s: seq<uint8>)
    requires |s| == 4
    ensures U32Bytes(LeU32(s)) == s
  {
    LeBytesOfLeUint(s);
  }

  lemma U64BytesRoundTrip(s: seq<uint8>)
    requires |s| == 8
    ensures U64Bytes(LeU64(s)) == s
  {
    LeBytesOfLeUint(s);
  }

  lemma I64BytesRoundTrip(s: seq<uint8>)
    requires |s| == 8
    ensures I64Bytes(LeI64(s)) == s
  {
    LeBytesOfLeUint(s);
  }

  /** The readers spelled out byte by byte. */
  lemma LeU16Bytes(bytes: seq<uint8>)
    requires |bytes| == 2
    ensures LeU16(bytes) == (bytes[0] as int) + 0x100 * (bytes[1] as int)
  {
    var t := bytes[1..];
    assert t[1..] == [];
    assert LeUint(t) == t[0] + 0x100 * LeUint(t[1..]);
  }

  lemma LeU32Bytes(bytes: seq<uint8>)
    requires |bytes| == 4
    ensures LeU32(bytes) == (bytes[0] as int) + 0x100 * (bytes[1] as int) + 0x1_0000 * (bytes[2] as int) + 0x100_0000 * (bytes[3] as int)
  {
    var t := bytes[1..];
    var u := t[1..];
    var v := u[1..];
    assert v[1..] == [];
    assert LeUint(v) == v[0] + 0x100 * LeUint(v[1..]);
    assert LeUint(u) == u[0] + 0x100 * LeUint(v);
    assert LeUint(t) == t[0] + 0x100 * LeUint(u);
  }
}
