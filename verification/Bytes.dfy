/** Bytes, the big-endian integer layouts of `encoding/binary`, and the fixed-width integer
    conversions the source relies on. */
module Bytes {
  type Byte = b: int | 0 <= b < 256
  type Bytes = seq<Byte>

  const TWO_28 := 0x1000_0000
  const TWO_29 := 0x2000_0000
  const TWO_31 := 0x8000_0000
  const TWO_32 := 0x1_0000_0000
  const TWO_63 := 0x8000_0000_0000_0000
  const TWO_64 := 0x1_0000_0000_0000_0000

  /** `int32(x)`: keep the low 32 bits and read them as two's complement. */
  function Wrap32(x: int): (r: int)
    ensures -TWO_31 <= r < TWO_31
    ensures -TWO_31 <= x < TWO_31 ==> r == x
    ensures r % TWO_32 == x % TWO_32
  {
    var low := x % TWO_32;
    if low < TWO_31 then low else low - TWO_32
  }

  /** An int64 result: keep the low 64 bits and read them as two's complement. */
  function Wrap64(x: int): (r: int)
    ensures -TWO_63 <= r < TWO_63
    ensures -TWO_63 <= x < TWO_63 ==> r == x
    ensures r % TWO_64 == x % TWO_64
  {
    var low := x % TWO_64;
    if low < TWO_63 then low else low - TWO_64
  }

  function Pow256(width: nat): (r: nat)
    ensures r > 0
  {
    if width == 0 then 1 else 256 * Pow256(width - 1)
  }

  function ToBigEndian(width: nat, n: nat): (s: Bytes)
    ensures |s| == width
  {
    if width == 0 then [] else ToBigEndian(width - 1, n / 256) + [n % 256]
  }

  function FromBigEndian(s: Bytes): nat {
    if s == [] then 0 else 256 * FromBigEndian(s[..|s| - 1]) + s[|s| - 1]
  }

  lemma {:induction false} FromToBigEndian(width: nat, n: nat)
    requires n < Pow256(width)
    ensures FromBigEndian(ToBigEndian(width, n)) == n
  {
    if width > 0 {
      FromToBigEndian(width - 1, n / 256);
      var s := ToBigEndian(width, n);
      assert s[..|s| - 1] == ToBigEndian(width - 1, n / 256);
    }
  }

  lemma {:induction false} ToFromBigEndian(s: Bytes)
    ensures FromBigEndian(s) < Pow256(|s|)
    ensures ToBigEndian(|s|, FromBigEndian(s)) == s
  {
    if s != [] {
      ToFromBigEndian(s[..|s| - 1]);
      assert s == s[..|s| - 1] + [s[|s| - 1]];
    }
  }

  lemma WordSizes()
    ensures Pow256(4) == TWO_32 && Pow256(8) == TWO_64
  {
    assert Pow256(2) == 0x1_0000;
    assert Pow256(4) == 0x1_0000 * 0x1_0000;
    assert Pow256(6) == 0x1_0000 * Pow256(4);
    assert Pow256(8) == 0x1_0000 * Pow256(6);
  }

  /** `binary.Write(w, binary.BigEndian, v)` for a `v` of four bytes (signed or not) or eight. */
  function Put32(x: int): (s: Bytes)
    ensures |s| == 4
  {
    ToBigEndian(4, x % TWO_32)
  }

  function Put64(x: int): (s: Bytes)
    ensures |s| == 8
  {
    ToBigEndian(8, x % TWO_64)
  }

  function GetUint32(s: Bytes): nat
    requires |s| == 4
  {
    FromBigEndian(s)
  }

  function GetInt32(s: Bytes): int
    requires |s| == 4
  {
    var u := FromBigEndian(s);
    if u < TWO_31 then u else u - TWO_32
  }

  function GetInt64(s: Bytes): int
    requires |s| == 8
  {
    var u := FromBigEndian(s);
    if u < TWO_63 then u else u - TWO_64
  }

  lemma Uint32RoundTrip(x: int)
    ensures GetUint32(Put32(x)) == x % TWO_32
  {
    WordSizes();
    FromToBigEndian(4, x % TWO_32);
  }

  lemma Int32RoundTrip(x: int)
    ensures GetInt32(Put32(x)) == Wrap32(x)
  {
    WordSizes();
    FromToBigEndian(4, x % TWO_32);
  }

  lemma Uint64RoundTrip(x: nat)
    requires x < TWO_64
    ensures FromBigEndian(Put64(x)) == x
  {
    WordSizes();
    FromToBigEndian(8, x % TWO_64);
  }

  lemma Int64RoundTrip(x: int)
    requires -TWO_63 <= x < TWO_63
    ensures GetInt64(Put64(x)) == x
  {
    WordSizes();
    FromToBigEndian(8, x % TWO_64);
  }
}
