// Bytes and big-endian lengths, as both wire formats use them.
module Bytes {
  newtype Byte = x: int | 0 <= x < 256

  const INT64_LIMIT: int := 0x8000_0000_0000_0000
  const UINT64_LIMIT: int := 0x1_0000_0000_0000_0000

  // The low `width` bytes of n, most significant first.
  function BigEndian(n: nat, width: nat): (bs: seq<Byte>)
    ensures |bs| == width
    decreases width, n
  {
    if width == 0 then [] else BigEndian(n / 256, width - 1) + [(n % 256) as Byte]
  }

  function FromBigEndian(bs: seq<Byte>): nat {
    if bs == [] then 0 else FromBigEndian(bs[..|bs| - 1]) * 256 + bs[|bs| - 1] as int
  }

  function Pow256(k: nat): nat {
    if k == 0 then 1 else 256 * Pow256(k - 1)
  }

  // n >> (8 * k)
  function ShiftBytes(n: nat, k: nat): nat {
    if k == 0 then n else ShiftBytes(n, k - 1) / 256
  }

  lemma {:induction false} ShiftOnce(n: nat, k: nat)
    ensures ShiftBytes(n / 256, k) == ShiftBytes(n, k + 1)
  {
    if k > 0 {
      ShiftOnce(n, k - 1);
    }
  }

  // The most significant byte comes first: byte i is what is left of n after the bytes
  // behind it.
  lemma {:induction false} BigEndianAt(n: nat, width: nat, i: nat)
    requires i < width
    ensures BigEndian(n, width)[i] as int == ShiftBytes(n, width - 1 - i) % 256
  {
    if i < width - 1 {
      BigEndianAt(n / 256, width - 1, i);
      ShiftOnce(n, width - 2 - i);
    }
  }

  lemma {:induction false} BigEndianRoundTrip(n: nat, width: nat)
    requires n < Pow256(width)
    ensures FromBigEndian(BigEndian(n, width)) == n
  {
    if width > 0 {
      var bs := BigEndian(n, width);
      BigEndianRoundTrip(n / 256, width - 1);
      assert bs[..|bs| - 1] == BigEndian(n / 256, width - 1);
    }
  }

  lemma {:induction false} FromBigEndianBound(bs: seq<Byte>)
    ensures FromBigEndian(bs) < Pow256(|bs|)
  {
    if bs != [] {
      FromBigEndianBound(bs[..|bs| - 1]);
    }
  }

  lemma Pow256Of8()
    ensures Pow256(8) == UINT64_LIMIT && Pow256(2) == 0x1_0000
  {
    assert Pow256(2) == 0x1_0000;
    assert Pow256(4) == 0x1_0000_0000;
    assert Pow256(6) == 0x1_0000_0000_0000;
  }

  // int64(u) for a uint64 u.
  function ToInt64(u: nat): int
    requires u < UINT64_LIMIT
  {
    if u < INT64_LIMIT then u else u - UINT64_LIMIT
  }

  function Concat(chunks: seq<seq<Byte>>): seq<Byte> {
    if chunks == [] then [] else chunks[0] + Concat(chunks[1..])
  }
}
