/** Big-endian integers in byte slices, as `encoding/binary` reads and writes them. */
module Bytes {
  import opened Netip

  function Uint16(b: seq<byte>): uint16
    requires |b| == 2
  {
    b[0] as int * 0x100 + b[1]
  }

  function PutUint16(x: uint16): (b: seq<byte>)
    ensures |b| == 2
  {
    [x / 0x100, x % 0x100]
  }

  function Uint32(b: seq<byte>): uint32
    requires |b| == 4
  {
    Uint16(b[..2]) as int * 0x1_0000 + Uint16(b[2..])
  }

  function PutUint32(x: uint32): (b: seq<byte>)
    ensures |b| == 4
  {
    PutUint16(x / 0x1_0000) + PutUint16(x % 0x1_0000)
  }

  function Uint64(b: seq<byte>): uint64
    requires |b| == 8
  {
    Uint32(b[..4]) as int * 0x1_0000_0000 + Uint32(b[4..])
  }

  function PutUint64(x: uint64): (b: seq<byte>)
    ensures |b| == 8
  {
    PutUint32(x / 0x1_0000_0000) + PutUint32(x % 0x1_0000_0000)
  }

  lemma Uint16Inverse(x: uint16, b: seq<byte>)
    requires |b| == 2
    ensures Uint16(PutUint16(x)) == x && PutUint16(Uint16(b)) == b
  {}

  lemma Uint32Inverse(x: uint32, b: seq<byte>)
    requires |b| == 4
    ensures Uint32(PutUint32(x)) == x && PutUint32(Uint32(b)) == b
  {
    hide Uint16, PutUint16;
    var hi, lo := Uint16(b[..2]), Uint16(b[2..]);
    assert PutUint32(x)[..2] == PutUint16(x / 0x1_0000) && PutUint32(x)[2..] == PutUint16(x % 0x1_0000);
    Uint16Inverse(x / 0x1_0000, b[..2]);
    Uint16Inverse(x % 0x1_0000, b[2..]);
    Split(Uint32(b), 0x1_0000, hi, lo);
    assert b == b[..2] + b[2..];
  }

  lemma Uint64Inverse(x: uint64, b: seq<byte>)
    requires |b| == 8
    ensures Uint64(PutUint64(x)) == x && PutUint64(Uint64(b)) == b
  {
    Uint64OfPut(x);
    PutOfUint64(b);
  }

  lemma Uint64OfPut(x: uint64)
    ensures Uint64(PutUint64(x)) == x
  {
    var hi: uint32, lo: uint32 := x / 0x1_0000_0000, x % 0x1_0000_0000;
    assert PutUint64(x)[..4] == PutUint32(hi) && PutUint64(x)[4..] == PutUint32(lo);
    Uint32Inverse(hi, PutUint32(hi));
    Uint32Inverse(lo, PutUint32(lo));
  }

  lemma PutOfUint64(b: seq<byte>)
    requires |b| == 8
    ensures PutUint64(Uint64(b)) == b
  {
    hide Uint32, PutUint32;
    var hi, lo := Uint32(b[..4]), Uint32(b[4..]);
    Uint32Inverse(hi, b[..4]);
    Uint32Inverse(lo, b[4..]);
    Split(Uint64(b), 0x1_0000_0000, hi, lo);
    assert b == b[..4] + b[4..];
  }

  lemma Split(x: int, base: nat, hi: nat, lo: nat)
    requires lo < base && x == hi * base + lo && (base == 0x1_0000 || base == 0x1_0000_0000)
    ensures x / base == hi && x % base == lo
  {}

  function PowerOfTwo(n: nat): (r: int)
    ensures r >= 1
  {
    if n == 0 then 1 else 2 * PowerOfTwo(n - 1)
  }

  lemma PowersOfTwo()
    ensures PowerOfTwo(0) == 1 && PowerOfTwo(8) == 0x100 && PowerOfTwo(16) == 0x1_0000
    ensures PowerOfTwo(32) == 0x1_0000_0000
  {
    assert PowerOfTwo(8) == 0x100;
    assert PowerOfTwo(16) == 0x1_0000;
    assert PowerOfTwo(24) == 0x100_0000;
  }
}
