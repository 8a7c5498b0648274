/** Bytes, addresses and device ids, as `net/netip` and Go strings give them. */
module Netip {
  type byte = x: int | 0 <= x < 0x100
  type uint16 = x: int | 0 <= x < 0x1_0000
  type uint32 = x: int | 0 <= x < 0x1_0000_0000
  type uint64 = x: int | 0 <= x < 0x1_0000_0000_0000_0000

  type Bytes4 = b: seq<byte> | |b| == 4 witness [0, 0, 0, 0]
  type Bytes16 = b: seq<byte> | |b| == 16 witness seq(16, _ => 0)

  /** An address, or the zero value that stands for none. */
  datatype Addr = NoAddr | V4(raw4: Bytes4) | V6(raw6: Bytes16) {
    predicate IsValid() { !NoAddr? }
  }

  datatype AddrPort = AddrPort(addr: Addr, port: uint16) {
    predicate IsValid() { addr.IsValid() }
  }

  const NO_ENDPOINT := AddrPort(NoAddr, 0)

  /** A device id. Go compares strings byte by byte. */
  type DeviceId = seq<byte>

  predicate Less(a: DeviceId, b: DeviceId) {
    b != [] && (a == [] || a[0] < b[0] || (a[0] == b[0] && Less(a[1..], b[1..])))
  }

  lemma {:induction false} LessTotal(a: DeviceId, b: DeviceId)
    ensures a == b || Less(a, b) || Less(b, a)
  {
    if a != [] && b != [] && a[0] == b[0] {
      LessTotal(a[1..], b[1..]);
      assert a == [a[0]] + a[1..] && b == [b[0]] + b[1..];
    }
  }

  lemma {:induction false} LessAsymmetric(a: DeviceId, b: DeviceId)
    requires Less(a, b)
    ensures !Less(b, a) && a != b
  {
    if a != [] && a[0] == b[0] {
      LessAsymmetric(a[1..], b[1..]);
    }
  }

  lemma {:induction false} LessTransitive(a: DeviceId, b: DeviceId, c: DeviceId)
    requires Less(a, b) && Less(b, c)
    ensures Less(a, c)
  {
    if a != [] && a[0] == b[0] == c[0] {
      LessTransitive(a[1..], b[1..], c[1..]);
    }
  }

  /** The first byte that differs decides, and a proper beginning of an id is lower than it. */
  lemma {:induction false} LessDecides(common: DeviceId, a: DeviceId, b: DeviceId)
    requires b != [] && (a == [] || a[0] != b[0])
    ensures Less(common + a, common + b) <==> (a == [] || a[0] < b[0])
    ensures !(Less(common + b, common + a) && a == [])
  {
    if common == [] {
      assert common + a == a && common + b == b;
    } else {
      assert (common + a)[1..] == common[1..] + a && (common + b)[1..] == common[1..] + b;
      LessDecides(common[1..], a, b);
    }
  }

  /** The lowest of a finite set of ids exists, whatever order they are visited in. */
  lemma {:induction false} LowestExists(ids: set<DeviceId>)
    requires ids != {}
    ensures exists d :: IsLowest(d, ids)
  {
    var any :| any in ids;
    if ids - {any} == {} {
      forall e | e in ids ensures e == any { assert e !in ids - {any}; }
      assert IsLowest(any, ids);
    } else {
      LowestExists(ids - {any});
      var low :| IsLowest(low, ids - {any});
      LessTotal(any, low);
      if Less(any, low) {
        forall e | e in ids && e != any ensures Less(any, e) {
          if e != low { LessTransitive(any, low, e); }
        }
        assert IsLowest(any, ids);
      } else {
        assert IsLowest(low, ids);
      }
    }
  }

  ghost predicate IsLowest(d: DeviceId, ids: set<DeviceId>) {
    d in ids && forall e | e in ids && e != d :: Less(d, e)
  }

  lemma LowestUnique(d: DeviceId, e: DeviceId, ids: set<DeviceId>)
    requires IsLowest(d, ids) && IsLowest(e, ids)
    ensures d == e
  {
    if d != e { LessAsymmetric(d, e); }
  }

  ghost function Lowest(ids: set<DeviceId>): (d: DeviceId)
    requires ids != {}
    ensures IsLowest(d, ids)
  {
    LowestExists(ids);
    var d :| IsLowest(d, ids);
    d
  }
}
