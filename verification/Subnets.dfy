/** IPv4 prefixes, as `net/netip` gives them. */
module Subnets {
  import opened Bytes
  import opened Netip

  type Bits = n: int | 0 <= n <= 32

  /** A number with its lowest n bits cleared. */
  function Cleared(v: nat, n: nat): nat {
    if n == 0 then v else 2 * Cleared(v / 2, n - 1)
  }

  /** A valid IPv4 prefix: an address and how many leading bits it fixes. */
  datatype Prefix = Prefix(addr: Bytes4, bits: Bits) {
    /** The lowest address: every host bit clear. */
    function Network(): (v: uint32) {
      NetworkFits(this);
      Cleared(Uint32(addr), 32 - bits)
    }

    /** The highest address: every host bit set. */
    function Broadcast(): (v: uint32) {
      NetworkFits(this);
      Cleared(Uint32(addr), 32 - bits) + PowerOfTwo(32 - bits) - 1
    }

    predicate Contains(v: uint32) {
      Cleared(v, 32 - bits) == Network()
    }
  }

  /** Any prefix: the zero one, which is not valid, or one of IPv4 or IPv6. */
  datatype AnyPrefix = NoPrefix | Prefix4(subnet: Prefix) | Prefix6(raw: Bytes16, bits: nat)

  /** Two numbers agree above their lowest n bits exactly when one lies in the other's block. */
  lemma {:induction false} SameBlock(v: nat, w: nat, n: nat)
    ensures Cleared(v, n) == Cleared(w, n) <==> Cleared(w, n) <= v < Cleared(w, n) + PowerOfTwo(n)
  {
    if n > 0 { SameBlock(v / 2, w / 2, n - 1); }
  }

  /** A block of m-bit numbers does not run past the last of them. */
  lemma {:induction false} BlockFits(v: nat, n: nat, m: nat)
    requires n <= m && v < PowerOfTwo(m)
    ensures Cleared(v, n) <= v && Cleared(v, n) + PowerOfTwo(n) <= PowerOfTwo(m)
  {
    if n > 0 { BlockFits(v / 2, n - 1, m - 1); }
  }

  lemma NetworkFits(p: Prefix)
    ensures Cleared(Uint32(p.addr), 32 - p.bits) + PowerOfTwo(32 - p.bits) <= 0x1_0000_0000
  {
    PowersOfTwo();
    BlockFits(Uint32(p.addr), 32 - p.bits, 32);
  }

  /** A prefix contains exactly the addresses from its network to its broadcast address. */
  lemma ContainsRange(p: Prefix, v: uint32)
    ensures p.Contains(v) <==> p.Network() <= v <= p.Broadcast()
  {
    SameBlock(v, Uint32(p.addr), 32 - p.bits);
  }
}
