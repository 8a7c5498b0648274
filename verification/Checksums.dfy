/** The Internet checksum: one's complement sums of 16-bit words, RFC 1071. */
module Checksums {
  import opened Bytes
  import opened Netip

  /** The plain sum of the big-endian words of some bytes. An odd byte out is padded with zero. */
  function WordSum(b: seq<byte>): nat {
    if |b| == 0 then 0
    else if |b| == 1 then b[0] as int * 0x100
    else Uint16(b[..2]) + WordSum(b[2..])
  }

  /** A sum with its carries folded back in. */
  function Fold(n: nat): uint16 {
    if n <= 0xffff then n else Fold(n % 0x1_0000 + n / 0x1_0000)
  }

  /** What a checksum field must hold for the words around it to sum to all ones. */
  function Complement(sum: nat): uint16 {
    0xffff - Fold(sum)
  }

  /** Words that include a right checksum sum to all ones. */
  predicate Sound(sum: nat) {
    Fold(sum) == 0xffff
  }

  lemma FoldStep(n: nat)
    ensures (n % 0x1_0000 + n / 0x1_0000) % 0xffff == n % 0xffff
  {
    var q := n / 0x1_0000;
    assert n == n % 0x1_0000 + q + 0xffff * q;
  }

  /** Folding is the remainder by 65535, with the all-ones word standing for a zero that was not empty. */
  lemma {:induction false} FoldIsRemainder(n: nat)
    ensures Fold(n) == if n == 0 then 0 else if n % 0xffff == 0 then 0xffff else n % 0xffff
  {
    if n > 0xffff {
      FoldStep(n);
      FoldIsRemainder(n % 0x1_0000 + n / 0x1_0000);
    }
  }

  lemma {:induction false} WordSumConcat(a: seq<byte>, b: seq<byte>)
    requires |a| % 2 == 0
    ensures WordSum(a + b) == WordSum(a) + WordSum(b)
  {
    if a == [] {
      assert a + b == b;
    } else {
      assert (a + b)[..2] == a[..2] && (a + b)[2..] == a[2..] + b;
      WordSumConcat(a[2..], b);
    }
  }

  /** Some bytes put in place of as many others. */
  function Replace(p: seq<byte>, at: nat, b: seq<byte>): (r: seq<byte>)
    requires at + |b| <= |p|
    ensures |r| == |p| && r[at..at + |b|] == b
    ensures forall k | 0 <= k < |p| && !(at <= k < at + |b|) :: r[k] == p[k]
  {
    p[..at] + b + p[at + |b|..]
  }

  lemma WordSumPair(b: seq<byte>)
    requires |b| == 2
    ensures WordSum(b) == Uint16(b)
  {
    assert b[..2] == b && b[2..] == [];
    assert WordSum([]) == 0;
  }

  // ----- the incremental update of RFC 1624 -----

  /** A checksum corrected for four covered bytes that changed, without looking at the rest. */
  function Adjusted(checksum: uint16, was: Bytes4, now: Bytes4): uint16 {
    FourBytes(was);
    Complement(0xffff - checksum + (2 * 0xffff - WordSum(was)) + WordSum(now))
  }

  lemma FourBytes(b: Bytes4)
    ensures WordSum(b) == Uint16(b[..2]) + Uint16(b[2..]) <= 2 * 0xffff
  {
    assert b[2..][..2] == b[2..] && b[2..][2..] == [];
    assert WordSum([]) == 0;
  }

  /** If the words were sound with the old checksum and the old bytes, they are sound with the new ones,
      and the new checksum is the one that summing the other words from scratch gives. `rest` is the sum
      of everything else that is covered. */
  lemma AdjustedIsSound(rest: nat, checksum: uint16, was: Bytes4, now: Bytes4)
    requires Sound(rest + checksum + WordSum(was)) && rest > 0
    requires WordSum(was) < 2 * 0xffff
    ensures Adjusted(checksum, was, now) == Complement(rest + WordSum(now))
    ensures Sound(rest + Adjusted(checksum, was, now) + WordSum(now))
  {
    FourBytes(was);
    var x := 0xffff - checksum + (2 * 0xffff - WordSum(was)) + WordSum(now);
    var full := rest + WordSum(now);
    var before := rest + checksum + WordSum(was);
    FoldIsRemainder(before);
    FoldIsRemainder(x);
    FoldIsRemainder(full);
    assert x == full - before + 3 * 0xffff;
    SameRemainder(x, full, before);
    ComplementIsSound(full);
  }

  lemma SameRemainder(x: nat, full: nat, before: nat)
    requires before % 0xffff == 0 && x == full - before + 3 * 0xffff
    ensures x % 0xffff == full % 0xffff
  {
    var k := before / 0xffff;
    assert x == full + (3 - k) * 0xffff;
  }

  lemma ComplementIsSound(sum: nat)
    requires sum > 0
    ensures Sound(sum + Complement(sum))
  {
    hide Fold;
    FoldIsRemainder(sum);
    FoldIsRemainder(sum + Complement(sum));
    FillsUp(sum, Complement(sum));
  }

  lemma FillsUp(sum: nat, c: nat)
    requires c == if sum % 0xffff == 0 then 0 else 0xffff - sum % 0xffff
    ensures (sum + c) % 0xffff == 0
  {
    var q := sum / 0xffff;
    assert sum + c == (if c == 0 then q else q + 1) * 0xffff;
  }
}
