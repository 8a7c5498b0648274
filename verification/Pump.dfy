/** What happens to a packet between the adapter and the mesh: who it is for, and the readdressing of
    multicast packets that arrive. */
module Pump {
  import opened Bytes
  import opened Checksums
  import opened Netip
  import opened Subnets

  const LIMITED_BROADCAST := V4([255, 255, 255, 255])
  const MINIMUM_HEADER := 20
  const PROTOCOL_UDP: byte := 17
  const UDP_HEADER_SIZE := 8
  const FRAGMENT_BITS := 0x3fff

  /** An IPv4 group address, plain or mapped into IPv6, or an IPv6 one. */
  predicate IsMulticast(a: Addr) {
    match a
    case NoAddr => false
    case V4(raw) => raw[0] / 16 == 14
    case V6(raw) =>
      if raw[..10] == seq(10, _ => 0) && raw[10..12] == [255, 255] then raw[12] / 16 == 14 else raw[0] == 255
  }

  /** The address that means everyone on a subnet, and none unless the subnet is an IPv4 one. */
  function BroadcastOf(prefix: AnyPrefix): (a: Addr)
    ensures a == NoAddr || (a.V4? && prefix.Prefix4? && Uint32(a.raw4) == prefix.subnet.Broadcast())
    ensures a == NoAddr <==> !prefix.Prefix4?
  {
    if !prefix.Prefix4? then NoAddr
    else
      Uint32Inverse(prefix.subnet.Broadcast(), PutUint32(prefix.subnet.Broadcast()));
      V4(PutUint32(prefix.subnet.Broadcast()))
  }

  predicate ForEveryone(destination: Addr, broadcast: Addr) {
    destination == broadcast || destination == LIMITED_BROADCAST || IsMulticast(destination)
  }

  function DestinationOf(packet: seq<byte>): Addr {
    if |packet| < MINIMUM_HEADER || packet[0] / 16 != 4 then NoAddr else V4(packet[16..20])
  }

  /** Byte for byte: who is everyone, in IPv4, in IPv6, and in IPv4 as IPv6 writes it. */
  lemma EveryoneIs(b: Bytes4, c: Bytes16, broadcast: Addr)
    ensures ForEveryone(V4(b), broadcast) <==> V4(b) == broadcast || b == [255, 255, 255, 255] || 224 <= b[0] < 240
    ensures c[..12] != [0, 0, 0, 0, 0, 0, 0, 0, 0, 0, 255, 255] ==>
              (ForEveryone(V6(c), broadcast) <==> V6(c) == broadcast || c[0] == 255)
    ensures c[..12] == [0, 0, 0, 0, 0, 0, 0, 0, 0, 0, 255, 255] ==>
              (ForEveryone(V6(c), broadcast) <==> V6(c) == broadcast || 224 <= c[12] < 240)
  {
    assert c[..12] == c[..10] + c[10..12];
    var zeros: seq<byte> := [0, 0, 0, 0, 0, 0, 0, 0, 0, 0];
    assert zeros == seq(10, _ => 0);
    assert zeros + [255, 255] == [0, 0, 0, 0, 0, 0, 0, 0, 0, 0, 255, 255];
    if c[..12] == zeros + [255, 255] { assert c[..12][..10] == zeros && c[..12][10..] == [255, 255]; }
  }

  /** What an IPv4 packet is addressed to, and nothing else is addressed to anybody. */
  lemma DestinationIs(p: seq<byte>)
    ensures DestinationOf(p) == NoAddr <==> |p| < 20 || p[0] / 16 != 4
    ensures |p| >= 20 && p[0] / 16 == 4 ==> DestinationOf(p) == V4([p[16], p[17], p[18], p[19]])
  {}

  /** It belongs to the subnet, and no address of the subnet is higher. */
  lemma BroadcastIsLast(subnet: Prefix, v: uint32)
    ensures subnet.Contains(Uint32(BroadcastOf(Prefix4(subnet)).raw4))
    ensures subnet.Contains(v) ==> v <= Uint32(BroadcastOf(Prefix4(subnet)).raw4)
  {
    ContainsRange(subnet, v);
    ContainsRange(subnet, subnet.Broadcast());
  }

  // ----- readdressing -----

  function HeaderLength(p: seq<byte>): (n: nat)
    requires |p| > 0
    ensures n % 4 == 0
  {
    p[0] % 16 * 4
  }

  /** A whole UDP datagram addressed to a group. */
  predicate Rewritable(p: seq<byte>) {
    && |p| >= MINIMUM_HEADER && p[0] / 16 == 4
    && IsMulticast(V4(p[16..20]))
    && p[9] == PROTOCOL_UDP && Uint16(p[6..8]) % (FRAGMENT_BITS + 1) == 0
    && HeaderLength(p) >= MINIMUM_HEADER && |p| >= HeaderLength(p) + UDP_HEADER_SIZE
  }

  function HeaderChecksum(p: seq<byte>): uint16
    requires |p| >= 20
  {
    Uint16(p[10..12])
  }

  /** The checksum of the datagram that starts at `n`. */
  function UdpChecksum(p: seq<byte>, n: nat): uint16
    requires n + 8 <= |p|
  {
    Uint16(p[n + 6..n + 8])
  }

  /** The packet with its address and header checksum corrected, and its UDP checksum not yet. */
  function Readdressed(p: seq<byte>, now: Bytes4): (r: seq<byte>)
    requires Rewritable(p)
    ensures |r| == |p|
  {
    Replace(Replace(p, 16, now), 10, PutUint16(Adjusted(HeaderChecksum(p), p[16..20], now)))
  }

  /** A packet readdressed to one machine, with both checksums corrected. */
  function Localised(p: seq<byte>, local: Addr): (r: seq<byte>)
    ensures |r| == |p|
  {
    if !Rewritable(p) || !local.V4? then p
    else if UdpChecksum(p, HeaderLength(p)) == 0 then Readdressed(p, local.raw4)
    else
      var updated := Adjusted(UdpChecksum(p, HeaderLength(p)), p[16..20], local.raw4);
      Replace(Readdressed(p, local.raw4), HeaderLength(p) + 6, PutUint16(if updated == 0 then 0xffff else updated))
  }

  /** Folds an address change into a checksum, word by word and carry by carry. */
  method AdjustChecksum(checksum: uint16, was: Bytes4, now: Bytes4) returns (r: uint16)
    ensures r == Adjusted(checksum, was, now)
  {
    hide WordSum, Uint16;
    NoWords();
    assert was[..0] == now[..0] == [];
    var sum: uint32 := 0xffff - checksum;
    var i := 0;
    while i < |was|
      invariant 0 <= i <= 4 && i % 2 == 0
      invariant sum == 0xffff - checksum + (i / 2 * 0xffff - WordSum(was[..i])) + WordSum(now[..i])
      invariant sum <= 0xffff + i * 0xffff
    {
      WordSumNext(was, i);
      WordSumNext(now, i);
      sum := sum + (0xffff - Uint16(was[i..i + 2]));
      sum := sum + Uint16(now[i..i + 2]);
      i := i + 2;
    }
    assert was[..4] == was && now[..4] == now;
    ghost var total := sum;
    while sum > 0xffff
      invariant Fold(sum) == Fold(total)
    {
      sum := sum % 0x1_0000 + sum / 0x1_0000;
    }
    return 0xffff - sum;
  }

  lemma NoWords()
    ensures WordSum([]) == 0
  {}

  lemma WordSumNext(b: seq<byte>, i: nat)
    requires i % 2 == 0 && i + 2 <= |b|
    ensures WordSum(b[..i + 2]) == WordSum(b[..i]) + Uint16(b[i..i + 2])
  {
    assert b[..i + 2] == b[..i] + b[i..i + 2];
    WordSumConcat(b[..i], b[i..i + 2]);
    WordSumPair(b[i..i + 2]);
  }

  method PutBytes(a: array<byte>, at: nat, b: seq<byte>)
    requires at + |b| <= a.Length
    modifies a
    ensures a[..] == Replace(old(a[..]), at, b)
  {
    for i := 0 to |b|
      invariant a[..] == Replace(old(a[..]), at, b[..i])
    {
      a[at + i] := b[i];
    }
    assert b[..|b|] == b;
  }

  /** Readdresses a whole UDP datagram, editing the packet where it lies. */
  method Readdress(packet: array<byte>, local: Addr, headerLen: nat)
    requires Rewritable(packet[..]) && local.V4? && headerLen == HeaderLength(packet[..])
    modifies packet
    ensures packet[..] == Localised(old(packet[..]), local)
  {
    hide IsMulticast, Adjusted, Uint16;
    ghost var p := packet[..];
    var was, now := packet[16..20], local.raw4;
    ReaddressedFields(p, now);
    assert was == p[16..20];
    PutBytes(packet, 16, now);
    assert packet[10..12] == packet[..][10..12];
    var header := AdjustChecksum(Uint16(packet[10..12]), was, now);
    PutBytes(packet, 10, PutUint16(header));
    assert packet[..] == Readdressed(p, now);
    var at := headerLen + 6;
    assert packet[at..at + 2] == packet[..][at..at + 2];
    var sum := Uint16(packet[at..at + 2]);
    if sum != 0 {
      var updated := AdjustChecksum(sum, was, now);
      if updated == 0 {
        updated := 0xffff;
      }
      PutBytes(packet, at, PutUint16(updated));
    }
  }

  method LocaliseMulticast(packet: array<byte>, local: Addr)
    modifies packet
    ensures packet[..] == Localised(old(packet[..]), local)
  {
    hide Readdressed;
    if packet.Length < MINIMUM_HEADER || packet[0] / 16 != 4 || !local.V4? {
      return;
    }
    assert packet[..][6..8] == packet[6..8] && packet[..][16..20] == packet[16..20];
    if !IsMulticast(V4(packet[16..20])) {
      return;
    }
    if packet[9] != PROTOCOL_UDP || Uint16(packet[6..8]) % (FRAGMENT_BITS + 1) != 0 {
      return;
    }
    var headerLen := packet[0] % 16 * 4;
    if headerLen < MINIMUM_HEADER || packet.Length < headerLen + UDP_HEADER_SIZE {
      return;
    }
    Readdress(packet, local, headerLen);
  }

  // ----- which packets are readdressed -----

  /** Byte for byte: an IPv4 packet to 224.0.0.0/4, of protocol 17, not a fragment of another, with a header of at
      least 20 bytes and a UDP header after it, reaches an IPv4 machine under its own address. */
  lemma WholeDatagramsAreReaddressed(p: seq<byte>, local: Addr)
    requires |p| >= 20 && p[0] / 16 == 4 && 224 <= p[16] < 240 && p[9] == 17
    requires (p[6] as int * 256 + p[7]) % 0x4000 == 0
    requires 20 <= 4 * (p[0] % 16) && 4 * (p[0] % 16) + 8 <= |p| && local.V4?
    ensures DestinationOf(Localised(p, local)) == local
  {
    hide Rewritable, Localised;
    RewritableBytes(p);
    OnlyThreeFieldsChange(p, local);
  }

  /** And every other packet reaches it as it is. */
  lemma OthersAreLeftAlone(p: seq<byte>, local: Addr)
    requires !(&& |p| >= 20 && p[0] / 16 == 4 && 224 <= p[16] < 240 && p[9] == 17
               && (p[6] as int * 256 + p[7]) % 0x4000 == 0
               && 20 <= 4 * (p[0] % 16) && 4 * (p[0] % 16) + 8 <= |p| && local.V4?)
    ensures Localised(p, local) == p
  {
    hide Rewritable, Readdressed, Adjusted;
    RewritableBytes(p);
  }

  lemma RewritableBytes(p: seq<byte>)
    ensures
      Rewritable(p) <==>
        && |p| >= 20 && p[0] / 16 == 4 && 224 <= p[16] < 240 && p[9] == 17
        && (p[6] as int * 256 + p[7]) % 0x4000 == 0
        && 20 <= 4 * (p[0] % 16) && 4 * (p[0] % 16) + 8 <= |p|
  {
    if |p| >= 20 { assert p[16..20][0] == p[16] && p[6..8][0] == p[6] && p[6..8][1] == p[7]; }
  }

  // ----- what the readdressing keeps -----

  /** The sum that a header checksum makes all ones: the whole header. */
  function HeaderSum(p: seq<byte>, n: nat): nat
    requires 20 <= n <= |p|
  {
    WordSum(p[..n])
  }

  /** The sum that a UDP checksum makes all ones, for a datagram from `n` to `end`: the pseudo header
      of RFC 768, and the datagram. */
  function UdpSum(p: seq<byte>, n: nat, end: nat): nat
    requires 20 <= n && n + 8 <= end <= |p|
  {
    WordSum(p[12..20]) + PROTOCOL_UDP + (end - n) + WordSum(p[n..end])
  }

  /** Everything the header checksum covers but itself and the destination. */
  function HeaderRest(p: seq<byte>, n: nat): nat
    requires 20 <= n <= |p|
  {
    WordSum(p[..10]) + WordSum(p[12..16]) + WordSum(p[20..n])
  }

  function UdpRest(p: seq<byte>, n: nat, end: nat): nat
    requires 20 <= n && n + 8 <= end <= |p|
  {
    WordSum(p[12..16]) + PROTOCOL_UDP + (end - n) + WordSum(p[n..n + 6]) + WordSum(p[n + 8..end])
  }

  lemma HeaderSplits(p: seq<byte>, n: nat)
    requires 20 <= n <= |p|
    ensures HeaderSum(p, n) == HeaderRest(p, n) + HeaderChecksum(p) + WordSum(p[16..20])
  {
    assert p[..n] == p[..10] + (p[10..12] + (p[12..16] + (p[16..20] + p[20..n])));
    WordSumConcat(p[..10], p[10..12] + (p[12..16] + (p[16..20] + p[20..n])));
    WordSumConcat(p[10..12], p[12..16] + (p[16..20] + p[20..n]));
    WordSumConcat(p[12..16], p[16..20] + p[20..n]);
    WordSumConcat(p[16..20], p[20..n]);
    WordSumPair(p[10..12]);
  }

  lemma UdpSplits(p: seq<byte>, n: nat, end: nat)
    requires 20 <= n && n + 8 <= end <= |p| && n % 2 == 0
    ensures UdpSum(p, n, end) == UdpRest(p, n, end) + UdpChecksum(p, n) + WordSum(p[16..20])
  {
    hide WordSum, Uint16;
    assert p[12..20] == p[12..16] + p[16..20];
    WordSumConcat(p[12..16], p[16..20]);
    var segment := p[n..end];
    SegmentSplits(segment);
    Slice(p, n, end, 0, 6);
    Slice(p, n, end, 6, 8);
    Slice(p, n, end, 8, end - n);
  }

  lemma Slice(p: seq<byte>, n: nat, end: nat, i: nat, j: nat)
    requires i <= j && n + j <= end <= |p|
    ensures p[n..end][i..j] == p[n + i..n + j]
  {
    forall k | 0 <= k < j - i ensures p[n..end][i..j][k] == p[n + i..n + j][k] {
      assert p[n..end][i..j][k] == p[n..end][i + k];
    }
  }

  /** A datagram is what comes before its checksum, the checksum, and what comes after. */
  lemma SegmentSplits(b: seq<byte>)
    requires |b| >= 8
    ensures WordSum(b) == WordSum(b[..6]) + Uint16(b[6..8]) + WordSum(b[8..])
  {
    assert b[..6] + (b[6..8] + b[8..]) == b;
    WordSumConcat(b[..6], b[6..8] + b[8..]);
    WordSumConcat(b[6..8], b[8..]);
    WordSumPair(b[6..8]);
  }

  /** A group address never sums to all ones twice, since its first word is below, and a header starts
      with something other than zero. */
  lemma Shape(p: seq<byte>)
    requires Rewritable(p)
    ensures |p| > 0 && 20 <= HeaderLength(p) && HeaderLength(p) + 8 <= |p|
    ensures WordSum(p[16..20]) < 2 * 0xffff
    ensures HeaderRest(p, HeaderLength(p)) > 0
  {
    FourBytes(p[16..20]);
    FirstWordCounts(p[..10]);
  }

  lemma FirstWordCounts(b: seq<byte>)
    requires |b| >= 2 && b[0] > 0
    ensures WordSum(b) > 0
  {}

  /** What is readdressed is addressed to the whole LAN, whatever the subnet, and is not afterwards,
      unless the machine's own address is. */
  lemma ReaddressedForOne(p: seq<byte>, local: Addr, broadcast: Addr)
    requires Rewritable(p) && local.V4?
    ensures ForEveryone(DestinationOf(p), broadcast)
    ensures ForEveryone(DestinationOf(Localised(p, local)), broadcast) <==> ForEveryone(local, broadcast)
  {
    OnlyThreeFieldsChange(p, local);
    hide Localised;
  }

  /** Only the destination and the two checksum fields change, and the packet is still a whole datagram. */
  lemma OnlyThreeFieldsChange(p: seq<byte>, local: Addr)
    requires Rewritable(p) && local.V4?
    ensures
      var r, n := Localised(p, local), HeaderLength(p);
      && r[16..20] == local.raw4 && DestinationOf(r) == local && HeaderLength(r) == n
      && forall k | 0 <= k < |p| && !(10 <= k < 12) && !(16 <= k < 20) && !(n + 6 <= k < n + 8) :: r[k] == p[k]
  {}

  lemma ReaddressedFields(p: seq<byte>, now: Bytes4)
    requires Rewritable(p)
    ensures HeaderChecksum(Replace(p, 16, now)) == HeaderChecksum(p)
    ensures HeaderChecksum(Readdressed(p, now)) == Adjusted(HeaderChecksum(p), p[16..20], now)
    ensures UdpChecksum(Readdressed(p, now), HeaderLength(p)) == UdpChecksum(p, HeaderLength(p))
  {
    var n, p1 := HeaderLength(p), Replace(p, 16, now);
    assert p1[10..12] == p[10..12];
    var header := Adjusted(HeaderChecksum(p), p[16..20], now);
    assert Readdressed(p, now)[10..12] == PutUint16(header);
    assert Readdressed(p, now)[n + 6..n + 8] == p[n + 6..n + 8];
    hide Adjusted, Uint16;
    Uint16Inverse(header, PutUint16(header));
  }

  lemma HeaderField(p: seq<byte>, local: Addr)
    requires Rewritable(p) && local.V4?
    ensures HeaderChecksum(Localised(p, local)) == Adjusted(HeaderChecksum(p), p[16..20], local.raw4)
  {
    ReaddressedFields(p, local.raw4);
    assert Localised(p, local)[10..12] == Readdressed(p, local.raw4)[10..12];
  }

  lemma UdpField(p: seq<byte>, local: Addr)
    requires Rewritable(p) && local.V4?
    ensures
      var n := HeaderLength(p);
      var updated := Adjusted(UdpChecksum(p, HeaderLength(p)), p[16..20], local.raw4);
      UdpChecksum(Localised(p, local), n) ==
      if UdpChecksum(p, HeaderLength(p)) == 0 then 0 else if updated == 0 then 0xffff else updated
  {
    ReaddressedFields(p, local.raw4);
    var updated := Adjusted(UdpChecksum(p, HeaderLength(p)), p[16..20], local.raw4);
    var out: uint16 := if updated == 0 then 0xffff else updated;
    Uint16Inverse(out, PutUint16(out));
    hide Adjusted, Uint16, IsMulticast;
  }

  /** Slices that avoid three places hold the same when the bytes elsewhere do. */
  lemma SlicesAgree(p: seq<byte>, r: seq<byte>, n: nat, end: nat)
    requires 20 <= n && n + 8 <= end <= |p| == |r|
    requires forall k | 0 <= k < |p| && !(10 <= k < 12) && !(16 <= k < 20) && !(n + 6 <= k < n + 8) :: r[k] == p[k]
    ensures HeaderRest(r, n) == HeaderRest(p, n) && UdpRest(r, n, end) == UdpRest(p, n, end)
  {
    hide WordSum;
    assert r[..10] == p[..10];
    assert r[12..16] == p[12..16];
    assert r[20..n] == p[20..n];
    assert r[n..n + 6] == p[n..n + 6];
    assert r[n + 8..end] == p[n + 8..end];
  }

  lemma BlankHeaderSum(r: seq<byte>, n: nat)
    requires 20 <= n <= |r|
    ensures HeaderSum(Replace(r[..n], 10, [0, 0]), n) == HeaderRest(r, n) + WordSum(r[16..20])
  {
    hide WordSum;
    var blank := Replace(r[..n], 10, [0, 0]);
    HeaderSplits(blank, n);
    assert blank[..10] == r[..10] && blank[12..16] == r[12..16];
    assert blank[20..n] == r[20..n] && blank[16..20] == r[16..20];
    assert blank[10..12] == [0, 0];
  }

  lemma CorrectedHeader(p: seq<byte>, r: seq<byte>, n: nat, was: Bytes4, now: Bytes4)
    requires 20 <= n <= |p| && n <= |r| && p[16..20] == was && r[16..20] == now
    requires Sound(HeaderSum(p, n)) && WordSum(was) < 2 * 0xffff && HeaderRest(p, n) > 0
    requires HeaderRest(r, n) == HeaderRest(p, n)
    requires HeaderChecksum(r) == Adjusted(HeaderChecksum(p), was, now)
    ensures Sound(HeaderSum(r, n)) && HeaderChecksum(r) == Complement(HeaderSum(Replace(r[..n], 10, [0, 0]), n))
  {
    hide WordSum, Adjusted, Sound, Complement, HeaderRest, HeaderChecksum, HeaderSum, Replace;
    HeaderSplits(p, n);
    HeaderSplits(r, n);
    BlankHeaderSum(r, n);
    AdjustedIsSound(HeaderRest(p, n), HeaderChecksum(p), was, now);
  }

  lemma CorrectedDatagram(p: seq<byte>, r: seq<byte>, n: nat, end: nat, was: Bytes4, now: Bytes4)
    requires 20 <= n && n + 8 <= end <= |p| && end <= |r| && n % 2 == 0
    requires p[16..20] == was && r[16..20] == now && WordSum(was) < 2 * 0xffff
    requires Sound(UdpSum(p, n, end)) && UdpRest(r, n, end) == UdpRest(p, n, end)
    requires
      var updated := Adjusted(UdpChecksum(p, n), was, now);
      UdpChecksum(r, n) == if updated == 0 then 0xffff else updated
    ensures Sound(UdpSum(r, n, end))
  {
    var rest, field := UdpRest(p, n, end), UdpChecksum(p, n);
    assert rest >= PROTOCOL_UDP;
    hide WordSum, Adjusted, Sound, UdpRest, UdpChecksum, UdpSum;
    UdpSplits(p, n, end);
    UdpSplits(r, n, end);
    AdjustedIsSound(rest, field, was, now);
    ZeroGoesOutAsOnes(rest + Adjusted(field, was, now) + WordSum(now));
  }

  lemma RestStays(p: seq<byte>, local: Addr, end: nat)
    requires Rewritable(p) && local.V4? && HeaderLength(p) + 8 <= end <= |p|
    ensures
      var r, n := Localised(p, local), HeaderLength(p);
      r[16..20] == local.raw4 && HeaderRest(r, n) == HeaderRest(p, n) && UdpRest(r, n, end) == UdpRest(p, n, end)
  {
    OnlyThreeFieldsChange(p, local);
    hide Localised, WordSum, IsMulticast, Replace, Uint16;
    SlicesAgree(p, Localised(p, local), HeaderLength(p), end);
  }

  /** A sound header stays sound for the new destination, and its checksum is the one that summing the
      header from scratch, with the field taken as zero, would give. */
  lemma HeaderStaysSound(p: seq<byte>, local: Addr)
    requires Rewritable(p) && local.V4? && Sound(HeaderSum(p, HeaderLength(p)))
    ensures
      var r, n := Localised(p, local), HeaderLength(p);
      && Sound(HeaderSum(r, n))
      && HeaderChecksum(r) == Complement(HeaderSum(Replace(r[..n], 10, [0, 0]), n))
  {
    hide *;
    Shape(p);
    var r, n, was := Localised(p, local), HeaderLength(p), p[16..20];
    RestStays(p, local, |p|);
    HeaderField(p, local);
    CorrectedHeader(p, r, n, was, local.raw4);
  }

  /** A sound UDP checksum stays sound, wherever the datagram ends, and one that was never computed is
      left alone. The packet's own length decides nothing here: odd ones and trailing bytes included. */
  lemma UdpStaysSound(p: seq<byte>, local: Addr, end: nat)
    requires Rewritable(p) && local.V4? && HeaderLength(p) + 8 <= end <= |p|
    requires UdpChecksum(p, HeaderLength(p)) == 0 || Sound(UdpSum(p, HeaderLength(p), end))
    ensures
      var r, n := Localised(p, local), HeaderLength(p);
      if UdpChecksum(p, n) == 0 then UdpChecksum(r, n) == 0
      else UdpChecksum(r, n) != 0 && Sound(UdpSum(r, n, end))
  {
    hide *;
    Shape(p);
    var r, n, was := Localised(p, local), HeaderLength(p), p[16..20];
    RestStays(p, local, end);
    UdpField(p, local);
    if UdpChecksum(p, n) != 0 {
      CorrectedDatagram(p, r, n, end, was, local.raw4);
    }
  }

  /** A sum that is all ones stays so when a zero in it goes out as the other zero. */
  lemma ZeroGoesOutAsOnes(sum: nat)
    requires Sound(sum)
    ensures Sound(sum + 0xffff)
  {
    FoldIsRemainder(sum);
    FoldIsRemainder(sum + 0xffff);
  }
}
