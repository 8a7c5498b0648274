/** Byte for byte: one message of each kind as it is on the wire, which no printer and reader that agree with each
    other could change between them. */
module Examples {
  import opened Bytes
  import opened Checksums
  import opened Netip
  import opened Pump
  import opened Stun
  import opened Subnets
  import opened Wrappers
  import T = Transport

  // ----- the mesh -----

  /** A data packet of sender 0x0102030405060708 under counter 0x1112131415161718, with one byte of ciphertext. */
  lemma Envelope()
    ensures
      T.Header(1, 5, 0x0102030405060708, 0x1112131415161718).Encode([0xFF], [0xAA]) ==
      [0xFF, 0xC1, 0x92, 1, 5,
       0x01, 0x02, 0x03, 0x04, 0x05, 0x06, 0x07, 0x08,
       0x11, 0x12, 0x13, 0x14, 0x15, 0x16, 0x17, 0x18, 0xAA]
  {
    Long();
  }

  lemma Long()
    ensures PutUint64(0x0102030405060708) == [0x01, 0x02, 0x03, 0x04, 0x05, 0x06, 0x07, 0x08]
    ensures PutUint64(0x1112131415161718) == [0x11, 0x12, 0x13, 0x14, 0x15, 0x16, 0x17, 0x18]
  {
    hide PutUint32;
    Quads();
    assert 0x0102030405060708 == 0x01020304 * 0x1_0000_0000 + 0x05060708;
    assert 0x1112131415161718 == 0x11121314 * 0x1_0000_0000 + 0x15161718;
  }

  lemma Quads()
    ensures PutUint32(0x01020304) == [0x01, 0x02, 0x03, 0x04] && PutUint32(0x05060708) == [0x05, 0x06, 0x07, 0x08]
    ensures PutUint32(0x11121314) == [0x11, 0x12, 0x13, 0x14] && PutUint32(0x15161718) == [0x15, 0x16, 0x17, 0x18]
  {}

  /** The seven types of packet. */
  lemma Kinds()
    ensures
      [T.MSG_PROBE, T.MSG_HANDSHAKE_INIT, T.MSG_HANDSHAKE_RESPONSE, T.MSG_KEEPALIVE, T.MSG_DATA, T.MSG_CLOSE,
       T.MSG_FORWARD] == [1, 2, 3, 4, 5, 6, 7]
  {}

  lemma Payloads()
    ensures T.Ping(0x0102030405060708, true).Encode([0xFF]) == [0xFF, 1, 2, 3, 4, 5, 6, 7, 8, 1]
    ensures T.Ping(0x0102030405060708, false).Encode([]) == [1, 2, 3, 4, 5, 6, 7, 8, 0]
    ensures T.HandshakeInit([0x61, 0x62], [7, 8, 9]).Encode([0xFF]) == Success([0xFF, 2, 0x61, 0x62, 0, 3, 7, 8, 9])
    ensures T.HandshakeResponse([7, 8, 9]).Encode([0xFF]) == Success([0xFF, 0, 3, 7, 8, 9])
    ensures T.Forward(1, V4([10, 0, 0, 2]), V4([10, 0, 0, 3]), [0xAA]).Encode([0xFF]) ==
            Success([0xFF, 1, 10, 0, 0, 2, 10, 0, 0, 3, 0xAA])
  {
    Long();
    assert PutUint16(3) == [0, 3];
    assert T.HandshakeInit([0x61, 0x62], [7, 8, 9]).Encode([0xFF]).value == [0xFF, 2, 0x61, 0x62, 0, 3, 7, 8, 9];
    assert T.HandshakeResponse([7, 8, 9]).Encode([0xFF]).value == [0xFF, 0, 3, 7, 8, 9];
    assert T.Forward(1, V4([10, 0, 0, 2]), V4([10, 0, 0, 3]), [0xAA]).Encode([0xFF]).value ==
           [0xFF, 1, 10, 0, 0, 2, 10, 0, 0, 3, 0xAA];
  }

  // ----- addresses and ids -----

  /** 192.168.7.9/24 runs from 192.168.7.0 to 192.168.7.255. */
  lemma Subnet()
    ensures
      var p := Prefix([192, 168, 7, 9], 24);
      p.Network() == 0xc0a80700 && p.Broadcast() == 0xc0a807ff
  {
    assert Uint16([192, 168]) == 0xc0a8 && Uint16([7, 9]) == 0x0709;
    var addr: Bytes4 := [192, 168, 7, 9];
    assert addr[..2] == [192, 168] && addr[2..] == [7, 9];
    PowersOfTwo();
    assert Cleared(0xc0a80709, 8) == 0xc0a80700;
  }

  // ----- STUN -----

  const ID: TransactionID := [0xb7, 0xe7, 0xa7, 0x01, 0xbc, 0x34, 0xd6, 0x86, 0xfa, 0x87, 0xdf, 0xae]

  lemma Request()
    ensures NewRequest(ID) == [0x00, 0x01, 0x00, 0x00, 0x21, 0x12, 0xa4, 0x42] + ID
  {
    assert PutUint32(MAGIC_COOKIE) == [0x21, 0x12, 0xa4, 0x42];
  }

  /** A reply that says 192.0.2.1:32853, with the attribute of section 2.2 of RFC 5769. */
  const REPLY: seq<byte> :=
    [0x01, 0x01, 0x00, 0x0c, 0x21, 0x12, 0xa4, 0x42] + ID +
    [0x00, 0x20, 0x00, 0x08, 0x00, 0x01, 0xa1, 0x47, 0xe1, 0x12, 0xa6, 0x43]

  lemma Reply()
    ensures Answer(ID, REPLY) == Success(AddrPort(V4([192, 0, 2, 1]), 32853))
  {
    var body: seq<byte> := [0x00, 0x20, 0x00, 0x08, 0x00, 0x01, 0xa1, 0x47, 0xe1, 0x12, 0xa6, 0x43];
    ReplyHead();
    assert REPLY[HEADER_SIZE..HEADER_SIZE + 12] == body;
    assert body[0..2] == [0x00, 0x20] && body[2..4] == [0x00, 0x08];
    var value := body[4..4 + 8];
    assert value == [0x00, 0x01, 0xa1, 0x47, 0xe1, 0x12, 0xa6, 0x43];
    XorReply(value);
  }

  /** And one of RFC 3489, which says it openly. */
  lemma MappedReply()
    ensures
      var attribute: seq<byte> := [0x00, 0x01, 0x00, 0x08, 0x00, 0x01, 0x80, 0x55, 192, 0, 2, 1];
      Walk(ID, attribute, NO_ENDPOINT) == Success(AddrPort(V4([192, 0, 2, 1]), 32853))
  {
    var body: seq<byte> := [0x00, 0x01, 0x00, 0x08, 0x00, 0x01, 0x80, 0x55, 192, 0, 2, 1];
    assert body[0..2] == [0x00, 0x01] && body[2..4] == [0x00, 0x08];
    var value := body[4..4 + 8];
    assert value == [0x00, 0x01, 0x80, 0x55, 192, 0, 2, 1];
    assert value[2..4] == [0x80, 0x55] && value[4..][..4] == [192, 0, 2, 1];
    assert body[12..] == [];
  }

  lemma ReplyHead()
    ensures |REPLY| == 32 && REPLY[0..2] == [1, 1] && REPLY[2..4] == [0, 12] && REPLY[8..20] == ID
    ensures Looks(REPLY)
  {
    assert REPLY[4..8] == [0x21, 0x12, 0xa4, 0x42];
  }

  lemma XorReply(value: seq<byte>)
    requires value == [0x00, 0x01, 0xa1, 0x47, 0xe1, 0x12, 0xa6, 0x43]
    ensures AddressIn(value, ID, true) == Success(AddrPort(V4([192, 0, 2, 1]), 32853))
  {
    hide Xor8, Xor16, XorBits;
    assert value[2..4] == [0xa1, 0x47] && value[4..][..4] == [0xe1, 0x12, 0xa6, 0x43];
    assert KeyOf(ID)[..4] == [0x21, 0x12, 0xa4, 0x42];
    PortXor();
    ByteXors();
    assert XorBytes(value[4..][..4], KeyOf(ID)) == [192, 0, 2, 1];
  }

  /** Exclusive or goes digit by hexadecimal digit. */
  lemma XorDigit(a: nat, b: nat, x: nat, y: nat, n: nat)
    requires x < 16 && y < 16
    ensures XorBits(16 * a + x, 16 * b + y, n + 4) == 16 * XorBits(a, b, n) + XorBits(x, y, 4)
  {
    hide XorBits;
    assert 16 * a + x == 4 * (4 * a + x / 4) + x % 4 && 16 * b + y == 4 * (4 * b + y / 4) + y % 4;
    XorPair(4 * a + x / 4, 4 * b + y / 4, x % 4, y % 4, n + 2);
    XorPair(a, b, x / 4, y / 4, n);
    XorPair(x / 4, y / 4, x % 4, y % 4, 2);
  }

  lemma XorPair(a: nat, b: nat, x: nat, y: nat, n: nat)
    requires x < 4 && y < 4
    ensures XorBits(4 * a + x, 4 * b + y, n + 2) == 4 * XorBits(a, b, n) + XorBits(x, y, 2)
  {
    hide XorBits;
    XorBit(2 * a + x / 2, 2 * b + y / 2, x % 2, y % 2, n + 1);
    XorBit(a, b, x / 2, y / 2, n);
    XorBit(x / 2, y / 2, x % 2, y % 2, 1);
    XorBit(0, 0, x / 2, y / 2, 0);
    XorNone();
  }

  lemma XorNone()
    ensures XorBits(0, 0, 0) == 0
  {}

  lemma XorBit(a: nat, b: nat, x: nat, y: nat, n: nat)
    requires x < 2 && y < 2
    ensures XorBits(2 * a + x, 2 * b + y, n + 1) == 2 * XorBits(a, b, n) + (x + y) % 2
  {
    Halves(a, b, x, y);
  }

  lemma Halves(a: nat, b: nat, x: nat, y: nat)
    requires x < 2 && y < 2
    ensures (2 * a + x) / 2 == a && (2 * b + y) / 2 == b && (2 * a + x + (2 * b + y)) % 2 == (x + y) % 2
  {
    assert 2 * a + x + (2 * b + y) == 2 * (a + b) + (x + y);
  }

  lemma Digits()
    ensures XorBits(0xe, 0x2, 4) == 0xc && XorBits(0x1, 0x1, 4) == 0 && XorBits(0x2, 0x2, 4) == 0
    ensures XorBits(0xa, 0xa, 4) == 0 && XorBits(0x6, 0x4, 4) == 2 && XorBits(0x4, 0x4, 4) == 0
    ensures XorBits(0x3, 0x2, 4) == 1 && XorBits(0xa, 0x2, 4) == 8 && XorBits(0x4, 0x1, 4) == 5
    ensures XorBits(0x7, 0x2, 4) == 5
  {}

  lemma PortXor()
    ensures MAGIC_COOKIE / 0x1_0000 == 0x2112 && Xor16(0xa147, 0x2112) == 32853
  {
    hide XorBits;
    Digits();
    XorDigit(0xa, 0x2, 0x1, 0x1, 4);
    XorDigit(0xa1, 0x21, 0x4, 0x1, 8);
    XorDigit(0xa14, 0x211, 0x7, 0x2, 12);
  }

  lemma ByteXors()
    ensures Xor8(0xe1, 0x21) == 192 && Xor8(0x12, 0x12) == 0 && Xor8(0xa6, 0xa4) == 2 && Xor8(0x43, 0x42) == 1
  {
    hide XorBits;
    Digits();
    XorDigit(0xe, 0x2, 0x1, 0x1, 4);
    XorDigit(0x1, 0x1, 0x2, 0x2, 4);
    XorDigit(0xa, 0xa, 0x6, 0x4, 4);
    XorDigit(0x4, 0x4, 0x3, 0x2, 4);
  }

  // ----- a discovery packet -----

  const LEAD: seq<byte> := [0x45, 0, 0, 32] + [0, 1, 0, 0] + [4, 17]
  const SENDER: seq<byte> := [10, 64, 0, 2]
  const PORTS: seq<byte> := [23, 224, 23, 224] + [0, 12]
  const TEXT: seq<byte> := [108, 97, 110, 63]

  /** From 10.64.0.2, UDP from port 6112 to port 6112. */
  function Packet(header: seq<byte>, to: Bytes4, udp: seq<byte>): seq<byte> {
    LEAD + (header + (SENDER + (to + (PORTS + (udp + TEXT)))))
  }

  const GROUP: Bytes4 := [239, 255, 255, 250]
  const LOCAL: Bytes4 := [10, 64, 0, 3]

  lemma PacketFields(header: seq<byte>, to: Bytes4, udp: seq<byte>)
    requires |header| == |udp| == 2
    ensures
      var p := Packet(header, to, udp);
      && |p| == 32 && p[0] == 0x45 && p[9] == 17 && p[6..8] == [0, 0]
      && p[10..12] == header && p[16..20] == to && p[26..28] == udp
      && p[..20] == LEAD + (header + (SENDER + to)) && p[12..20] == SENDER + to && p[20..32] == PORTS + (udp + TEXT)
  {
    var p := Packet(header, to, udp);
    assert LEAD[6] == 0 && LEAD[7] == 0 && LEAD[0] == 0x45 && LEAD[9] == 17;
    assert p[6..8] == LEAD[6..8];
  }

  lemma FieldsReplaced(header: seq<byte>, to: Bytes4, udp: seq<byte>, now: Bytes4, h: seq<byte>, u: seq<byte>)
    requires |header| == |udp| == |h| == |u| == 2
    ensures |Packet(header, to, udp)| == 32
    ensures Replace(Packet(header, to, udp), 16, now) == Packet(header, now, udp)
    ensures Replace(Packet(header, to, udp), 10, h) == Packet(h, to, udp)
    ensures Replace(Packet(header, to, udp), 26, u) == Packet(header, to, u)
  {
    hide Replace;
    Lengths();
    SecondReplaced(LEAD, header, SENDER + (to + (PORTS + (udp + TEXT))), h);
    FourthReplaced(LEAD, header, SENDER, to, PORTS + (udp + TEXT), now);
    SixthReplaced(LEAD, header, SENDER, to, PORTS, udp, TEXT, u);
  }

  lemma Lengths()
    ensures |LEAD| == 10 && |SENDER| == 4 && |PORTS| == 6 && |TEXT| == 4
  {}

  lemma SecondReplaced(a: seq<byte>, b: seq<byte>, c: seq<byte>, now: seq<byte>)
    requires |now| == |b|
    ensures |a| + |b| <= |a + (b + c)| && Replace(a + (b + c), |a|, now) == a + (now + c)
  {
    hide Replace;
    ReplaceHead(b, c, now);
    ReplaceAfter(a, b + c, 0, now);
  }

  lemma FourthReplaced(a: seq<byte>, b: seq<byte>, c: seq<byte>, d: seq<byte>, e: seq<byte>, now: seq<byte>)
    requires |now| == |d|
    ensures
      var p, at := a + (b + (c + (d + e))), |a| + |b| + |c|;
      at + |d| <= |p| && Replace(p, at, now) == a + (b + (c + (now + e)))
  {
    hide Replace;
    SecondReplaced(c, d, e, now);
    ReplaceAfter(b, c + (d + e), |c|, now);
    ReplaceAfter(a, b + (c + (d + e)), |b| + |c|, now);
  }

  lemma SixthReplaced(a: seq<byte>, b: seq<byte>, c: seq<byte>, d: seq<byte>, e: seq<byte>, f: seq<byte>,
                      g: seq<byte>, now: seq<byte>)
    requires |now| == |f|
    ensures
      var p, at := a + (b + (c + (d + (e + (f + g))))), |a| + |b| + |c| + |d| + |e|;
      at + |f| <= |p| && Replace(p, at, now) == a + (b + (c + (d + (e + (now + g)))))
  {
    hide Replace;
    FourthReplaced(c, d, e, f, g, now);
    ReplaceAfter(b, c + (d + (e + (f + g))), |c| + |d| + |e|, now);
    ReplaceAfter(a, b + (c + (d + (e + (f + g)))), |b| + |c| + |d| + |e|, now);
  }

  lemma ReplaceHead(b: seq<byte>, c: seq<byte>, now: seq<byte>)
    requires |now| == |b|
    ensures Replace(b + c, 0, now) == now + c
  {}

  lemma ReplaceAfter(a: seq<byte>, p: seq<byte>, k: nat, now: seq<byte>)
    requires k + |now| <= |p|
    ensures |a| + k + |now| <= |a + p| && Replace(a + p, |a| + k, now) == a + Replace(p, k, now)
  {}

  /** To 239.255.255.250 it has these checksums, and as it reaches 10.64.0.3 those. */
  lemma Localise()
    ensures Localised(Packet([188, 144], GROUP, [251, 56]), V4(LOCAL)) == Packet([162, 72], LOCAL, [224, 240])
  {
    hide Adjusted, Packet, Replace, Rewritable, HeaderLength, HeaderChecksum, UdpChecksum;
    DiscoveryFields();
    FieldsReplaced([188, 144], GROUP, [251, 56], LOCAL, [162, 72], [224, 240]);
    FieldsReplaced([188, 144], LOCAL, [251, 56], LOCAL, [162, 72], [224, 240]);
    FieldsReplaced([162, 72], LOCAL, [251, 56], LOCAL, [162, 72], [224, 240]);
    Corrections();
    assert PutUint16(162 * 256 + 72) == [162, 72] && PutUint16(224 * 256 + 240) == [224, 240];
  }

  lemma DiscoveryFields()
    ensures
      var p := Packet([188, 144], GROUP, [251, 56]);
      && |p| == 32 && Rewritable(p) && HeaderLength(p) == 20 && p[16..20] == GROUP
      && HeaderChecksum(p) == 188 * 256 + 144 && UdpChecksum(p, 20) == 251 * 256 + 56
  {
    hide Packet, Rewritable;
    var p := Packet([188, 144], GROUP, [251, 56]);
    PacketFields([188, 144], GROUP, [251, 56]);
    assert p[16] == p[16..20][0] && p[6] == p[6..8][0] && p[7] == p[6..8][1];
    RewritableBytes(p);
  }

  lemma Corrections()
    ensures Adjusted(188 * 256 + 144, GROUP, LOCAL) == 162 * 256 + 72
    ensures Adjusted(251 * 256 + 56, GROUP, LOCAL) == 224 * 256 + 240
  {
    FourBytes(GROUP);
    FourBytes(LOCAL);
  }

  /** Both are right: over the header, and over the pseudo header and the datagram. */
  lemma DiscoveryIsSound()
    ensures |Packet([188, 144], GROUP, [251, 56])| == 32
    ensures Sound(HeaderSum(Packet([188, 144], GROUP, [251, 56]), 20))
    ensures Sound(UdpSum(Packet([188, 144], GROUP, [251, 56]), 20, 32))
  {
    hide WordSum, Sound, Packet;
    PacketFields([188, 144], GROUP, [251, 56]);
    Sums([188, 144], [251, 56]);
    AllOnes(0x4500 + 32 + 1 + 0x411 + 188 * 256 + 144 + 10 * 256 + 64 + 2 + 0xefff + 0xfffa);
    AllOnes(10 * 256 + 64 + 2 + 0xefff + 0xfffa + 17 + 12 + 2 * 6112 + 12 + 251 * 256 + 56 + 0x6c61 + 0x6e3f);
  }

  lemma Sums(header: seq<byte>, udp: seq<byte>)
    requires |header| == |udp| == 2
    ensures
      WordSum(SENDER + GROUP) == 10 * 256 + 64 + 2 + 0xefff + 0xfffa &&
      WordSum(LEAD + (header + (SENDER + GROUP))) == 0x4500 + 32 + 1 + 0x411 + Uint16(header) + WordSum(SENDER + GROUP)
    ensures WordSum(PORTS + (udp + TEXT)) == 2 * 6112 + 12 + Uint16(udp) + 0x6c61 + 0x6e3f
  {
    hide WordSum;
    Quad(0x45, 0, 0, 32);
    Quad(0, 1, 0, 0);
    WordSumPair([4, 17]);
    WordSumConcat([0x45, 0, 0, 32] + [0, 1, 0, 0], [4, 17]);
    WordSumConcat([0x45, 0, 0, 32], [0, 1, 0, 0]);
    WordSumPair(header);
    Quad(10, 64, 0, 2);
    Quad(239, 255, 255, 250);
    WordSumConcat(SENDER, GROUP);
    WordSumConcat(header, SENDER + GROUP);
    WordSumConcat(LEAD, header + (SENDER + GROUP));
    Quad(23, 224, 23, 224);
    WordSumPair([0, 12]);
    WordSumConcat([23, 224, 23, 224], [0, 12]);
    WordSumPair(udp);
    Quad(108, 97, 110, 63);
    WordSumConcat(udp, TEXT);
    WordSumConcat(PORTS, udp + TEXT);
  }

  lemma Quad(a: byte, b: byte, c: byte, d: byte)
    ensures WordSum([a, b, c, d]) == a as int * 256 + b + c as int * 256 + d
  {
    FourBytes([a, b, c, d]);
  }

  lemma AllOnes(sum: nat)
    requires sum > 0 && sum % 0xffff == 0
    ensures Sound(sum)
  {
    FoldIsRemainder(sum);
  }
}
