/** What a STUN server says this machine looks like from outside: the binding request, and the reading
    of a reply's attributes. */
module Stun {
  import opened Bytes
  import opened Netip
  import opened Wrappers
  import Transport

  const BINDING_REQUEST: uint16 := 0x0001
  const BINDING_SUCCESS: uint16 := 0x0101
  const MAGIC_COOKIE: uint32 := 0x2112A442
  const HEADER_SIZE := 20
  const ATTR_MAPPED_ADDRESS: uint16 := 0x0001
  const ATTR_XOR_MAPPED_ADDRESS: uint16 := 0x0020
  const FAMILY_IPV4: byte := 0x01
  const FAMILY_IPV6: byte := 0x02

  type TransactionID = id: seq<byte> | |id| == 12 witness seq(12, _ => 0)

  datatype StunError =
    | ErrNotSTUN
    | ErrMessageType(kind: uint16)
    | ErrOtherRequest
    | ErrShorterThanClaimed
    | ErrAttributeOverruns
    | ErrNoAddress
    | ErrTooShort
    | ErrFamily(family: byte)

  // ----- exclusive or -----

  /** The bits in which two n-bit numbers differ. */
  function XorBits(a: nat, b: nat, n: nat): (r: nat) {
    if n == 0 then 0 else 2 * XorBits(a / 2, b / 2, n - 1) + (a + b) % 2
  }

  lemma {:induction false} XorBitsFit(a: nat, b: nat, n: nat)
    ensures XorBits(a, b, n) < PowerOfTwo(n)
  {
    if n > 0 { XorBitsFit(a / 2, b / 2, n - 1); }
  }

  /** Doing it twice undoes it. */
  lemma {:induction false} XorBitsTwice(a: nat, b: nat, n: nat)
    requires a < PowerOfTwo(n)
    ensures XorBits(XorBits(a, b, n), b, n) == a
  {
    if n == 0 {
      assert PowerOfTwo(0) == 1;
    } else {
      HalfFits(a, n);
      XorBitsTwice(a / 2, b / 2, n - 1);
      var x, half := XorBits(a, b, n), XorBits(a / 2, b / 2, n - 1);
      assert x == 2 * half + (a + b) % 2;
      LastBit(half, a, b);
      assert XorBits(x, b, n) == 2 * XorBits(x / 2, b / 2, n - 1) + (x + b) % 2;
    }
  }

  lemma HalfFits(a: nat, n: nat)
    requires n > 0 && a < PowerOfTwo(n)
    ensures a / 2 < PowerOfTwo(n - 1)
  {}

  lemma LastBit(half: nat, a: nat, b: nat)
    ensures var x := 2 * half + (a + b) % 2; x / 2 == half && (x + b) % 2 == a % 2
  {}

  function Xor8(a: byte, b: byte): byte {
    XorBitsFit(a, b, 8);
    PowersOfTwo();
    XorBits(a, b, 8)
  }

  function Xor16(a: uint16, b: uint16): uint16 {
    XorBitsFit(a, b, 16);
    PowersOfTwo();
    XorBits(a, b, 16)
  }

  lemma Xor8Twice(a: byte, b: byte)
    ensures Xor8(Xor8(a, b), b) == a
  {
    PowersOfTwo();
    XorBitsTwice(a, b, 8);
  }

  lemma Xor16Twice(a: uint16, b: uint16)
    ensures Xor16(Xor16(a, b), b) == a
  {
    PowersOfTwo();
    XorBitsTwice(a, b, 16);
  }

  /** Bytes under a key at least as long. */
  function XorBytes(b: seq<byte>, key: seq<byte>): (r: seq<byte>)
    requires |b| <= |key|
    ensures |r| == |b|
  {
    seq(|b|, (i: nat) requires i < |b| => Xor8(b[i], key[i]))
  }

  lemma XorBytesTwice(b: seq<byte>, key: seq<byte>)
    requires |b| <= |key|
    ensures XorBytes(XorBytes(b, key), key) == b
  {
    forall i | 0 <= i < |b| ensures XorBytes(XorBytes(b, key), key)[i] == b[i] { Xor8Twice(b[i], key[i]); }
  }

  // ----- messages -----

  /** A binding request with the given transaction id. */
  function NewRequest(id: TransactionID): (packet: seq<byte>)
    ensures |packet| == HEADER_SIZE
    ensures Uint16(packet[0..2]) == BINDING_REQUEST && Uint16(packet[2..4]) == 0
    ensures Uint32(packet[4..8]) == MAGIC_COOKIE && packet[8..20] == id
  {
    RequestFields(id);
    PutUint16(BINDING_REQUEST) + PutUint16(0) + PutUint32(MAGIC_COOKIE) + id
  }

  lemma RequestFields(id: TransactionID)
    ensures
      var packet := PutUint16(BINDING_REQUEST) + PutUint16(0) + PutUint32(MAGIC_COOKIE) + id;
      && Uint16(packet[0..2]) == BINDING_REQUEST && Uint16(packet[2..4]) == 0
      && Uint32(packet[4..8]) == MAGIC_COOKIE && packet[8..20] == id
  {
    var packet := PutUint16(BINDING_REQUEST) + PutUint16(0) + PutUint32(MAGIC_COOKIE) + id;
    assert packet[0..2] == PutUint16(BINDING_REQUEST) && packet[2..4] == PutUint16(0);
    assert packet[4..8] == PutUint32(MAGIC_COOKIE);
    Uint16Inverse(BINDING_REQUEST, packet[0..2]);
    Uint16Inverse(0, packet[2..4]);
    Uint32Inverse(MAGIC_COOKIE, packet[4..8]);
  }

  predicate Looks(packet: seq<byte>) {
    |packet| >= HEADER_SIZE && packet[0] / 0x40 == 0 && Uint32(packet[4..8]) == MAGIC_COOKIE
  }

  /** What a mapped address hides under: the cookie and the transaction id. */
  function KeyOf(id: TransactionID): (key: seq<byte>)
    ensures |key| == 16
  {
    PutUint32(MAGIC_COOKIE) + id
  }

  /** An address attribute's value, read. */
  function AddressIn(value: seq<byte>, id: TransactionID, xored: bool): Result<AddrPort, StunError> {
    if |value| < 4 then Failure(ErrTooShort)
    else
      var sent, raw := Uint16(value[2..4]), value[4..];
      var port := if xored then Xor16(sent, MAGIC_COOKIE / 0x1_0000) else sent;
      if value[1] == FAMILY_IPV4 then
        if |raw| < 4 then Failure(ErrTooShort)
        else Success(AddrPort(V4(if xored then XorBytes(raw[..4], KeyOf(id)) else raw[..4]), port))
      else if value[1] == FAMILY_IPV6 then
        if |raw| < 16 then Failure(ErrTooShort)
        else Success(AddrPort(V6(if xored then XorBytes(raw[..16], KeyOf(id)) else raw[..16]), port))
      else Failure(ErrFamily(value[1]))
  }

  /** The bytes that follow an attribute of that size before the next one. */
  function Padding(size: nat): (n: nat)
    ensures n < 4 && (size + n) % 4 == 0
  {
    if size % 4 != 0 then 4 - size % 4 else 0
  }

  /** What is left of a message's attributes, read in order, with the address to fall back on. */
  function Walk(id: TransactionID, body: seq<byte>, fallback: AddrPort): Result<AddrPort, StunError>
    decreases |body|
  {
    if |body| < 4 then if fallback.IsValid() then Success(fallback) else Failure(ErrNoAddress)
    else
      var kind, size: nat := Uint16(body[0..2]), Uint16(body[2..4]);
      if 4 + size > |body| then Failure(ErrAttributeOverruns)
      else if kind == ATTR_XOR_MAPPED_ADDRESS then AddressIn(body[4..4 + size], id, true)
      else
        var mapped := AddressIn(body[4..4 + size], id, false);
        var next := if kind == ATTR_MAPPED_ADDRESS && mapped.Success? then mapped.value else fallback;
        var advance := 4 + size + Padding(size);
        if advance > |body| then if next.IsValid() then Success(next) else Failure(ErrNoAddress)
        else Walk(id, body[advance..], next)
  }

  function Answer(id: TransactionID, packet: seq<byte>): Result<AddrPort, StunError> {
    if !Looks(packet) then Failure(ErrNotSTUN)
    else if Uint16(packet[0..2]) != BINDING_SUCCESS then Failure(ErrMessageType(Uint16(packet[0..2])))
    else if packet[8..20] != id then Failure(ErrOtherRequest)
    else
      var length: nat := Uint16(packet[2..4]);
      if HEADER_SIZE + length > |packet| then Failure(ErrShorterThanClaimed)
      else Walk(id, packet[HEADER_SIZE..HEADER_SIZE + length], NO_ENDPOINT)
  }

  // ----- the code that reads them -----

  /** Uncovers bytes in place, one at a time. */
  method Uncover(raw: array<byte>, key: seq<byte>)
    requires raw.Length <= |key|
    modifies raw
    ensures raw[..] == XorBytes(old(raw[..]), key)
  {
    for i := 0 to raw.Length
      invariant forall k | 0 <= k < raw.Length :: raw[k] == if k < i then Xor8(old(raw[k]), key[k]) else old(raw[k])
    {
      raw[i] := Xor8(raw[i], key[i]);
    }
  }

  method ParseAddress(value: seq<byte>, id: TransactionID, xored: bool) returns (r: Result<AddrPort, StunError>)
    ensures r == AddressIn(value, id, xored)
  {
    if |value| < 4 {
      return Failure(ErrTooShort);
    }
    var family, port, raw := value[1], Uint16(value[2..4]), value[4..];
    var key := KeyOf(id);
    if xored {
      port := Xor16(port, MAGIC_COOKIE / 0x1_0000);
    }
    if family == FAMILY_IPV4 {
      if |raw| < 4 {
        return Failure(ErrTooShort);
      }
      var out := new byte[4](i requires 0 <= i < 4 => raw[i]);
      assert out[..] == raw[..4];
      if xored {
        Uncover(out, key);
      }
      return Success(AddrPort(V4(out[..]), port));
    } else if family == FAMILY_IPV6 {
      if |raw| < 16 {
        return Failure(ErrTooShort);
      }
      var out := new byte[16](i requires 0 <= i < 16 => raw[i]);
      assert out[..] == raw[..16];
      if xored {
        Uncover(out, key);
      }
      return Success(AddrPort(V6(out[..]), port));
    }
    return Failure(ErrFamily(family));
  }

  /** Walks the attributes of a reply. It stays in bounds and ends on any bytes whatever. */
  method ParseResponse(id: TransactionID, packet: seq<byte>) returns (r: Result<AddrPort, StunError>)
    ensures r == Answer(id, packet)
  {
    if !Looks(packet) {
      return Failure(ErrNotSTUN);
    }
    var kind := Uint16(packet[0..2]);
    if kind != BINDING_SUCCESS {
      return Failure(ErrMessageType(kind));
    }
    if packet[8..20] != id {
      return Failure(ErrOtherRequest);
    }
    var length: nat := Uint16(packet[2..4]);
    if HEADER_SIZE + length > |packet| {
      return Failure(ErrShorterThanClaimed);
    }
    var body := packet[HEADER_SIZE..HEADER_SIZE + length];
    var fallback := NO_ENDPOINT;
    while |body| >= 4
      invariant Walk(id, body, fallback) == Answer(id, packet)
      decreases |body|
    {
      var kind, size: nat := Uint16(body[0..2]), Uint16(body[2..4]);
      if 4 + size > |body| {
        return Failure(ErrAttributeOverruns);
      }
      var value := body[4..4 + size];
      if kind == ATTR_XOR_MAPPED_ADDRESS {
        r := ParseAddress(value, id, true);
        return;
      } else if kind == ATTR_MAPPED_ADDRESS {
        var addr := ParseAddress(value, id, false);
        if addr.Success? {
          fallback := addr.value;
        }
      }
      var advance := 4 + size;
      if size % 4 != 0 {
        advance := advance + 4 - size % 4;
      }
      if advance > |body| {
        break;
      }
      body := body[advance..];
    }
    if fallback.IsValid() {
      return Success(fallback);
    }
    return Failure(ErrNoAddress);
  }

  // ----- a reply as its sender lays it out: sections 6 and 15 of RFC 5389 -----

  /** One attribute. The padding may hold anything. */
  datatype Attribute = Attribute(kind: uint16, value: seq<byte>, padding: seq<byte>) {
    predicate WellFormed() {
      |value| < 0x1_0000 && |padding| == Padding(|value|)
    }

    function Print(): (b: seq<byte>)
      requires WellFormed()
      ensures |b| == 4 + |value| + |padding|
    {
      PutUint16(kind) + PutUint16(|value|) + value + padding
    }
  }

  predicate AllWellFormed(list: seq<Attribute>) {
    forall i | 0 <= i < |list| :: list[i].WellFormed()
  }

  function PrintAll(list: seq<Attribute>): (b: seq<byte>)
    requires AllWellFormed(list)
  {
    if list == [] then [] else list[0].Print() + PrintAll(list[1..])
  }

  /** A binding success with those attributes, and whatever the datagram holds after it. */
  function Reply(id: TransactionID, list: seq<Attribute>, rest: seq<byte>): seq<byte>
    requires AllWellFormed(list) && |PrintAll(list)| < 0x1_0000
  {
    PutUint16(BINDING_SUCCESS) + PutUint16(|PrintAll(list)|) + PutUint32(MAGIC_COOKIE) + id + PrintAll(list) + rest
  }

  /** An address attribute's value, as section 15.1 or 15.2 lays it out. The first byte is ignored. */
  function AddressValue(a: AddrPort, id: TransactionID, xored: bool, reserved: byte): (value: seq<byte>)
    requires a.IsValid()
  {
    var raw := if a.addr.V4? then a.addr.raw4 else a.addr.raw6;
    [reserved, if a.addr.V4? then FAMILY_IPV4 else FAMILY_IPV6]
    + PutUint16(if xored then Xor16(a.port, MAGIC_COOKIE / 0x1_0000) else a.port)
    + (if xored then XorBytes(raw, KeyOf(id)) else raw)
  }

  /** Reading inverts printing, for both families, hidden or not, whatever follows. */
  lemma AddressRoundTrip(a: AddrPort, id: TransactionID, xored: bool, reserved: byte, more: seq<byte>)
    requires a.IsValid()
    ensures AddressIn(AddressValue(a, id, xored, reserved) + more, id, xored) == Success(a)
  {
    hide XorBits, Xor8, Xor16, Uint16, PutUint16, XorBytes;
    var raw := if a.addr.V4? then a.addr.raw4 else a.addr.raw6;
    var hidden := if xored then XorBytes(raw, KeyOf(id)) else raw;
    var sent := if xored then Xor16(a.port, MAGIC_COOKIE / 0x1_0000) else a.port;
    var value := AddressValue(a, id, xored, reserved) + more;
    var lead, port := [reserved, if a.addr.V4? then FAMILY_IPV4 else FAMILY_IPV6], PutUint16(sent);
    assert value == lead + (port + (hidden + more));
    PartsOf(lead, port, hidden, more);
    Uint16Inverse(sent, PutUint16(sent));
    Xor16Twice(a.port, MAGIC_COOKIE / 0x1_0000);
    XorBytesTwice(raw, KeyOf(id));
  }

  lemma PartsOf(lead: seq<byte>, port: seq<byte>, raw: seq<byte>, more: seq<byte>)
    requires |lead| == |port| == 2
    ensures
      var value := lead + (port + (raw + more));
      value[1] == lead[1] && value[2..4] == port && value[4..] == raw + more && (raw + more)[..|raw|] == raw
  {}

  /** Reading one printed attribute, whatever follows it. */
  lemma PrintedOne(a: Attribute, more: seq<byte>)
    requires a.WellFormed()
    ensures
      var body := a.Print() + more;
      && Uint16(body[0..2]) == a.kind && Uint16(body[2..4]) == |a.value|
      && body[4..4 + |a.value|] == a.value
      && body[4 + |a.value| + Padding(|a.value|)..] == more
  {
    hide Uint16, PutUint16, Padding;
    var body := a.Print() + more;
    Uint16Inverse(a.kind, PutUint16(a.kind));
    Uint16Inverse(|a.value|, PutUint16(|a.value|));
    assert body[0..2] == PutUint16(a.kind);
    assert body[2..4] == PutUint16(|a.value|);
  }

  /** Reading the first attribute of a printed list. */
  lemma PrintedHead(list: seq<Attribute>)
    requires AllWellFormed(list) && list != []
    ensures
      var body, a := PrintAll(list), list[0];
      && |body| >= 4 + |a.value| + Padding(|a.value|)
      && Uint16(body[0..2]) == a.kind && Uint16(body[2..4]) == |a.value|
      && body[4..4 + |a.value|] == a.value
      && body[4 + |a.value| + Padding(|a.value|)..] == PrintAll(list[1..])
  {
    PrintedOne(list[0], PrintAll(list[1..]));
    hide Uint16, PutUint16, Padding, Attribute.Print;
  }

  lemma WalkStep(id: TransactionID, list: seq<Attribute>, fallback: AddrPort)
    requires AllWellFormed(list) && list != []
    ensures
      var a := list[0];
      var mapped := AddressIn(a.value, id, false);
      Walk(id, PrintAll(list), fallback) ==
        if a.kind == ATTR_XOR_MAPPED_ADDRESS then AddressIn(a.value, id, true)
        else Walk(id, PrintAll(list[1..]),
                  if a.kind == ATTR_MAPPED_ADDRESS && mapped.Success? then mapped.value else fallback)
  {
    PrintedHead(list);
    hide PrintAll, AddressIn, Uint16;
  }

  predicate Mapped(a: Attribute, id: TransactionID) {
    a.kind == ATTR_MAPPED_ADDRESS && AddressIn(a.value, id, false).Success?
  }

  lemma {:induction false} WalkFirstXor(id: TransactionID, list: seq<Attribute>, fallback: AddrPort, i: nat)
    requires AllWellFormed(list) && i < |list| && list[i].kind == ATTR_XOR_MAPPED_ADDRESS
    requires forall j | 0 <= j < i :: list[j].kind != ATTR_XOR_MAPPED_ADDRESS
    ensures Walk(id, PrintAll(list), fallback) == AddressIn(list[i].value, id, true)
    decreases |list|
  {
    hide Walk, PrintAll, AddressIn;
    WalkStep(id, list, fallback);
    if i > 0 {
      var a := list[0];
      var mapped := AddressIn(a.value, id, false);
      assert a.kind != ATTR_XOR_MAPPED_ADDRESS;
      WalkFirstXor(id, list[1..], if Mapped(a, id) then mapped.value else fallback, i - 1);
    }
  }

  lemma {:induction false} WalkNoXor(id: TransactionID, list: seq<Attribute>, fallback: AddrPort)
    requires AllWellFormed(list)
    requires forall j | 0 <= j < |list| :: list[j].kind != ATTR_XOR_MAPPED_ADDRESS && !Mapped(list[j], id)
    ensures Walk(id, PrintAll(list), fallback) ==
            if fallback.IsValid() then Success(fallback) else Failure(ErrNoAddress)
    decreases |list|
  {
    if list != [] {
      hide Walk, PrintAll, AddressIn;
      WalkStep(id, list, fallback);
      WalkNoXor(id, list[1..], fallback);
    }
  }

  lemma {:induction false} WalkLastMapped(id: TransactionID, list: seq<Attribute>, fallback: AddrPort, i: nat)
    requires AllWellFormed(list) && i < |list| && Mapped(list[i], id)
    requires forall j | 0 <= j < |list| :: list[j].kind != ATTR_XOR_MAPPED_ADDRESS
    requires forall j | i < j < |list| :: !Mapped(list[j], id)
    ensures Walk(id, PrintAll(list), fallback) == AddressIn(list[i].value, id, false)
    decreases |list|
  {
    var a := list[0];
    DecodedIsValid(list[i].value, id, false);
    hide Walk, PrintAll, AddressIn;
    WalkStep(id, list, fallback);
    var mapped := AddressIn(a.value, id, false);
    if i > 0 {
      WalkLastMapped(id, list[1..], if Mapped(a, id) then mapped.value else fallback, i - 1);
    } else {
      WalkNoXor(id, list[1..], mapped.value);
    }
  }

  lemma DecodedIsValid(value: seq<byte>, id: TransactionID, xored: bool)
    requires AddressIn(value, id, xored).Success?
    ensures AddressIn(value, id, xored).value.IsValid()
  {}

  lemma ReplyIsWalked(id: TransactionID, list: seq<Attribute>, rest: seq<byte>)
    requires AllWellFormed(list) && |PrintAll(list)| < 0x1_0000
    ensures Answer(id, Reply(id, list, rest)) == Walk(id, PrintAll(list), NO_ENDPOINT)
  {
    var packet, body := Reply(id, list, rest), PrintAll(list);
    assert packet[0..2] == PutUint16(BINDING_SUCCESS);
    assert packet[2..4] == PutUint16(|body|);
    assert packet[4..8] == PutUint32(MAGIC_COOKIE);
    assert packet[8..20] == id;
    assert packet[20..20 + |body|] == body;
    Uint16Inverse(BINDING_SUCCESS, packet[0..2]);
    Uint16Inverse(|body|, packet[2..4]);
    Uint32Inverse(MAGIC_COOKIE, packet[4..8]);
    hide Walk, PrintAll, Uint16, Uint32, PutUint16, PutUint32;
  }

  // ----- what a printed reply is read as -----

  /** The first hidden address decides, and is an error if it cannot be read, whatever else there is. */
  lemma FirstXorDecides(id: TransactionID, list: seq<Attribute>, rest: seq<byte>, i: nat)
    requires AllWellFormed(list) && |PrintAll(list)| < 0x1_0000
    requires i < |list| && list[i].kind == ATTR_XOR_MAPPED_ADDRESS
    requires forall j | 0 <= j < i :: list[j].kind != ATTR_XOR_MAPPED_ADDRESS
    ensures Answer(id, Reply(id, list, rest)) == AddressIn(list[i].value, id, true)
  {
    ReplyIsWalked(id, list, rest);
    WalkFirstXor(id, list, NO_ENDPOINT, i);
  }

  /** Without one, the last plain address that can be read. */
  lemma LastMappedDecides(id: TransactionID, list: seq<Attribute>, rest: seq<byte>, i: nat)
    requires AllWellFormed(list) && |PrintAll(list)| < 0x1_0000
    requires forall j | 0 <= j < |list| :: list[j].kind != ATTR_XOR_MAPPED_ADDRESS
    requires i < |list| && Mapped(list[i], id) && forall j | i < j < |list| :: !Mapped(list[j], id)
    ensures Answer(id, Reply(id, list, rest)) == AddressIn(list[i].value, id, false)
  {
    ReplyIsWalked(id, list, rest);
    WalkLastMapped(id, list, NO_ENDPOINT, i);
  }

  /** Without either, an error. */
  lemma NoAddressFails(id: TransactionID, list: seq<Attribute>, rest: seq<byte>)
    requires AllWellFormed(list) && |PrintAll(list)| < 0x1_0000
    requires forall j | 0 <= j < |list| :: list[j].kind != ATTR_XOR_MAPPED_ADDRESS && !Mapped(list[j], id)
    ensures Answer(id, Reply(id, list, rest)) == Failure(ErrNoAddress)
  {
    ReplyIsWalked(id, list, rest);
    WalkNoXor(id, list, NO_ENDPOINT);
  }

  // ----- one socket, two protocols -----

  /** No packet of the mesh is taken for STUN. */
  lemma PacketsAreNotStun(h: Transport.Header, payload: seq<byte>)
    ensures !Looks(h.Encode([], payload))
  {
    assert h.Encode([], payload)[0] == PutUint16(Transport.MAGIC)[0];
  }

  /** A request is taken for STUN, and not for a packet of the mesh. */
  lemma RequestsAreNotPackets(id: TransactionID)
    ensures Looks(NewRequest(id))
    ensures Transport.Decode(NewRequest(id)) == Failure(Transport.ErrBadMagic)
  {
    var packet := NewRequest(id);
    assert packet[0] == packet[0..2][0];
    assert Uint16(packet[0..2]) == BINDING_REQUEST;
  }

  /** Nothing at all is both: what looks like STUN does not decode as a packet. */
  lemma NeverBoth(packet: seq<byte>)
    ensures !(Looks(packet) && Transport.Decode(packet).Success?)
  {
    if Looks(packet) {
      assert packet[0..2][0] == packet[0];
    }
  }

  /** A reply to another request is refused, whoever sent it. */
  lemma OtherRepliesAreRefused(id: TransactionID, other: TransactionID, list: seq<Attribute>, rest: seq<byte>)
    requires AllWellFormed(list) && |PrintAll(list)| < 0x1_0000 && id != other
    ensures Answer(id, Reply(other, list, rest)) == Failure(ErrOtherRequest)
  {
    var packet := Reply(other, list, rest);
    assert packet[0..2] == PutUint16(BINDING_SUCCESS) && packet[4..8] == PutUint32(MAGIC_COOKIE);
    assert packet[8..20] == other;
    Uint16Inverse(BINDING_SUCCESS, packet[0..2]);
    Uint32Inverse(MAGIC_COOKIE, packet[4..8]);
    hide Walk, PrintAll;
  }

  /** Byte for byte, in this order: what is no STUN, what is no success, and what is cut short is refused. */
  lemma MalformedIsRefused(id: TransactionID, packet: seq<byte>)
    ensures
      var cookie: seq<byte> := [0x21, 0x12, 0xa4, 0x42];
      var looks := |packet| >= 20 && packet[0] < 0x40 && packet[4..8] == cookie;
      && (Answer(id, packet) == Failure(ErrNotSTUN) <==> !looks)
      && (looks && (packet[0] != 1 || packet[1] != 1) ==>
            Answer(id, packet) == Failure(ErrMessageType(packet[0] as int * 256 + packet[1])))
      && ((looks && packet[0] == 1 && packet[1] == 1 && packet[8..20] == id &&
           20 + packet[2] as int * 256 + packet[3] > |packet|) ==> Answer(id, packet) == Failure(ErrShorterThanClaimed))
  {
    hide Walk;
    if |packet| >= 20 {
      CookieBytes(packet[4..8]);
      assert packet[0..2][0] == packet[0] && packet[0..2][1] == packet[1];
      assert packet[2..4][0] == packet[2] && packet[2..4][1] == packet[3];
      if Looks(packet) && Uint16(packet[0..2]) == BINDING_SUCCESS && packet[8..20] == id {
        WalkKnowsSTUN(id, packet);
      }
    }
  }

  lemma CookieBytes(b: seq<byte>)
    requires |b| == 4
    ensures Uint32(b) == MAGIC_COOKIE <==> b == [0x21, 0x12, 0xa4, 0x42]
  {
    Uint32Inverse(MAGIC_COOKIE, b);
    assert PutUint32(MAGIC_COOKIE) == [0x21, 0x12, 0xa4, 0x42];
  }

  /** Nothing that is wrong inside a message is taken for no message at all. */
  lemma {:induction false} WalkRefuses(id: TransactionID, body: seq<byte>, fallback: AddrPort)
    ensures Walk(id, body, fallback) != Failure(ErrNotSTUN)
    decreases |body|
  {
    if |body| >= 4 {
      var kind, size: nat := Uint16(body[0..2]), Uint16(body[2..4]);
      var advance := 4 + size + Padding(size);
      if 4 + size <= |body| && kind != ATTR_XOR_MAPPED_ADDRESS && advance <= |body| {
        var mapped := AddressIn(body[4..4 + size], id, false);
        WalkRefuses(id, body[advance..],
                    if kind == ATTR_MAPPED_ADDRESS && mapped.Success? then mapped.value else fallback);
      }
    }
  }

  lemma WalkKnowsSTUN(id: TransactionID, packet: seq<byte>)
    requires Looks(packet) && Uint16(packet[0..2]) == BINDING_SUCCESS && packet[8..20] == id
    ensures Answer(id, packet) != Failure(ErrNotSTUN)
  {
    hide Walk;
    var length: nat := Uint16(packet[2..4]);
    if HEADER_SIZE + length <= |packet| {
      WalkRefuses(id, packet[HEADER_SIZE..HEADER_SIZE + length], NO_ENDPOINT);
    }
  }

  /** Inside a reply: an attribute that runs past the end is refused, and so is an address that is cut short or of
      a family that is neither. */
  lemma MalformedInside(id: TransactionID, body: seq<byte>, fallback: AddrPort, xored: bool)
    ensures |body| >= 4 && 4 + body[2] as int * 256 + body[3] > |body| ==>
              Walk(id, body, fallback) == Failure(ErrAttributeOverruns)
    ensures |body| < 4 || (body[1] == 1 && |body| < 8) || (body[1] == 2 && |body| < 20) ==>
              AddressIn(body, id, xored) == Failure(ErrTooShort)
    ensures |body| >= 4 && body[1] != 1 && body[1] != 2 ==> AddressIn(body, id, xored) == Failure(ErrFamily(body[1]))
  {
    hide Xor16, XorBytes;
    if |body| >= 4 { assert body[2..4][0] == body[2] && body[2..4][1] == body[3]; }
  }
}
