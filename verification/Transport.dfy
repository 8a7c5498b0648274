/** The peer-to-peer wire format: one fixed envelope, and the payloads inside it. */
module Transport {
  import opened Bytes
  import opened Netip
  import opened Wrappers

  const MAGIC: uint16 := 0xC192
  const VERSION: byte := 1

  const MSG_PROBE: byte := 1
  const MSG_HANDSHAKE_INIT: byte := 2
  const MSG_HANDSHAKE_RESPONSE: byte := 3
  const MSG_KEEPALIVE: byte := 4
  const MSG_DATA: byte := 5
  const MSG_CLOSE: byte := 6
  const MSG_FORWARD: byte := 7

  const HEADER_SIZE := 20
  const AEAD_TAG_SIZE := 16
  const OVERHEAD := HEADER_SIZE + AEAD_TAG_SIZE
  const TUNNEL_MTU := 1400
  const MAX_PACKET_SIZE := TUNNEL_MTU + OVERHEAD
  const PING_SIZE := 9
  const FORWARD_HEADER_SIZE := 9
  const FORWARD_OVERHEAD := HEADER_SIZE + AEAD_TAG_SIZE + FORWARD_HEADER_SIZE
  const MAX_DATAGRAM_SIZE := MAX_PACKET_SIZE + FORWARD_OVERHEAD

  datatype DecodeError = ErrShortPacket | ErrBadMagic | UnsupportedVersion(version: byte)

  datatype PayloadError = ErrMalformedPayload

  datatype EncodeError = ErrDeviceIDTooLong | ErrKeyExchangeTooLong | ErrNotIPv4

  datatype Header = Header(version: byte, kind: byte, sender: uint64, counter: uint64) {
    /** Appends the envelope and the payload to `dst`. */
    function Encode(dst: seq<byte>, payload: seq<byte>): seq<byte> {
      dst + PutUint16(MAGIC) + [version, kind] + PutUint64(sender) + PutUint64(counter) + payload
    }
  }

  function Decode(pkt: seq<byte>): Result<(Header, seq<byte>), DecodeError> {
    if |pkt| < HEADER_SIZE then Failure(ErrShortPacket)
    else if Uint16(pkt[0..2]) != MAGIC then Failure(ErrBadMagic)
    else
      var h := Header(pkt[2], pkt[3], Uint64(pkt[4..12]), Uint64(pkt[12..20]));
      if h.version != VERSION then Failure(UnsupportedVersion(h.version))
      else Success((h, pkt[HEADER_SIZE..]))
  }

  /** Decode inverts Encode at the supported version and names any other version. */
  lemma DecodeInvertsEncode(h: Header, payload: seq<byte>)
    ensures Decode(h.Encode([], payload)) ==
            if h.version == VERSION then Success((h, payload)) else Failure(UnsupportedVersion(h.version))
  {
    var pkt := h.Encode([], payload);
    assert pkt[0..2] == PutUint16(MAGIC);
    assert pkt[4..12] == PutUint64(h.sender);
    assert pkt[12..20] == PutUint64(h.counter);
    assert pkt[HEADER_SIZE..] == payload;
    Uint64Inverse(h.sender, pkt[4..12]);
    Uint64Inverse(h.counter, pkt[12..20]);
  }

  /** A packet that decodes is exactly the encoding of what it decodes to. */
  lemma EncodeInvertsDecode(pkt: seq<byte>)
    requires Decode(pkt).Success?
    ensures Decode(pkt).value.0.version == VERSION
    ensures Decode(pkt).value.0.Encode([], Decode(pkt).value.1) == pkt
  {
    hide Uint16, PutUint16, Uint64, PutUint64;
    Uint16Inverse(MAGIC, pkt[0..2]);
    Uint64Inverse(0, pkt[4..12]);
    Uint64Inverse(0, pkt[12..20]);
    assert pkt == pkt[0..2] + [pkt[2], pkt[3]] + pkt[4..12] + pkt[12..20] + pkt[20..];
  }

  datatype Ping = Ping(token: uint64, reply: bool) {
    function Encode(dst: seq<byte>): seq<byte> {
      dst + PutUint64(token) + [if reply then 1 else 0]
    }
  }

  function DecodePing(payload: seq<byte>): Result<Ping, PayloadError> {
    if |payload| < PING_SIZE then Failure(ErrMalformedPayload)
    else Success(Ping(Uint64(payload[0..8]), payload[8] == 1))
  }

  lemma PingRoundTrip(p: Ping, more: seq<byte>)
    ensures DecodePing(p.Encode([]) + more) == Success(p)
  {
    assert (p.Encode([]) + more)[0..8] == PutUint64(p.token);
    Uint64Inverse(p.token, PutUint64(p.token));
  }

  datatype HandshakeInit = HandshakeInit(deviceID: seq<byte>, keyExchange: seq<byte>) {
    function Encode(dst: seq<byte>): Result<seq<byte>, EncodeError> {
      if |deviceID| > 255 then Failure(ErrDeviceIDTooLong)
      else if |keyExchange| > 65535 then Failure(ErrKeyExchangeTooLong)
      else Success(dst + [|deviceID|] + deviceID + PutUint16(|keyExchange|) + keyExchange)
    }
  }

  function DecodeHandshakeInit(payload: seq<byte>): Result<HandshakeInit, PayloadError> {
    if |payload| < 1 then Failure(ErrMalformedPayload)
    else
      var idLen: nat, rest := payload[0], payload[1..];
      if |rest| < idLen + 2 then Failure(ErrMalformedPayload)
      else
        var id, rest := rest[..idLen], rest[idLen..];
        var keyLen, rest := Uint16(rest[0..2]), rest[2..];
        if |rest| < keyLen then Failure(ErrMalformedPayload)
        else Success(HandshakeInit(id, rest[..keyLen]))
  }

  /** Decoding gives back what was encoded, and what follows the message is not read. */
  lemma HandshakeInitRoundTrip(h: HandshakeInit, more: seq<byte>)
    requires h.Encode([]).Success?
    ensures DecodeHandshakeInit(h.Encode([]).value + more) == Success(h)
  {
    var idLen, keyLen := |h.deviceID|, |h.keyExchange|;
    var payload := h.Encode([]).value + more;
    assert payload[1..][..idLen] == h.deviceID;
    assert payload[1..][idLen..][0..2] == PutUint16(keyLen);
    assert payload[1..][idLen..][2..][..keyLen] == h.keyExchange;
    Uint16Inverse(keyLen, PutUint16(keyLen));
  }

  /** No strict prefix of an encoded init is accepted. */
  lemma HandshakeInitTruncated(h: HandshakeInit, n: nat)
    requires h.Encode([]).Success? && n < |h.Encode([]).value|
    ensures DecodeHandshakeInit(h.Encode([]).value[..n]) == Failure(ErrMalformedPayload)
  {
    var idLen, keyLen := |h.deviceID|, |h.keyExchange|;
    var whole := h.Encode([]).value;
    var payload := whole[..n];
    if n > 0 {
      assert payload[0] == idLen;
    }
    if n >= idLen + 3 {
      assert whole[idLen + 1..idLen + 3] == PutUint16(keyLen);
      assert payload[1..][idLen..][0..2] == whole[idLen + 1..idLen + 3];
      Uint16Inverse(keyLen, PutUint16(keyLen));
    }
  }

  datatype HandshakeResponse = HandshakeResponse(keyExchange: seq<byte>) {
    function Encode(dst: seq<byte>): Result<seq<byte>, EncodeError> {
      if |keyExchange| > 65535 then Failure(ErrKeyExchangeTooLong)
      else Success(dst + PutUint16(|keyExchange|) + keyExchange)
    }
  }

  function DecodeHandshakeResponse(payload: seq<byte>): Result<HandshakeResponse, PayloadError> {
    if |payload| < 2 then Failure(ErrMalformedPayload)
    else
      var keyLen, rest := Uint16(payload[0..2]), payload[2..];
      if |rest| < keyLen then Failure(ErrMalformedPayload)
      else Success(HandshakeResponse(rest[..keyLen]))
  }

  lemma HandshakeResponseRoundTrip(h: HandshakeResponse, more: seq<byte>)
    requires h.Encode([]).Success?
    ensures DecodeHandshakeResponse(h.Encode([]).value + more) == Success(h)
  {
    var keyLen := |h.keyExchange|;
    var payload := h.Encode([]).value + more;
    assert payload[0..2] == PutUint16(keyLen);
    assert payload[2..][..keyLen] == h.keyExchange;
    Uint16Inverse(keyLen, PutUint16(keyLen));
  }

  lemma HandshakeResponseTruncated(h: HandshakeResponse, n: nat)
    requires h.Encode([]).Success? && n < |h.Encode([]).value|
    ensures DecodeHandshakeResponse(h.Encode([]).value[..n]) == Failure(ErrMalformedPayload)
  {
    var keyLen := |h.keyExchange|;
    if n >= 2 {
      assert h.Encode([]).value[..n][0..2] == PutUint16(keyLen);
      Uint16Inverse(keyLen, PutUint16(keyLen));
    }
  }

  datatype Forward = Forward(hopLimit: byte, source: Addr, destination: Addr, packet: seq<byte>) {
    function Encode(dst: seq<byte>): Result<seq<byte>, EncodeError> {
      if !source.V4? || !destination.V4? then Failure(ErrNotIPv4)
      else Success(dst + [hopLimit] + source.raw4 + destination.raw4 + packet)
    }
  }

  function DecodeForward(payload: seq<byte>): Result<Forward, PayloadError> {
    if |payload| < FORWARD_HEADER_SIZE + HEADER_SIZE then Failure(ErrMalformedPayload)
    else Success(Forward(payload[0], V4(payload[1..5]), V4(payload[5..9]), payload[FORWARD_HEADER_SIZE..]))
  }

  /** A forward round-trips exactly when it carries at least an envelope. */
  lemma ForwardRoundTrip(f: Forward)
    requires f.Encode([]).Success?
    ensures DecodeForward(f.Encode([]).value) ==
            if |f.packet| >= HEADER_SIZE then Success(f) else Failure(ErrMalformedPayload)
  {
    var payload := f.Encode([]).value;
    if |f.packet| >= HEADER_SIZE {
      assert payload[1..5] == f.source.raw4;
      assert payload[5..9] == f.destination.raw4;
      assert payload[FORWARD_HEADER_SIZE..] == f.packet;
    }
  }

  lemma EncodeForwardInvertsDecode(payload: seq<byte>)
    requires DecodeForward(payload).Success?
    ensures DecodeForward(payload).value.Encode([]) == Success(payload)
  {
    var f := DecodeForward(payload).value;
    assert payload == [] + [f.hopLimit] + f.source.raw4 + f.destination.raw4 + f.packet;
  }

  // ----- what is refused -----

  /** What is too short for an envelope, and what does not begin with its two bytes. */
  lemma DecodeRefuses(pkt: seq<byte>)
    ensures Decode(pkt) == Failure(ErrShortPacket) <==> |pkt| < 20
    ensures Decode(pkt) == Failure(ErrBadMagic) <==> |pkt| >= 20 && (pkt[0] != 0xC1 || pkt[1] != 0x92)
    ensures |pkt| >= 20 && pkt[0] == 0xC1 && pkt[1] == 0x92 && pkt[2] != 1 ==>
              Decode(pkt) == Failure(UnsupportedVersion(pkt[2]))
  {
    if |pkt| >= 20 { assert pkt[0..2][0] == pkt[0] && pkt[0..2][1] == pkt[1]; }
  }

  /** What does not fit its length field is not encoded, and everything else is. */
  lemma EncodeRefuses(init: HandshakeInit, response: HandshakeResponse, f: Forward, dst: seq<byte>)
    ensures init.Encode(dst) == Failure(ErrDeviceIDTooLong) <==> |init.deviceID| > 255
    ensures init.Encode(dst) == Failure(ErrKeyExchangeTooLong) <==>
            |init.deviceID| <= 255 && |init.keyExchange| > 65535
    ensures response.Encode(dst).Failure? <==> |response.keyExchange| > 65535
    ensures f.Encode(dst).Failure? <==> !f.source.V4? || !f.destination.V4?
  {}

  /** Only the byte 1 makes a ping a reply. */
  lemma OnlyOneIsReply(token: uint64, flag: byte)
    ensures DecodePing(PutUint64(token) + [flag]) == Success(Ping(token, flag == 1))
  {
    assert (PutUint64(token) + [flag])[0..8] == PutUint64(token);
    Uint64Inverse(token, PutUint64(token));
  }
}
