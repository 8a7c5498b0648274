/** What travels between daemons: an envelope in the clear around a symbolic body. */
module Packets {
  import opened Netip
  import opened Session
  import Transport

  type Header = Transport.Header

  /** A ciphertext: a plaintext as one end of a session sealed it, under a header and a counter. */
  type Text = Sealed<Header, Plain>

  /** A body that its message type can decode, or a ciphertext. */
  datatype Body =
    | PingBody(token: uint64, reply: bool)
    | InitBody(device: DeviceId, init: Init)
    | ResponseBody(response: Response)
    | SealedBody(text: Text)
    | NoBody

  datatype Packet = Packet(header: Header, body: Body)

  /** A forward payload: one peer's whole packet on its way to another through a third. */
  datatype Carried = Carried(hopLimit: byte, source: Addr, destination: Addr, packet: Packet)

  datatype Plain = IPPacket(bytes: seq<byte>) | Forwarded(carried: Carried)

  datatype Datagram = Datagram(to: AddrPort, packet: Packet)

  function Envelope(kind: byte, sender: uint64, counter: uint64, body: Body): Packet {
    Packet(Transport.Header(Transport.VERSION, kind, sender, counter), body)
  }

  /** The text that an end of a session makes of a plaintext, with the envelope in the clear as its header. */
  function SealedText(s: Session, kind: byte, sender: uint64, counter: uint64, plain: Plain): Text {
    Seal(s, Transport.Header(Transport.VERSION, kind, sender, counter), plain, counter)
  }

  function SealedPacket(s: Session, kind: byte, sender: uint64, counter: uint64, plain: Plain): Packet {
    Packet(Transport.Header(Transport.VERSION, kind, sender, counter),
           SealedBody(SealedText(s, kind, sender, counter, plain)))
  }

  /** A forward that wraps a forward. */
  predicate Nested(p: Packet) {
    && p.body.SealedBody? && p.body.text.plain.Forwarded?
    && p.body.text.plain.carried.packet.header.kind == Transport.MSG_FORWARD
  }

  /** Something that appears in a packet and that only its maker could have made. */
  datatype Atom = InitAtom(init: Init) | ResponseAtom(response: Response) | SealedAtom(text: Text)

  /** Every handshake message and every ciphertext in a packet, at any depth of forwarding. */
  function Atoms(p: Packet): set<Atom> {
    match p.body
    case InitBody(_, i) => {InitAtom(i)}
    case ResponseBody(r) => {ResponseAtom(r)}
    case SealedBody(text) =>
      {SealedAtom(text)} + (match text.plain case IPPacket(_) => {} case Forwarded(c) => Atoms(c.packet))
    case _ => {}
  }
}
