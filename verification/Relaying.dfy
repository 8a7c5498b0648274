/** Carrying a packet for somebody else: it ends, it fits, and it delivers what a direct link would. */
module Relaying {
  import opened Handlers
  import opened Netip
  import opened Nodes
  import opened Packets
  import opened Peers
  import opened Replay
  import opened Session
  import opened Wrappers
  import L = PeerRuns
  import T = Transport

  // ----- forwarding ends -----

  /** What a packet carries for somebody else. */
  ghost function CarriedIn(p: Packet): Option<Carried> {
    if p.body.SealedBody? && p.body.text.plain.Forwarded? then Some(p.body.text.plain.carried) else None
  }

  /** What a daemon may send on of what it was asked to carry: the same packet, with one hop fewer, over
      another link than the one it came by. */
  ghost predicate SentOn(s: Node, from: AddrPort, carried: Carried, d: Datagram)
    requires s.Inv()
  {
    && carried.hopLimit > 0
    && d.packet.header.kind == T.MSG_FORWARD
    && CarriedIn(d.packet) == Some(carried.(hopLimit := carried.hopLimit - 1))
    && carried.destination in s.byIP && PeerAt(s, from) != s.byIP[carried.destination]
    && d.to == s.links[s.byIP[carried.destination]].endpoint
  }

  /** A daemon that is not the destination sends a forwarded packet on at most once, and hands nothing up. */
  lemma PassingOnSpendsAHop(s: Node, packet: Packet, from: AddrPort, env: Env, carried: Carried)
    requires s.Inv() && packet.header.kind == T.MSG_FORWARD
    requires CarriedIn(packet) == Some(carried) && carried.destination != s.virtualIP
    ensures
      var r := Receive(s, packet, from, env);
      && r.inbound == s.inbound
      && (r.wire == s.wire ||
          (|r.wire| == |s.wire| + 1 && r.wire[..|s.wire|] == s.wire && SentOn(s, from, carried, r.wire[|s.wire|])))
  {
    hide Handlers.Dispatch, Handlers.HandleProbe, Handlers.DeliverForwarded, Handlers.Accept, Handlers.PassOn, SentOn;
    hide Node.Inv;
    var heard := Hear(s, packet);
    var relay := PeerAt(s, from);
    if packet.header.version == T.VERSION && relay != null {
      var (after, plain) := Accept(heard, relay, packet, env);
      if plain.Success? {
        AcceptedKeeps(heard, relay, packet, env);
        PassOnSendsOn(after, carried, relay, from);
        SentOnAgain(s, after, from, carried);
      }
    }
  }

  /** Opening a packet moves no table and no address, and opens what is in it. */
  lemma AcceptedKeeps(s: Node, peer: Peer, packet: Packet, env: Env)
    requires s.Inv() && peer in s.links && Accept(s, peer, packet, env).1.Success?
    ensures
      var (r, plain) := Accept(s, peer, packet, env);
      && r == s.(links := r.links, log := r.log) && Ends(r.links) == Ends(s.links)
      && packet.body.SealedBody? && packet.body.text.plain == plain.value
  {
    hide Node.Inv;
  }

  lemma PassOnSendsOn(s: Node, carried: Carried, origin: Peer, from: AddrPort)
    requires s.Inv() && PeerAt(s, from) == origin
    ensures
      var r := PassOn(s, carried, origin);
      && r.inbound == s.inbound
      && (r.wire == s.wire ||
          (|r.wire| == |s.wire| + 1 && r.wire[..|s.wire|] == s.wire && SentOn(s, from, carried, r.wire[|s.wire|])))
  {
    hide Node.Inv;
  }

  /** The same tables and addresses send on the same datagrams. */
  lemma SentOnAgain(s: Node, r: Node, from: AddrPort, carried: Carried)
    requires s.Inv() && r.Inv() && r.byIP == s.byIP && r.byUDP == s.byUDP && Ends(r.links) == Ends(s.links)
    ensures forall d | SentOn(r, from, carried, d) :: SentOn(s, from, carried, d)
  {
    assert carried.destination in s.byIP ==>
        var p := s.byIP[carried.destination];
        Ends(r.links)[p] == r.links[p].endpoint && Ends(s.links)[p] == s.links[p].endpoint;
  }

  /** One relay's turn: the daemon as it was, and the address it saw the packet come from. */
  datatype Hop = Hop(node: Node, from: AddrPort, env: Env)

  /** The k-th daemon on the way receives what the one before it sent, and passes it on. */
  ghost predicate Passes(packet: Packet, hops: seq<Hop>, sent: seq<Datagram>, k: nat)
    requires k < |hops| == |sent|
  {
    var arriving := if k == 0 then packet else sent[k - 1].packet;
    && hops[k].node.Inv()
    && CarriedIn(arriving).Some? && CarriedIn(arriving).value.destination != hops[k].node.virtualIP
    && Receive(hops[k].node, arriving, hops[k].from, hops[k].env).wire == hops[k].node.wire + [sent[k]]
  }

  /** A packet passed on from daemon to daemon, each over whatever its own tables say. */
  ghost predicate Chain(packet: Packet, hops: seq<Hop>, sent: seq<Datagram>) {
    |sent| == |hops| && forall k | 0 <= k < |hops| :: Passes(packet, hops, sent, k)
  }

  lemma ShorterChain(packet: Packet, hops: seq<Hop>, sent: seq<Datagram>, n: nat)
    requires Chain(packet, hops, sent) && n <= |hops|
    ensures Chain(packet, hops[..n], sent[..n])
  {
    hide Handlers.Receive, Node.Inv, CarriedIn;
    forall k | 0 <= k < n ensures Passes(packet, hops[..n], sent[..n], k) {
      assert Passes(packet, hops, sent, k);
    }
  }

  /** Over any topology and any tables, a packet carried with hop limit h is passed on at most h
      times, and what it wraps is the same at every hop. */
  lemma {:induction false} ForwardingEnds(packet: Packet, carried: Carried, hops: seq<Hop>, sent: seq<Datagram>)
    requires packet.header.kind == T.MSG_FORWARD && CarriedIn(packet) == Some(carried)
    requires Chain(packet, hops, sent)
    ensures |hops| <= carried.hopLimit
    ensures forall k | 0 <= k < |sent| ::
              sent[k].packet.header.kind == T.MSG_FORWARD &&
              CarriedIn(sent[k].packet) == Some(carried.(hopLimit := carried.hopLimit - k - 1))
    decreases |hops|
  {
    hide Handlers.Receive, Node.Inv, CarriedIn;
    if hops != [] {
      var last := |hops| - 1;
      ShorterChain(packet, hops, sent, last);
      ForwardingEnds(packet, carried, hops[..last], sent[..last]);
      assert Passes(packet, hops, sent, last);
      var arriving := if last == 0 then packet else sent[last - 1].packet;
      assert last > 0 ==> sent[..last][last - 1] == sent[last - 1];
      var hop := hops[last];
      PassingOnSpendsAHop(hop.node, arriving, hop.from, hop.env, carried.(hopLimit := carried.hopLimit - last));
      forall k | 0 <= k < |sent|
        ensures sent[k].packet.header.kind == T.MSG_FORWARD
        ensures CarriedIn(sent[k].packet) == Some(carried.(hopLimit := carried.hopLimit - k - 1))
      {
        if k < last { assert sent[..last][k] == sent[k]; }
      }
    }
  }

  /** What one daemon puts on the wire to deliver a packet of its own: the packet, or a forward with
      one hop to spend that wraps it. */
  lemma DeliverWrapsOnce(s: Node, peer: Peer, packet: Packet)
    requires s.Inv() && peer in s.links
    ensures
      var (r, err) := Deliver(s, peer, packet);
      if err.Some? then r.wire == s.wire
      else
        && |r.wire| == |s.wire| + 1 && r.wire[..|s.wire|] == s.wire
        && var d := r.wire[|s.wire|];
           if s.links[peer].via == null then d == Datagram(s.links[peer].endpoint, packet)
           else s.virtualIP.V4? && peer.virtualIP.V4? && d.to == s.links[s.links[peer].via].endpoint &&
                d.packet.header.kind == T.MSG_FORWARD &&
                CarriedIn(d.packet) == Some(Carried(INITIAL_HOP_LIMIT, s.virtualIP, peer.virtualIP, packet))
  {
    hide Node.Inv;
  }

  // ----- what travels fits a datagram -----

  /** What encryption makes of a plaintext's bytes: so much longer, and nothing else is said of it. */
  type Cipher = (Text, seq<byte>) -> seq<byte>

  ghost predicate Expands(cipher: Cipher) {
    forall text, bytes :: |cipher(text, bytes)| == |bytes| + T.AEAD_TAG_SIZE
  }

  /** The bytes of a packet that carries IP traffic, directly or inside forwards: the envelope in the clear,
      and under encryption the IP packet itself or a forward payload with the carried packet's bytes. */
  function Encoded(p: Packet, cipher: Cipher): Option<seq<byte>> {
    if !p.body.SealedBody? then None
    else
      match EncodedPlain(p.body.text.plain, cipher)
      case None => None
      case Some(bytes) => Some(p.header.Encode([], cipher(p.body.text, bytes)))
  }

  function EncodedPlain(plain: Plain, cipher: Cipher): Option<seq<byte>> {
    match plain
    case IPPacket(bytes) => Some(bytes)
    case Forwarded(c) =>
      match Encoded(c.packet, cipher)
      case None => None
      case Some(inner) =>
        match T.Forward(c.hopLimit, c.source, c.destination, inner).Encode([])
        case Failure(_) => None
        case Success(bytes) => Some(bytes)
  }

  /** Everything an IP packet that fits the tunnel becomes on its way fits a datagram, byte for byte. */
  lemma DataFits(s: Node, peer: Peer, ip: seq<byte>, cipher: Cipher)
    requires s.Inv() && peer in s.links && |ip| <= 1400 && SendData(s, peer, ip).1.None?
    requires Expands(cipher)
    ensures
      var wire := SendData(s, peer, ip).0.wire;
      && |wire| == |s.wire| + 1
      && var bytes := Encoded(wire[|s.wire|].packet, cipher);
         bytes.Some? && |bytes.value| <= if s.links[peer].via == null then 1436 else 1481
  {
    hide Handlers.Deliver, Node.Inv, L.After, L.Reached;
    var l := s.links[peer];
    var text := SealedText(l.session.value, T.MSG_DATA, peer.sender, l.counter, IPPacket(ip));
    var counted := s.Do(peer, L.Seal(text));
    CountedKeepsPath(l, text);
    DeliverWrapsOnce(counted, peer, Packet(text.header, SealedBody(text)));
    SizeOf(Packet(text.header, SealedBody(text)), SendData(s, peer, ip).0.wire[|s.wire|].packet, ip, cipher);
  }

  lemma CountedKeepsPath(l: Link, text: Text)
    ensures L.After(l, L.Seal(text)).via == l.via
  {
    hide Link.Consistent;
  }

  /** A data packet, or a forward that wraps it, in bytes. */
  lemma SizeOf(packet: Packet, sent: Packet, ip: seq<byte>, cipher: Cipher)
    requires packet.body.SealedBody? && packet.body.text.plain == IPPacket(ip) && Expands(cipher)
    requires
      || sent == packet
      || (CarriedIn(sent).Some? && CarriedIn(sent).value.packet == packet &&
          CarriedIn(sent).value.source.V4? && CarriedIn(sent).value.destination.V4?)
    ensures Encoded(sent, cipher).Some?
    ensures |Encoded(sent, cipher).value| == |ip| + T.OVERHEAD + if sent == packet then 0 else T.FORWARD_OVERHEAD
  {
    assert Encoded(packet, cipher) == Some(packet.header.Encode([], cipher(packet.body.text, ip)));
    assert |Encoded(packet, cipher).value| == |ip| + T.OVERHEAD;
  }

  /** Passing on does not change the size. */
  lemma PassingOnKeepsSize(p: Packet, q: Packet, c: Carried, h: byte, cipher: Cipher)
    requires CarriedIn(p) == Some(c) && CarriedIn(q) == Some(c.(hopLimit := h)) && Expands(cipher)
    ensures Encoded(p, cipher).Some? <==> Encoded(q, cipher).Some?
    ensures Encoded(p, cipher).Some? ==> |Encoded(q, cipher).value| == |Encoded(p, cipher).value|
  {}

  // ----- a relayed link delivers what a direct one would -----

  /** Three daemons: a's link to c runs through b, and each hop's session is open at both ends with
      the next counter still acceptable. Peers are named for who they are and where. */
  datatype Path = Path(
    a: Node, b: Node, c: Node,
    bAtA: Peer, cAtA: Peer,
    aAtB: Peer, cAtB: Peer,
    aAtC: Peer, bAtC: Peer,
    fromA: AddrPort, fromB: AddrPort)
  {
    ghost predicate Open() {
      && a.Inv() && b.Inv() && c.Inv()
      && bAtA in a.links && cAtA in a.links && bAtA != cAtA && cAtA.virtualIP == c.virtualIP
      && a.virtualIP.V4? && c.virtualIP.V4? && b.virtualIP != c.virtualIP
      && a.links[cAtA].via == bAtA && a.links[cAtA].session.Some?
      && a.links[bAtA].session.Some? && a.links[bAtA].endpoint.IsValid()
      && aAtB in b.links && fromA in b.byUDP && b.byUDP[fromA] == aAtB
      && b.links[aAtB].session == Some(a.links[bAtA].session.value.OtherEnd())
      && Admits(b.links[aAtB].replay, a.links[bAtA].counter)
      && c.virtualIP in b.byIP && b.byIP[c.virtualIP] == cAtB && cAtB != aAtB && cAtB in b.links
      && b.links[cAtB].state == Direct && b.links[cAtB].session.Some? && b.links[cAtB].endpoint.IsValid()
      && bAtC in c.links && fromB in c.byUDP && c.byUDP[fromB] == bAtC
      && c.links[bAtC].session == Some(b.links[cAtB].session.value.OtherEnd())
      && Admits(c.links[bAtC].replay, b.links[cAtB].counter)
      && aAtC in c.links && a.virtualIP in c.byIP && c.byIP[a.virtualIP] == aAtC && aAtC != bAtC
      && c.links[aAtC].session == Some(a.links[cAtA].session.value.OtherEnd())
      && Admits(c.links[aAtC].replay, a.links[cAtA].counter)
    }

    /** The data packet a seals for c. On a direct link it is the datagram itself. */
    ghost function Sealed(ip: seq<byte>): Packet
      requires cAtA in a.links && a.links[cAtA].session.Some?
    {
      SealedPacket(a.links[cAtA].session.value, T.MSG_DATA, cAtA.sender, a.links[cAtA].counter, IPPacket(ip))
    }

    /** What a sends b, and what b sends c. */
    ghost function FirstHop(ip: seq<byte>): Packet
      requires cAtA in a.links && a.links[cAtA].session.Some?
      requires bAtA in a.links && a.links[bAtA].session.Some?
    {
      SealedPacket(a.links[bAtA].session.value, T.MSG_FORWARD, bAtA.sender, a.links[bAtA].counter,
                   Forwarded(Inner(ip, INITIAL_HOP_LIMIT)))
    }

    ghost function SecondHop(ip: seq<byte>): Packet
      requires cAtA in a.links && a.links[cAtA].session.Some?
      requires cAtB in b.links && b.links[cAtB].session.Some?
    {
      SealedPacket(b.links[cAtB].session.value, T.MSG_FORWARD, cAtB.sender, b.links[cAtB].counter,
                   Forwarded(Inner(ip, INITIAL_HOP_LIMIT - 1)))
    }

    ghost function Inner(ip: seq<byte>, hops: byte): Carried
      requires cAtA in a.links && a.links[cAtA].session.Some?
    {
      Carried(hops, a.virtualIP, c.virtualIP, Sealed(ip))
    }
  }

  /** A packet sealed by the other end, with a counter still acceptable, opens. */
  lemma OtherEndOpens(s: Node, peer: Peer, theirs: Session, kind: byte, sender: uint64, counter: uint64, plain: Plain,
                      env: Env)
    requires s.Inv() && peer in s.links
    requires s.links[peer].session == Some(theirs.OtherEnd()) && Admits(s.links[peer].replay, counter)
    ensures
      var text := SealedText(theirs, kind, sender, counter, plain);
      && L.Allowed(s.links[peer], L.Accept(text, env.now))
      && Accept(s, peer, SealedPacket(theirs, kind, sender, counter, plain), env) ==
         (s.Do(peer, L.Accept(text, env.now)), Success(plain))
  {
    hide Node.Inv, Link.Consistent;
    assert theirs.OtherEnd().OtherEnd() == theirs;
  }

  /** And what accepting it does to the link. */
  lemma AcceptedLink(l: Link, theirs: Session, kind: byte, sender: uint64, counter: uint64, plain: Plain, now: Time)
    requires l.session == Some(theirs.OtherEnd()) && Admits(l.replay, counter)
    ensures
      var text := SealedText(theirs, kind, sender, counter, plain);
      && L.Allowed(l, L.Accept(text, now))
      && L.After(l, L.Accept(text, now)) == l.(replay := Slide(l.replay, counter), lastHeard := Some(now))
  {
    hide Link.Consistent;
    assert theirs.OtherEnd().OtherEnd() == theirs;
  }

  /** The sender wraps its data packet and hands it to the relay. */
  lemma SenderWraps(p: Path, ip: seq<byte>)
    requires p.Open()
    ensures
      var (r, err) := SendData(p.a, p.cAtA, ip);
      err.None? && r.wire == p.a.wire + [Datagram(p.a.links[p.bAtA].endpoint, p.FirstHop(ip))]
  {
    hide Node.Steady, Admits, L.Reached, L.Of, Link.Consistent, L.Allowed;
    var l := p.a.links[p.cAtA];
    var text := SealedText(l.session.value, T.MSG_DATA, p.cAtA.sender, l.counter, IPPacket(ip));
    SealAllowed(l, text);
    OthersStay(p.a, p.cAtA, L.Seal(text), p.bAtA);
  }

  lemma SealAllowed(l: Link, text: Text)
    requires l.session == Some(text.session) && text.counter == text.header.counter == l.counter
    ensures L.Allowed(l, L.Seal(text)) && L.After(l, L.Seal(text)).via == l.via
  {
    hide Link.Consistent;
  }

  lemma OthersStay(s: Node, p: Peer, e: L.Op, q: Peer)
    requires s.Inv() && p in s.links && q in s.links && p != q && L.Allowed(s.links[p], e) && e.Seal?
    ensures s.Do(p, e).links[q] == s.links[q]
  {
    hide Node.Inv, Node.Steady, L.Allowed, L.After;
  }

  lemma PassOnWrites(s: Node, carried: Carried, origin: Peer)
    requires s.Inv() && origin in s.links
    requires carried.hopLimit > 0 && carried.source.V4? && carried.destination.V4?
    requires carried.destination in s.byIP && s.byIP[carried.destination] != origin
    requires
      var l := s.links[s.byIP[carried.destination]];
      l.state == Direct && l.session.Some? && l.endpoint.IsValid()
    ensures
      var target := s.byIP[carried.destination];
      var l := s.links[target];
      PassOn(s, carried, origin).wire == s.wire + [Datagram(l.endpoint,
        SealedPacket(l.session.value, T.MSG_FORWARD, target.sender, l.counter,
                     Forwarded(carried.(hopLimit := carried.hopLimit - 1))))]
  {
    hide Node.Steady, Node.Grows;
  }

  /** The daemon that receives a packet has heard what is in it, and accepted it from a peer. */
  ghost function Opened(s: Node, peer: Peer, packet: Packet, env: Env): (r: Node)
    requires s.Inv() && peer in s.links && packet.body.SealedBody?
    requires L.Allowed(s.links[peer], L.Accept(packet.body.text, env.now))
    ensures r.Inv()
  {
    hide Node.Inv, L.Allowed;
    Hear(s, packet).Do(peer, L.Accept(packet.body.text, env.now))
  }

  /** A forward from the other end of a session is delivered or passed on, by its destination. */
  lemma ForwardIsHandled(s: Node, from: AddrPort, theirs: Session, sender: uint64, counter: uint64,
                         carried: Carried, env: Env)
    requires s.Inv() && from in s.byUDP
    requires s.links[s.byUDP[from]].session == Some(theirs.OtherEnd())
    requires Admits(s.links[s.byUDP[from]].replay, counter)
    ensures
      var peer := s.byUDP[from];
      var packet := SealedPacket(theirs, T.MSG_FORWARD, sender, counter, Forwarded(carried));
      && peer in s.links && L.Allowed(s.links[peer], L.Accept(packet.body.text, env.now))
      && var r := Opened(s, peer, packet, env);
         && r == s.(heard := r.heard, links := r.links, log := r.log)
         && r.links == s.links[peer := L.After(s.links[peer], L.Accept(packet.body.text, env.now))]
         && Receive(s, packet, from, env) ==
            if carried.destination == s.virtualIP then DeliverForwarded(r, carried, peer, env)
            else PassOn(r, carried, peer)
  {
    hide Handlers.Dispatch, Handlers.HandleProbe, Handlers.DeliverForwarded, Handlers.PassOn, Handlers.Accept;
    hide Admits, Slide, Node.Steady, Node.Grows, Link.Consistent, L.Reached, L.Of, L.Allowed, L.After;
    var packet := SealedPacket(theirs, T.MSG_FORWARD, sender, counter, Forwarded(carried));
    assert s.byUDP[from] in s.links;
    OtherEndOpens(s, s.byUDP[from], theirs, T.MSG_FORWARD, sender, counter, Forwarded(carried), env);
    OtherEndOpens(Hear(s, packet), s.byUDP[from], theirs, T.MSG_FORWARD, sender, counter, Forwarded(carried), env);
  }

  /** A daemon passes on whatever a peer asks it to carry, a forward too, so long as a hop is left and the
      destination is another peer on an open direct link. */
  lemma CarriesAnything(s: Node, from: AddrPort, theirs: Session, sender: uint64, counter: uint64, carried: Carried,
                        env: Env)
    requires s.Inv() && from in s.byUDP && s.byUDP[from] in s.links
    requires s.links[s.byUDP[from]].session == Some(theirs.OtherEnd())
    requires Admits(s.links[s.byUDP[from]].replay, counter)
    requires carried.hopLimit > 0 && carried.source.V4? && carried.destination.V4? && carried.destination != s.virtualIP
    requires carried.destination in s.byIP && s.byIP[carried.destination] != s.byUDP[from]
    requires s.byIP[carried.destination] in s.links
    requires
      var l := s.links[s.byIP[carried.destination]];
      l.state == Direct && l.session.Some? && l.endpoint.IsValid()
    ensures
      var target := s.byIP[carried.destination];
      var l := s.links[target];
      Receive(s, SealedPacket(theirs, T.MSG_FORWARD, sender, counter, Forwarded(carried)), from, env).wire ==
        s.wire + [Datagram(l.endpoint, SealedPacket(l.session.value, T.MSG_FORWARD, target.sender, l.counter,
                                                    Forwarded(carried.(hopLimit := carried.hopLimit - 1))))]
  {
    hide Handlers.Receive, Handlers.PassOn, Handlers.DeliverForwarded, Admits, Slide, Opened, L.After, L.Allowed;
    hide Node.Inv;
    ForwardIsHandled(s, from, theirs, sender, counter, carried, env);
    var packet := SealedPacket(theirs, T.MSG_FORWARD, sender, counter, Forwarded(carried));
    PassOnWrites(Opened(s, s.byUDP[from], packet, env), carried, s.byUDP[from]);
  }

  /** The relay opens the hop, finds the destination on a direct link, and seals the next hop. */
  lemma RelayPasses(p: Path, ip: seq<byte>, env: Env)
    requires p.Open()
    ensures Receive(p.b, p.FirstHop(ip), p.fromA, env).wire ==
            p.b.wire + [Datagram(p.b.links[p.cAtB].endpoint, p.SecondHop(ip))]
  {
    hide Handlers.Receive, Handlers.PassOn, Handlers.DeliverForwarded, Admits, Slide, Opened, L.After, L.Allowed;
    hide Node.Inv;
    var hop, carried := p.a.links[p.bAtA], p.Inner(ip, INITIAL_HOP_LIMIT);
    CarriesAnything(p.b, p.fromA, hop.session.value, p.bAtA.sender, hop.counter, carried, env);
  }

  /** c's link with a after it has accepted the data packet, by whatever way it came. */
  ghost function Accepted(p: Path, now: Time): Link
    requires p.Open()
  {
    var l := p.c.links[p.aAtC];
    l.(replay := Slide(l.replay, p.a.links[p.cAtA].counter), lastHeard := Some(now))
  }

  /** A daemon but for the record of its run. */
  ghost function Plainly(s: Node): Node {
    s.(log := [], heard := {}, openings := {}, queued := [], drawn := [])
  }

  /** A plaintext on the queue, if there is room. */
  function Queue(inbound: seq<Plain>, plain: Plain): seq<Plain> {
    if |inbound| < INBOUND_CAPACITY then inbound + [plain] else inbound
  }

  /** Data opened from the other end of a session is queued, and moves the link if it was relayed. */
  lemma DataIsQueued(s: Node, peer: Peer, relay: Peer?, addr: AddrPort, theirs: Session, sender: uint64,
                     counter: uint64, ip: seq<byte>, env: Env)
    requires s.Inv() && KnownSource(s, Source(addr, peer, relay))
    requires s.links[peer].session == Some(theirs.OtherEnd()) && Admits(s.links[peer].replay, counter)
    ensures
      var l := s.links[peer].(replay := Slide(s.links[peer].replay, counter), lastHeard := Some(env.now));
      var packet := SealedPacket(theirs, T.MSG_DATA, sender, counter, IPPacket(ip));
      Plainly(Dispatch(s, packet, Source(addr, peer, relay), env)) ==
        Plainly(s).(inbound := Queue(s.inbound, IPPacket(ip)),
                    links := s.links[peer := if relay != null then l.AnswerVia(relay) else l])
  {
    hide Handlers.HandleInit, Handlers.HandleResponse, Handlers.HandleKeepalive, Handlers.HandleClose;
    hide Node.Grows, Node.Inv, Handlers.Accept, Admits, Slide, L.Allowed, Link.AnswerVia, Link.Accept;
    OtherEndOpens(s, peer, theirs, T.MSG_DATA, sender, counter, IPPacket(ip), env);
    AcceptedLink(s.links[peer], theirs, T.MSG_DATA, sender, counter, IPPacket(ip), env.now);
  }

  /** What c becomes when the packet came through b, and when it came from a itself. */
  ghost function AfterRelayed(p: Path, ip: seq<byte>, now: Time): Node
    requires p.Open()
  {
    hide Node.Inv, Admits, Link.Consistent;
    var l := p.c.links[p.bAtC];
    var relay := l.(replay := Slide(l.replay, p.b.links[p.cAtB].counter), lastHeard := Some(now));
    Plainly(p.c).(inbound := Queue(p.c.inbound, IPPacket(ip)),
                  links := p.c.links[p.bAtC := relay][p.aAtC := Accepted(p, now).AnswerVia(p.bAtC)])
  }

  ghost function AfterDirect(p: Path, ip: seq<byte>, now: Time): Node
    requires p.Open()
  {
    Plainly(p.c).(inbound := Queue(p.c.inbound, IPPacket(ip)), links := p.c.links[p.aAtC := Accepted(p, now)])
  }

  lemma DeliveredIsDispatched(s: Node, carried: Carried, relay: Peer, env: Env)
    requires s.Inv() && relay in s.links
    requires carried.source in s.byIP && s.byIP[carried.source] != relay
    requires carried.packet.header.version == T.VERSION
    ensures KnownSource(s, Source(NO_ENDPOINT, s.byIP[carried.source], relay))
    ensures DeliverForwarded(s, carried, relay, env) ==
            Dispatch(s, carried.packet, Source(NO_ENDPOINT, s.byIP[carried.source], relay), env)
  {
    hide Handlers.Dispatch, L.Reached, L.Of, Link.Consistent;
  }

  lemma ReceiverUnwraps(p: Path, ip: seq<byte>, env: Env)
    requires p.Open()
    ensures Plainly(Receive(p.c, p.SecondHop(ip), p.fromB, env)) == AfterRelayed(p, ip, env.now)
  {
    hide Handlers.Receive, Handlers.PassOn, Handlers.DeliverForwarded, Handlers.Dispatch, Opened, Admits, Slide;
    hide L.After, L.Allowed, Node.Inv, Link.AnswerVia;
    var hop, carried := p.b.links[p.cAtB], p.Inner(ip, INITIAL_HOP_LIMIT - 1);
    var ours := p.a.links[p.cAtA];
    ForwardIsHandled(p.c, p.fromB, hop.session.value, p.cAtB.sender, hop.counter, carried, env);
    AcceptedLink(p.c.links[p.bAtC], hop.session.value, T.MSG_FORWARD, p.cAtB.sender, hop.counter, Forwarded(carried),
      env.now);
    var s := Opened(p.c, p.bAtC, p.SecondHop(ip), env);
    DeliveredIsDispatched(s, carried, p.bAtC, env);
    DataIsQueued(s, p.aAtC, p.bAtC, NO_ENDPOINT, ours.session.value, p.cAtA.sender, ours.counter, ip, env);
  }

  lemma DataIsDispatched(s: Node, packet: Packet, from: AddrPort, env: Env)
    requires s.Inv() && from in s.byUDP
    requires packet.header.version == T.VERSION && packet.header.kind == T.MSG_DATA
    ensures KnownSource(Hear(s, packet), Source(from, s.byUDP[from], null))
    ensures Receive(s, packet, from, env) == Dispatch(Hear(s, packet), packet, Source(from, s.byUDP[from], null), env)
  {
    hide Handlers.Dispatch, Handlers.HandleProbe, Handlers.HandleForward, Node.Steady, Node.Grows, Atoms;
    hide L.Reached, L.Of, Link.Consistent;
  }

  lemma ReceiverOpens(p: Path, ip: seq<byte>, from: AddrPort, env: Env)
    requires p.Open() && from in p.c.byUDP && p.c.byUDP[from] == p.aAtC
    ensures Plainly(Receive(p.c, p.Sealed(ip), from, env)) == AfterDirect(p, ip, env.now)
  {
    hide Handlers.Receive, Handlers.Dispatch, Admits, Slide, Node.Inv;
    var ours := p.a.links[p.cAtA];
    DataIsDispatched(p.c, p.Sealed(ip), from, env);
    DataIsQueued(Hear(p.c, p.Sealed(ip)), p.aAtC, null, from, ours.session.value, p.cAtA.sender, ours.counter, ip, env);
  }

  /** For any IP packet: sent over the relayed link, passed on by the relay and received, it ends on
      the receiver's queue exactly as the datagram of a direct link would, from the same peer. What
      differs is that the link to its sender answers via the relay, and the relay's own link. */
  lemma RelayedRefinesDirect(p: Path, ip: seq<byte>, from: AddrPort, atB: Env, atC: Env)
    requires p.Open() && from in p.c.byUDP && p.c.byUDP[from] == p.aAtC
    ensures
      var wireA := SendData(p.a, p.cAtA, ip).0.wire;
      && |wireA| == |p.a.wire| + 1
      && var wireB := Receive(p.b, wireA[|p.a.wire|].packet, p.fromA, atB).wire;
         && |wireB| == |p.b.wire| + 1
         && var relayed := Receive(p.c, wireB[|p.b.wire|].packet, p.fromB, atC);
            var direct := Receive(p.c, p.Sealed(ip), from, atC);
            && relayed.inbound == direct.inbound
            && (|p.c.inbound| < INBOUND_CAPACITY ==> relayed.inbound == p.c.inbound + [IPPacket(ip)])
            && relayed.links[p.aAtC] == direct.links[p.aAtC].AnswerVia(p.bAtC)
            && (forall q | q in p.c.links && q != p.bAtC && q != p.aAtC :: relayed.links[q] == direct.links[q])
            && Plainly(relayed) == Plainly(direct).(links := relayed.links)
  {
    hide Handlers.Receive, Handlers.SendData, Node.Inv, Admits, Slide;
    SenderWraps(p, ip);
    RelayPasses(p, ip, atB);
    ReceiverUnwraps(p, ip, atC);
    ReceiverOpens(p, ip, from, atC);
  }

  /** A daemon that holds the same session with the same counter on a direct link writes that packet itself. */
  lemma DirectSendsThePacketItself(p: Path, direct: Node, ip: seq<byte>)
    requires p.Open() && direct.Inv() && p.cAtA in direct.links
    requires direct.links[p.cAtA].session == p.a.links[p.cAtA].session
    requires direct.links[p.cAtA].counter == p.a.links[p.cAtA].counter
    requires direct.links[p.cAtA].via == null && direct.links[p.cAtA].endpoint.IsValid()
    ensures SendData(direct, p.cAtA, ip).0.wire == direct.wire + [Datagram(direct.links[p.cAtA].endpoint, p.Sealed(ip))]
  {
    hide Node.Steady, Node.Inv, Admits, Link.Consistent, L.Allowed;
    var l := direct.links[p.cAtA];
    SealAllowed(l, SealedText(l.session.value, T.MSG_DATA, p.cAtA.sender, l.counter, IPPacket(ip)));
  }
}
