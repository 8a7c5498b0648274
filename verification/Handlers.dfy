/** Every handler, tick and call of the mesh as a function on the node's value. Each keeps the
    invariant, and none puts a handshake message on the wire that it may not say. */
module Handlers {
  import opened Netip
  import opened Nodes
  import opened Packets
  import opened Peers
  import opened Session
  import opened Wrappers
  import L = PeerRuns
  import T = Transport

  // ----- sending -----

  /** Hands a packet to the peer that will carry it, sealed with the session shared with that peer. */
  ghost function Forward(s: Node, relay: Peer, carried: Carried): (r: (Node, Option<SendError>))
    requires s.Inv() && relay in s.links
    ensures r.0.Inv() && s.Steady(r.0)
  {
    hide Node.Inv, Node.Steady, Link.Consistent;
    SteadySelf(s);
    var l := s.links[relay];
    if !carried.source.V4? || !carried.destination.V4? then (s, Some(ErrNotIPv4))
    else if l.session.None? then (s, Some(SendError.ErrNoSession))
    else
      var text := SealedText(l.session.value, T.MSG_FORWARD, relay.sender, l.counter, Forwarded(carried));
      var s1 := s.Do(relay, L.Seal(text));
      if !l.endpoint.IsValid() then (s1, Some(ErrNoPath))
      else
        var s2 := s1.Write(l.endpoint, Packet(text.header, SealedBody(text)));
        SteadyTwice(s, s1, s2);
        (s2, None)
  }

  /** Puts one finished packet on a link, down the wire or through its relay. */
  ghost function Deliver(s: Node, peer: Peer, packet: Packet): (r: (Node, Option<SendError>))
    requires s.Inv() && peer in s.links
    ensures r.0.Inv() && s.Steady(r.0)
  {
    hide L.Reached, L.Of, Link.Consistent;
    var l := s.links[peer];
    if l.via != null then Forward(s, l.via, Carried(INITIAL_HOP_LIMIT, s.virtualIP, peer.virtualIP, packet))
    else if !l.endpoint.IsValid() then (s, Some(ErrNoPath))
    else (s.Write(l.endpoint, packet), None)
  }

  ghost function SendPacket(s: Node, peer: Peer, kind: byte, body: Body): (r: Node)
    requires s.Inv() && peer in s.links
    ensures r.Inv() && s.Steady(r)
  {
    Deliver(s, peer, Envelope(kind, peer.sender, 0, body)).0
  }

  /** Seals one IP packet and puts it on one open link. */
  ghost function SendData(s: Node, peer: Peer, ip: seq<byte>): (r: (Node, Option<SendError>))
    requires s.Inv() && peer in s.links
    ensures r.0.Inv() && s.Steady(r.0)
  {
    hide Node.Inv, Link.Consistent;
    var l := s.links[peer];
    if l.session.None? then (s, Some(SendError.ErrNoSession))
    else
      var text := SealedText(l.session.value, T.MSG_DATA, peer.sender, l.counter, IPPacket(ip));
      Deliver(s.Do(peer, L.Seal(text)), peer, Packet(text.header, SealedBody(text)))
  }

  ghost function Send(s: Node, destination: Addr, ip: seq<byte>): (r: (Node, Option<SendError>))
    requires s.Inv()
    ensures r.0.Inv() && s.Steady(r.0)
  {
    hide L.Reached, L.Of, Link.Consistent;
    if destination !in s.byIP then (s, Some(ErrNoPeer)) else SendData(s, s.byIP[destination], ip)
  }

  ghost predicate AllIn(peers: seq<Peer>, known: set<Peer>) {
    peers != [] ==> peers[0] in known && AllIn(peers[1..], known)
  }

  /** One copy to each peer in turn, counting those it was sent to. */
  ghost function Broadcast(s: Node, peers: seq<Peer>, ip: seq<byte>): (r: (Node, nat))
    requires s.Inv() && AllIn(peers, s.links.Keys)
    ensures r.0.Inv() && s.Steady(r.0)
    decreases |peers|
  {
    hide Node.Inv, Node.Grows;
    GrowsSelf(s);
    if peers == [] then (s, 0)
    else
      var (s1, err) := SendData(s, peers[0], ip);
      var (s2, sent) := Broadcast(s1, peers[1..], ip);
      GrowsTwice(s, s1, s2);
      (s2, if err.None? then sent + 1 else sent)
  }

  ghost predicate KnownSource(s: Node, src: Source) {
    && (src.peer != null ==> src.peer in s.links)
    && (src.relay != null ==> src.relay in s.links && src.peer != null)
  }

  /** Answers a packet the way it came, without committing the link to that route. */
  ghost function ReplyTo(s: Node, src: Source, kind: byte, sender: uint64, body: Body): (r: Node)
    requires s.Inv() && KnownSource(s, src)
    ensures r.Inv() && s.Steady(r)
  {
    hide Node.Inv, Link.Consistent;
    var packet := Envelope(kind, sender, 0, body);
    if src.relay == null then s.Write(src.addr, packet)
    else Forward(s, src.relay, Carried(INITIAL_HOP_LIMIT, s.virtualIP, src.peer.virtualIP, packet)).0
  }

  ghost function Punch(s: Node, peer: Peer, env: Env): (r: Node)
    requires s.Inv() && peer in s.links
    ensures r.Inv() && s.Steady(r)
  {
    hide Node.Inv, Link.Consistent;
    var l := s.links[peer];
    if !l.endpoint.IsValid() then s
    else s.Do(peer, L.Expect(env.token, env.now))
          .Write(l.endpoint, Envelope(T.MSG_PROBE, 0, 0, PingBody(env.token, false)))
  }

  ghost function SendKeepalive(s: Node, peer: Peer, env: Env): (r: Node)
    requires s.Inv() && peer in s.links
    ensures r.Inv() && s.Steady(r)
  {
    hide Node.Inv, Link.Consistent;
    SendPacket(s.Do(peer, L.Expect(env.token, env.now)), peer, T.MSG_KEEPALIVE, PingBody(env.token, false))
  }

  // ----- the handshake -----

  /** Only the side with the lower device id opens a handshake, and only when an attempt is due. */
  ghost predicate Opens(s: Node, peer: Peer, now: Time)
    requires peer in s.links
  {
    !Less(peer.deviceID, s.device) && s.links[peer].MayAttempt(now)
  }

  ghost function BeginHandshake(s: Node, peer: Peer, env: Env): (r: Node)
    requires s.Inv() && peer in s.links
    ensures r.Inv() && s.Steady(r)
  {
    hide Node.Inv, Link.Consistent;
    if !Opens(s, peer, env.now) then s
    else
      var drawn := s.Draw(env.ephemeral);
      // A device id too long for the wire spends the attempt and sends nothing.
      if |s.device| > 255 then drawn.Do(peer, L.Attempt(None, env.now))
      else
        var h := WriteInit(s.key, peer.transportKey, env.ephemeral);
        var s1 := drawn.Do(peer, L.Attempt(Some(h), env.now));
        SendPacket(s1, peer, T.MSG_HANDSHAKE_INIT, InitBody(s.device, h.init))
  }

  /** The peers that could be asked to carry a link and have not been. */
  ghost function Candidates(s: Node, peer: Peer): set<DeviceId>
    requires s.Inv() && peer in s.links
  {
    set d | d in s.peers && s.peers[d] != peer && s.links[s.peers[d]].state == Direct
            && d !in s.links[peer].relaysTried
  }

  /** Asks the lowest candidate to carry the link. */
  ghost function TryRelay(s: Node, peer: Peer, env: Env): (r: (Node, bool))
    requires s.Inv() && peer in s.links
    ensures r.0.Inv() && s.Steady(r.0)
    ensures r.1 <==> Candidates(s, peer) != {}
  {
    hide L.Reached, L.Of, Link.Consistent, Node.Steady, L.After;
    SteadySelf(s);
    var candidates := Candidates(s, peer);
    if candidates == {} then (s, false)
    else
      var relay := s.peers[Lowest(candidates)];
      var asking := s.Do(peer, L.RelayThrough(relay));
      SteadyTwice(s, asking, BeginHandshake(asking, peer, env));
      (BeginHandshake(asking, peer, env), true)
  }

  /** Notes that a session is opened with a peer, which is what an answer may then be sent for. */
  ghost function Record(s: Node, peer: Peer, session: Session): (r: Node)
    requires s.Inv() && peer in s.links
    ensures r.Inv() && s.Stays(r)
  {
    hide Node.Inv;
    SameInv(s, s.(openings := s.openings + {Opening(peer.deviceID, session)}));
    s.(openings := s.openings + {Opening(peer.deviceID, session)})
  }

  ghost function AnswerVia(s: Node, peer: Peer, relay: Peer): (r: Node)
    requires s.Inv() && peer in s.links && relay in s.links
    ensures r.Inv() && s.Steady(r)
  {
    s.Do(peer, L.AnswerVia(relay))
  }

  /** A finished handshake opens the link, and a keepalive says so. */
  ghost function OpenLink(s: Node, peer: Peer, session: Session, env: Env): (r: Node)
    requires s.Inv() && peer in s.links
    ensures r.Inv() && s.Steady(r)
  {
    hide Node.Inv, Link.Consistent;
    SendKeepalive(s.Do(peer, L.Open(session, env.now)), peer, env)
  }

  /** Points a link at an address and rebuilds the tables, if the address is new. */
  ghost function Follow(s: Node, peer: Peer, addr: AddrPort, env: Env): (r: Node)
    requires s.Inv() && peer in s.links
    ensures r.Inv() && s.Stays(r)
  {
    if s.links[peer].endpoint == addr then s else Reindex(Moved(s, peer, addr), env.tables)
  }

  /** Points a link at an address, the tables aside. */
  ghost function Moved(s: Node, peer: Peer, addr: AddrPort): (r: Node)
    requires s.Inv() && peer in s.links
    ensures r.Inv() && s.Stays(r)
  {
    hide Node.Inv, L.After, L.Reached, L.Of, Link.SetEndpoint;
    DoInv(s, peer, L.SetEndpoint(addr));
    s.(links := s.links[peer := L.After(s.links[peer], L.SetEndpoint(addr))],
       log := s.log + [L.Deed(peer, L.SetEndpoint(addr))])
  }

  /** Rebuilds the lookup tables. */
  ghost function Reindex(s: Node, suggested: Tables): (r: Node)
    requires s.Inv()
    ensures r.Indexed() && s.Stays(r) && s.links == r.links && s.peers == r.peers
    ensures Indexes(suggested, s.peers, Ends(s.links)) ==> Tables(r.byIP, r.byUDP) == suggested
  {
    hide Node.Inv, Node.Indexed, Node.Stays, Indexes;
    PeersHaveEnds(s);
    var t := Rebuild(s.peers, Ends(s.links), suggested);
    NewTablesFit(s, t);
    s.(byIP := t.byIP, byUDP := t.byUDP)
  }

  lemma PeersHaveEnds(s: Node)
    requires s.Inv()
    ensures forall d | d in s.peers :: s.peers[d] in Ends(s.links)
  {
    hide L.Reached, L.Of, Link.Consistent;
  }

  lemma NewTablesFit(s: Node, t: Tables)
    requires s.Inv() && forall d | d in s.peers :: s.peers[d] in Ends(s.links)
    requires Indexes(t, s.peers, Ends(s.links))
    ensures
      var r := s.(byIP := t.byIP, byUDP := t.byUDP);
      r.Indexed() && s.Stays(r)
  {
    hide Indexes, L.Reached, L.Of, Link.Consistent;
    TabledIsKnown(t, s.peers, Ends(s.links));
    NewTablesKeepInv(s, t);
  }

  lemma NewTablesKeepInv(s: Node, t: Tables)
    requires s.Inv()
    requires forall ip | ip in t.byIP :: t.byIP[ip] in Ends(s.links)
    requires forall a | a in t.byUDP :: t.byUDP[a] in Ends(s.links)
    ensures s.(byIP := t.byIP, byUDP := t.byUDP).Inv()
  {
    hide L.Reached, L.Of, Link.Consistent;
  }

  /** The tables a rebuild gives: the suggested ones if they fit, and some that fit otherwise. */
  ghost function Rebuild(peers: map<DeviceId, Peer>, ends: map<Peer, AddrPort>, suggested: Tables): (t: Tables)
    requires forall d | d in peers :: peers[d] in ends
    ensures Indexes(t, peers, ends)
    ensures Indexes(suggested, peers, ends) ==> t == suggested
  {
    TablesExist(peers, ends);
    if Indexes(suggested, peers, ends) then suggested
    else
      var t :| Indexes(t, peers, ends);
      t
  }

  lemma TablesExist(peers: map<DeviceId, Peer>, ends: map<Peer, AddrPort>)
    requires forall d | d in peers :: peers[d] in ends
    ensures exists t :: Indexes(t, peers, ends)
  {
    var ips := set d | d in peers && peers[d].virtualIP.IsValid() :: peers[d].virtualIP;
    var at := set d | d in peers && ends[peers[d]].IsValid() :: ends[peers[d]];
    var t := Tables(map ip | ip in ips :: (var d :| d in peers && peers[d].virtualIP == ip; peers[d]),
                    map a | a in at :: (var d :| d in peers && ends[peers[d]] == a; peers[d]));
    assert Indexes(t, peers, ends);
  }

  /** Answers a peer that opened a handshake. The claimed id only decides which key to check against. */
  ghost function HandleInit(s: Node, packet: Packet, src: Source, env: Env): (r: Node)
    requires s.Inv() && KnownSource(s, src)
    ensures r.Inv() && s.Stays(r)
  {
    hide L.Reached, L.Of, Link.Consistent, Node.Grows;
    GrowsSelf(s);
    if !packet.body.InitBody? || packet.body.device !in s.peers then s
    else
      var peer, init := s.peers[packet.body.device], packet.body.init;
      if ReadInit(s.key, init) != Some(peer.transportKey) then s
      else
        var (reply, session) := WriteResponse(init, env.ephemeral);
        var s1 := s.Draw(env.ephemeral);
        // A relayed peer is answered the same way; a direct one is followed to where it now is.
        var s2 := if src.relay != null then AnswerVia(s1, peer, src.relay) else Follow(s1, peer, src.addr, env);
        var s3 := Record(s2, peer, session);
        var s4 := SendPacket(s3, peer, T.MSG_HANDSHAKE_RESPONSE, ResponseBody(reply));
        var s5 := OpenLink(s4, peer, session, env);
        GrowsTwice(s, s1, s2);
        GrowsTwice(s, s2, s3);
        GrowsTwice(s, s3, s4);
        GrowsTwice(s, s4, s5);
        s5
  }

  ghost function HandleResponse(s: Node, packet: Packet, src: Source, env: Env): (r: Node)
    requires s.Inv() && KnownSource(s, src)
    ensures r.Inv() && s.Stays(r)
  {
    hide L.Reached, L.Of, Link.Consistent;
    if !packet.body.ResponseBody? || src.peer == null || s.links[src.peer].handshake.None? then s
    else
      var peer, response := src.peer, packet.body.response;
      var session := ReadResponse(s.links[peer].handshake.value, response);
      if session.None? then s
      else
        var s1 := if src.relay != null then AnswerVia(s, peer, src.relay) else s;
        OpenLink(Record(s1, peer, session.value), peer, session.value, env)
  }

  // ----- what arrives -----

  /** Answers a liveness check, or closes the one this side sent. */
  ghost function HandleKeepalive(s: Node, packet: Packet, src: Source, env: Env): (r: Node)
    requires s.Inv() && KnownSource(s, src)
    ensures r.Inv() && s.Steady(r)
  {
    hide Node.Inv, Link.Consistent;
    if !packet.body.PingBody? || src.peer == null then s
    else if !packet.body.reply then
      ReplyTo(s.Do(src.peer, L.Heard(env.now)), src, T.MSG_KEEPALIVE, src.peer.sender,
              PingBody(packet.body.token, true))
    else s.Do(src.peer, L.Measure(packet.body.token, env.now))
  }

  /** Decrypts a game packet and queues it for the adapter. */
  ghost function HandleData(s: Node, packet: Packet, src: Source, env: Env): (r: Node)
    requires s.Inv() && KnownSource(s, src)
    ensures r.Inv() && s.Stays(r)
  {
    hide Node.Inv, Link.Consistent;
    if src.peer == null then s
    else
      var (s1, plain) := Accept(s, src.peer, packet, env);
      if plain.Failure? then s1
      else
        var s2 := if src.relay != null then AnswerVia(s1, src.peer, src.relay) else s1;
        Enqueue(s2, plain.value, |s.log|)
  }

  /** A packet the adapter has no room for is dropped. */
  ghost function Enqueue(s: Node, plain: Plain, place: nat): (r: Node)
    requires s.Inv()
    ensures r.Inv() && s.Stays(r) && r == s.(inbound := r.inbound, queued := r.queued)
  {
    hide Node.Inv;
    SameInv(s, s.(inbound := s.inbound + [plain], queued := s.queued + [place]));
    if |s.inbound| < INBOUND_CAPACITY then s.(inbound := s.inbound + [plain], queued := s.queued + [place]) else s
  }

  /** The adapter takes the packet that has waited longest. */
  ghost function Dequeue(s: Node): (r: Node)
    requires s.Inv()
    ensures r.Inv() && s.Stays(r) && r == s.(inbound := r.inbound)
  {
    hide Node.Inv;
    if s.inbound == [] then s else SameInv(s, s.(inbound := s.inbound[1..])); s.(inbound := s.inbound[1..])
  }

  /** Decrypts a packet with a peer's session and judges its counter. */
  ghost function Accept(s: Node, peer: Peer, packet: Packet, env: Env): (r: (Node, Result<Plain, AcceptError>))
    requires s.Inv() && peer in s.links
    ensures r.0.Inv() && s.Steady(r.0)
    ensures r.1.Success? ==> packet.body.SealedBody? && packet.body.text.plain == r.1.value
    ensures r.1.Success? ==> packet.body.text.header == packet.header
    ensures r.1.Failure? ==> r.0 == s
  {
    hide Node.Inv, Node.Steady, Link.Consistent, Link.Accept, L.Allowed;
    SteadySelf(s);
    AcceptAllowed(s.links[peer], packet.header, packet.body, env.now);
    var plain := s.links[peer].Accept(packet.header, packet.body, env.now).1;
    if plain.Failure? then (s, plain) else (s.Do(peer, L.Accept(packet.body.text, env.now)), plain)
  }

  /** What a link accepts is a ciphertext with the header it came under. */
  lemma AcceptAllowed(l: Link, header: Header, body: Body, now: Time)
    ensures
      var plain := l.Accept(header, body, now).1;
      plain.Success? ==>
        body.SealedBody? && body.text.header == header && body.text.plain == plain.value &&
          L.Allowed(l, L.Accept(body.text, now))
  {
    hide Link.Consistent;
  }

  ghost function HandleClose(s: Node, src: Source): (r: Node)
    requires s.Inv() && KnownSource(s, src)
    ensures r.Inv() && s.Steady(r)
  {
    hide Node.Inv, Link.Consistent;
    if src.peer == null then s else s.Do(src.peer, L.Fail)
  }

  /** Hands one packet to the handler for its type, off the wire or out of a forward.
      A probe or a forward inside a forward has no handler. */
  ghost function Dispatch(s: Node, packet: Packet, src: Source, env: Env): (r: Node)
    requires s.Inv() && KnownSource(s, src)
    ensures r.Inv() && s.Stays(r)
  {
    hide L.Reached, L.Of, Link.Consistent;
    var kind := packet.header.kind;
    if kind == T.MSG_HANDSHAKE_INIT then HandleInit(s, packet, src, env)
    else if kind == T.MSG_HANDSHAKE_RESPONSE then HandleResponse(s, packet, src, env)
    else if kind == T.MSG_KEEPALIVE then HandleKeepalive(s, packet, src, env)
    else if kind == T.MSG_DATA then HandleData(s, packet, src, env)
    else if kind == T.MSG_CLOSE then HandleClose(s, src)
    else s
  }

  ghost function PeerAt(s: Node, from: AddrPort): (p: Peer?)
    requires s.Inv()
    ensures p != null ==> p in s.links
  {
    hide L.Reached, L.Of, Link.Consistent;
    if from in s.byUDP then s.byUDP[from] else null
  }

  /** Echoes a punch attempt, and takes the chance to open the handshake. */
  ghost function HandleProbe(s: Node, packet: Packet, from: AddrPort, env: Env): (r: Node)
    requires s.Inv()
    ensures r.Inv() && s.Steady(r)
  {
    hide L.Reached, L.Of, Link.Consistent;
    var peer := PeerAt(s, from);
    if !packet.body.PingBody? then s
    else if packet.body.reply then
      if peer == null then s
      else BeginHandshake(s.Do(peer, L.Measure(packet.body.token, env.now)), peer, env)
    else
      var s1 := s.Write(from, Envelope(T.MSG_PROBE, 0, 0, PingBody(packet.body.token, true)));
      if peer == null then s1 else BeginHandshake(s1, peer, env)
  }

  /** Opens a packet addressed to this device: an ordinary packet from the peer at the source address. */
  ghost function DeliverForwarded(s: Node, carried: Carried, relay: Peer, env: Env): (r: Node)
    requires s.Inv() && relay in s.links
    ensures r.Inv() && s.Stays(r)
  {
    hide L.Reached, L.Of, Link.Consistent;
    if carried.source !in s.byIP || s.byIP[carried.source] == relay then s
    else if carried.packet.header.version != T.VERSION then s
    else Dispatch(s, carried.packet, Source(NO_ENDPOINT, s.byIP[carried.source], relay), env)
  }

  /** Carries a packet the rest of the way, over a link this daemon holds directly and not back. */
  ghost function PassOn(s: Node, carried: Carried, origin: Peer): (r: Node)
    requires s.Inv() && origin in s.links
    ensures r.Inv() && s.Steady(r)
  {
    hide L.Reached, L.Of, Link.Consistent;
    if carried.hopLimit == 0 || carried.destination !in s.byIP then s
    else
      var target := s.byIP[carried.destination];
      if target == origin || s.links[target].state != Direct then s
      else Forward(s, target, carried.(hopLimit := carried.hopLimit - 1)).0
  }

  /** A forward is opened first: that is what proves the relay really sent it. */
  ghost function HandleForward(s: Node, packet: Packet, from: AddrPort, env: Env): (r: Node)
    requires s.Inv()
    ensures r.Inv() && s.Stays(r)
  {
    hide L.Reached, L.Of, Link.Consistent;
    var relay := PeerAt(s, from);
    if relay == null then s
    else
      var (s1, plain) := Accept(s, relay, packet, env);
      if plain.Failure? || !plain.value.Forwarded? then s1
      else if plain.value.carried.destination == s.virtualIP then DeliverForwarded(s1, plain.value.carried, relay, env)
      else PassOn(s1, plain.value.carried, relay)
  }

  /** Notes what a packet contains. */
  ghost function Hear(s: Node, packet: Packet): (r: Node)
    requires s.Inv()
    ensures r.Inv() && s.Grows(r) && r == s.(heard := s.heard + Atoms(packet))
  {
    hide Node.Inv;
    SameInv(s, s.(heard := s.heard + Atoms(packet)));
    s.(heard := s.heard + Atoms(packet))
  }

  /** One datagram from the socket. */
  ghost function Receive(s: Node, packet: Packet, from: AddrPort, env: Env): (r: Node)
    requires s.Inv()
    ensures r.Inv() && s.Grows(r) && r.heard == s.heard + Atoms(packet) && r.links.Keys == s.links.Keys
  {
    hide L.Reached, L.Of, Link.Consistent;
    var s1 := Hear(s, packet);
    if packet.header.version != T.VERSION then s1
    else if packet.header.kind == T.MSG_PROBE then HandleProbe(s1, packet, from, env)
    else if packet.header.kind == T.MSG_FORWARD then HandleForward(s1, packet, from, env)
    else Dispatch(s1, packet, Source(from, PeerAt(s1, from), null), env)
  }

  // ----- maintenance and the server's events -----

  /** One look at one link: revive it, keep it alive, retry it, relay it or give up on it. */
  ghost function TickPeer(s: Node, peer: Peer, keepalives: bool, env: Env): (r: Node)
    requires s.Inv() && peer in s.links
    ensures r.Inv() && s.Steady(r)
  {
    hide Node.Inv, Link.Consistent;
    var l := s.links[peer];
    if l.Silent(env.now) then Punch(s.Do(peer, L.Restart), peer, env)
    else if l.session.Some? then (if keepalives then SendKeepalive(s, peer, env) else s)
    else if l.state == Failed then TryRelay(s, peer, env).0
    else if l.handshakes >= HandshakeBudget(l.via) then
      var (s1, asked) := TryRelay(s, peer, env);
      if asked then s1 else s.Do(peer, L.Fail)
    else if l.via != null then BeginHandshake(s, peer, env)
    else BeginHandshake(Punch(s, peer, env), peer, env)
  }

  /** The maintenance loop's body: every peer once, in whatever order the map gives. */
  ghost function Tick(s: Node, peers: seq<Peer>, keepalives: bool, envs: seq<Env>): (r: Node)
    requires s.Inv() && AllIn(peers, s.links.Keys) && |envs| == |peers|
    ensures r.Inv() && s.Steady(r)
    decreases |peers|
  {
    hide Node.Inv, Node.Grows;
    GrowsSelf(s);
    if peers == [] then s
    else
      var s1 := TickPeer(s, peers[0], keepalives, envs[0]);
      var s2 := Tick(s1, peers[1..], keepalives, envs[1..]);
      GrowsTwice(s, s1, s2);
      s2
  }

  ghost function RestartLink(s: Node, peer: Peer, env: Env): (r: Node)
    requires s.Inv() && peer in s.links
    ensures r.Inv() && s.Steady(r)
  {
    hide Node.Inv, Link.Consistent;
    Punch(s.Do(peer, L.Restart), peer, env)
  }

  ghost function RestartLinks(s: Node, peers: seq<Peer>, envs: seq<Env>): (r: Node)
    requires s.Inv() && AllIn(peers, s.links.Keys) && |envs| == |peers|
    ensures r.Inv() && s.Steady(r)
    decreases |peers|
  {
    hide Node.Inv, Node.Grows;
    GrowsSelf(s);
    if peers == [] then s
    else
      var s1 := RestartLink(s, peers[0], envs[0]);
      var s2 := RestartLinks(s1, peers[1..], envs[1..]);
      GrowsTwice(s, s1, s2);
      s2
  }

  ghost function RetryPeer(s: Node, id: DeviceId, env: Env): (r: Node)
    requires s.Inv()
    ensures r.Inv() && s.Steady(r)
  {
    hide L.Reached, L.Of, Link.Consistent, Node.Grows;
    GrowsSelf(s);
    if id !in s.peers then s
    else
      var s1 := RestartLink(s, s.peers[id], env);
      var s2 := BeginHandshake(s1, s.peers[id], env);
      GrowsTwice(s, s1, s2);
      s2
  }

  ghost function SetPeerEndpoint(s: Node, id: DeviceId, endpoint: AddrPort, env: Env): (r: Node)
    requires s.Inv()
    ensures r.Inv() && s.Stays(r)
  {
    hide L.Reached, L.Of, Link.Consistent, Node.Grows;
    GrowsSelf(s);
    if id !in s.peers || !endpoint.IsValid() || s.links[s.peers[id]].endpoint == endpoint then s
    else
      var s1 := Follow(s, s.peers[id], endpoint, env);
      var s2 := Punch(s1, s.peers[id], env);
      GrowsTwice(s, s1, s2);
      s2
  }

  /** A new peer gets a link; a known one is only repointed, and not while it is open directly. */
  ghost function AddPeer(s: Node, peer: Peer, endpoint: AddrPort, env: Env): (r: Node)
    requires s.Inv() && peer !in s.links
    ensures r.Inv() && s.Grows(r) && r.heard == s.heard && r.links.Keys <= s.links.Keys + {peer}
  {
    hide L.Reached, L.Of, Link.Consistent;
    if peer.deviceID in s.peers then
      var existing := s.peers[peer.deviceID];
      if s.links[existing].state == Direct || !endpoint.IsValid() then s else Follow(s, existing, endpoint, env)
    else
      Punch(Reindex(Enrol(s, peer, endpoint), env.tables), peer, env)
  }

  lemma AddPeerKnown(s: Node, peer: Peer, endpoint: AddrPort, env: Env)
    requires s.Inv() && peer !in s.links && peer.deviceID in s.peers
    ensures
      var existing := s.peers[peer.deviceID];
      existing in s.links &&
      AddPeer(s, peer, endpoint, env) ==
        if s.links[existing].state == Direct || !endpoint.IsValid() then s else Follow(s, existing, endpoint, env)
  {
    hide Follow, Reindex, Punch;
  }

  lemma AddPeerNew(s: Node, peer: Peer, endpoint: AddrPort, env: Env)
    requires s.Inv() && peer !in s.links && peer.deviceID !in s.peers
    ensures AddPeer(s, peer, endpoint, env) == Punch(Reindex(Enrol(s, peer, endpoint), env.tables), peer, env)
  {
    hide Follow, Reindex, Punch, Enrol;
  }

  /** The link of a peer that is new: as it is made, but for the token of its first probe. */
  lemma AddPeerLink(s: Node, peer: Peer, endpoint: AddrPort, env: Env)
    requires s.Inv() && peer !in s.links && peer.deviceID !in s.peers
    ensures
      var r := AddPeer(s, peer, endpoint, env);
      && r.device == s.device && r.peers == s.peers[peer.deviceID := peer] && r.links.Keys == s.links.Keys + {peer}
      && r.links == s.links[peer := NewLink(endpoint).(pending := r.links[peer].pending)]
      && r.Indexed() && r.virtualIP == s.virtualIP && r.key == s.key && s.Grows(r)
  {
    hide Reindex, AddPeer, Node.Inv, Link.Consistent, Indexes;
    AddPeerNew(s, peer, endpoint, env);
    var enrolled := Enrol(s, peer, endpoint);
    var indexed := Reindex(enrolled, env.tables);
    assert enrolled.links == s.links[peer := NewLink(endpoint)] && enrolled.peers == s.peers[peer.deviceID := peer];
    PunchKeepsIndex(indexed, peer, env);
  }

  lemma PunchKeepsIndex(s: Node, peer: Peer, env: Env)
    requires s.Indexed() && peer in s.links
    ensures
      var r := Punch(s, peer, env);
      r.Indexed() && r.links == s.links[peer := s.links[peer].(pending := r.links[peer].pending)]
  {
    hide L.Reached, L.Of, Link.Consistent;
  }

  ghost function RemovePeer(s: Node, id: DeviceId, env: Env): (r: Node)
    requires s.Inv()
    ensures r.Inv() && s.Stays(r)
  {
    Reindex(s.(peers := s.peers - {id}), env.tables)
  }
}
