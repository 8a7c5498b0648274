/** Where a link points, and who is at an address: exactly what moves a link, and that a peer who proves itself
    from a new address is answered and found there. */
module Following {
  import opened Handlers
  import opened Lookup
  import opened Netip
  import opened Network
  import opened Nodes
  import opened Packets
  import opened Peers
  import opened Removing
  import opened Retry
  import opened Sending
  import opened Session
  import opened Wrappers
  import Crypto = Session
  import L = PeerRuns
  import T = Transport

  /** An init that claims to be this peer's, and opens with its key. */
  ghost predicate Verifies(s: Node, packet: Packet, p: Peer) {
    && packet.body.InitBody? && packet.body.device in s.peers && s.peers[packet.body.device] == p
    && ReadInit(s.key, packet.body.init) == Some(p.transportKey)
  }

  // ----- exactly what moves a link -----

  /** Where a link points after an event: where the peer's init came from, straight; where the server says a
      known peer is, unless its link is open directly; where the server says it has moved to. */
  ghost function EndpointAfter(s: Node, e: Event, p: Peer): AddrPort
    requires p in s.links
  {
    var stays := s.links[p].endpoint;
    match e
    case Arrive(_, packet, from, _) =>
      var moves := packet.header.version == T.VERSION && packet.header.kind == T.MSG_HANDSHAKE_INIT &&
                   Verifies(s, packet, p);
      if moves then from else stays
    case Add(_, newcomer, endpoint, _) =>
      var known := newcomer.deviceID in s.peers && s.peers[newcomer.deviceID] == p;
      if known && s.links[p].state != Direct && endpoint.IsValid() then endpoint else stays
    case Move(_, id, endpoint, _) =>
      if id in s.peers && s.peers[id] == p && endpoint.IsValid() then endpoint else stays
    case _ => stays
  }

  /** Every link points where it did after an event, unless the event is one of those. */
  lemma LinksPoint(net: Net, e: Event, p: Peer)
    requires Possible(net, e) && p in net[e.at].links
    ensures p in Act(net, e).links && Act(net, e).links[p].endpoint == EndpointAfter(net[e.at], e, p)
  {
    hide Node.Inv, Node.Grows, Deliverable, Verifies;
    hide Handlers.Receive, Handlers.TickPeer, Handlers.AddPeer, Handlers.SetPeerEndpoint, Handlers.RetryPeer;
    hide Handlers.RestartLinks, Handlers.Broadcast, Handlers.RemovePeer, Handlers.Dequeue, Handlers.Send;
    var s, r := net[e.at], Act(net, e);
    match e
    case Arrive(_, packet, from, env) => ReceivePoints(s, packet, from, env, p);
    case Add(_, newcomer, endpoint, env) => AddPeerPoints(s, newcomer, endpoint, env, p);
    case Move(_, id, endpoint, env) => MovePoints(s, id, endpoint, env, p);
    case Remove(_, id, env) => RemovePoints(s, id, env, p);
    case Take(_) =>
    case _ => SteadyPoints(s, r, p);
  }

  lemma SteadyPoints(s: Node, r: Node, p: Peer)
    requires p in s.links && s.Steady(r)
    ensures p in r.links && r.links[p].endpoint == s.links[p].endpoint
  {
    assert Ends(r.links)[p] == r.links[p].endpoint && Ends(s.links)[p] == s.links[p].endpoint;
  }

  lemma FollowPoints(s: Node, peer: Peer, addr: AddrPort, env: Env, p: Peer)
    requires s.Inv() && peer in s.links && p in s.links
    ensures
      var r := Follow(s, peer, addr, env);
      p in r.links && r.links[p].endpoint == if p == peer then addr else s.links[p].endpoint
  {
    hide Node.Inv, Indexes, Link.Consistent;
  }

  lemma RemovePoints(s: Node, id: DeviceId, env: Env, p: Peer)
    requires s.Inv() && p in s.links
    ensures p in RemovePeer(s, id, env).links && RemovePeer(s, id, env).links[p] == s.links[p]
  {
    hide L.Reached, L.Of, Link.Consistent, Indexes;
  }

  lemma HandleInitPoints(s: Node, packet: Packet, src: Source, env: Env, p: Peer)
    requires s.Inv() && KnownSource(s, src) && p in s.links
    ensures
      var r := HandleInit(s, packet, src, env);
      p in r.links &&
      r.links[p].endpoint == if Verifies(s, packet, p) && src.relay == null then src.addr else s.links[p].endpoint
  {
    hide L.Reached, L.Of, Link.Consistent, Handlers.AnswerVia, Handlers.Follow, Handlers.SendPacket, Handlers.OpenLink;
    hide Node.Grows;
    if packet.body.InitBody? && packet.body.device in s.peers {
      var peer, init := s.peers[packet.body.device], packet.body.init;
      if ReadInit(s.key, init) == Some(peer.transportKey) {
        var (reply, session) := WriteResponse(init, env.ephemeral);
        var s1 := s.Draw(env.ephemeral);
        var s2 := if src.relay != null then AnswerVia(s1, peer, src.relay) else Follow(s1, peer, src.addr, env);
        SteadyPoints(s, s1, p);
        if src.relay != null { SteadyPoints(s1, s2, p); } else { FollowPoints(s1, peer, src.addr, env, p); }
        AnsweredPoints(s2, peer, reply, session, env, p);
      }
    }
  }

  lemma AnsweredPoints(s: Node, peer: Peer, reply: Response, session: Session, env: Env, p: Peer)
    requires s.Inv() && peer in s.links && p in s.links
    ensures
      var r := OpenLink(SendPacket(Record(s, peer, session), peer, T.MSG_HANDSHAKE_RESPONSE, ResponseBody(reply)),
                        peer, session, env);
      p in r.links && r.links[p].endpoint == s.links[p].endpoint
  {
    hide Node.Inv, Node.Grows, Handlers.SendPacket, Handlers.OpenLink;
    var recorded := Record(s, peer, session);
    var sent := SendPacket(recorded, peer, T.MSG_HANDSHAKE_RESPONSE, ResponseBody(reply));
    SteadyPoints(recorded, sent, p);
    SteadyPoints(sent, OpenLink(sent, peer, session, env), p);
  }

  lemma HandleResponsePoints(s: Node, packet: Packet, src: Source, env: Env, p: Peer)
    requires s.Inv() && KnownSource(s, src) && p in s.links
    ensures
      var r := HandleResponse(s, packet, src, env);
      p in r.links && r.links[p].endpoint == s.links[p].endpoint
  {
    hide L.Reached, L.Of, Link.Consistent, Handlers.AnswerVia, Handlers.OpenLink, Node.Grows;
    if packet.body.ResponseBody? && src.peer != null && s.links[src.peer].handshake.Some? {
      var peer := src.peer;
      var session := ReadResponse(s.links[peer].handshake.value, packet.body.response);
      if session.Some? {
        var s1 := if src.relay != null then AnswerVia(s, peer, src.relay) else s;
        SteadyPoints(s, s1, p);
        SteadyPoints(Record(s1, peer, session.value),
                     OpenLink(Record(s1, peer, session.value), peer, session.value, env), p);
      }
    }
  }

  lemma HandleDataPoints(s: Node, packet: Packet, src: Source, env: Env, p: Peer)
    requires s.Inv() && KnownSource(s, src) && p in s.links
    ensures
      var r := HandleData(s, packet, src, env);
      p in r.links && r.links[p].endpoint == s.links[p].endpoint
  {
    hide Node.Inv, Node.Grows, Handlers.Accept, Handlers.AnswerVia;
    if src.peer != null {
      var s1 := Accept(s, src.peer, packet, env).0;
      SteadyPoints(s, s1, p);
      if src.relay != null { SteadyPoints(s1, AnswerVia(s1, src.peer, src.relay), p); }
    }
  }

  lemma DispatchPoints(s: Node, packet: Packet, src: Source, env: Env, p: Peer)
    requires s.Inv() && KnownSource(s, src) && p in s.links
    ensures
      var r := Dispatch(s, packet, src, env);
      var moves := packet.header.kind == T.MSG_HANDSHAKE_INIT && Verifies(s, packet, p) && src.relay == null;
      p in r.links && r.links[p].endpoint == if moves then src.addr else s.links[p].endpoint
  {
    hide Handlers.HandleInit, Handlers.HandleResponse, Handlers.HandleKeepalive, Handlers.HandleData;
    hide Handlers.HandleClose, Node.Inv, Node.Grows, Verifies;
    var kind := packet.header.kind;
    if kind == T.MSG_HANDSHAKE_INIT {
      HandleInitPoints(s, packet, src, env, p);
    } else if kind == T.MSG_HANDSHAKE_RESPONSE {
      HandleResponsePoints(s, packet, src, env, p);
    } else if kind == T.MSG_KEEPALIVE {
      SteadyPoints(s, HandleKeepalive(s, packet, src, env), p);
    } else if kind == T.MSG_DATA {
      HandleDataPoints(s, packet, src, env, p);
    } else if kind == T.MSG_CLOSE {
      SteadyPoints(s, HandleClose(s, src), p);
    }
  }

  lemma DeliverForwardedPoints(s: Node, carried: Carried, relay: Peer, env: Env, p: Peer)
    requires s.Inv() && relay in s.links && p in s.links
    ensures
      var r := DeliverForwarded(s, carried, relay, env);
      p in r.links && r.links[p].endpoint == s.links[p].endpoint
  {
    hide L.Reached, L.Of, Link.Consistent, Handlers.Dispatch, Node.Stays, Verifies;
    if carried.source in s.byIP && s.byIP[carried.source] != relay {
      DispatchPoints(s, carried.packet, Source(NO_ENDPOINT, s.byIP[carried.source], relay), env, p);
    }
  }

  lemma HandleForwardPoints(s: Node, packet: Packet, from: AddrPort, env: Env, p: Peer)
    requires s.Inv() && p in s.links
    ensures
      var r := HandleForward(s, packet, from, env);
      p in r.links && r.links[p].endpoint == s.links[p].endpoint
  {
    hide Handlers.Accept, Handlers.PassOn, Handlers.DeliverForwarded, L.Reached, L.Of, Link.Consistent, Node.Grows;
    var relay := PeerAt(s, from);
    if relay != null {
      var (s1, plain) := Accept(s, relay, packet, env);
      SteadyPoints(s, s1, p);
      if plain.Success? && plain.value.Forwarded? {
        if plain.value.carried.destination == s.virtualIP {
          DeliverForwardedPoints(s1, plain.value.carried, relay, env, p);
        } else {
          SteadyPoints(s1, PassOn(s1, plain.value.carried, relay), p);
        }
      }
    }
  }

  lemma ReceivePoints(s: Node, packet: Packet, from: AddrPort, env: Env, p: Peer)
    requires s.Inv() && p in s.links
    ensures
      var r := Receive(s, packet, from, env);
      var moves := packet.header.version == T.VERSION && packet.header.kind == T.MSG_HANDSHAKE_INIT &&
                   Verifies(s, packet, p);
      p in r.links && r.links[p].endpoint == if moves then from else s.links[p].endpoint
  {
    hide Handlers.HandleProbe, Handlers.HandleForward, Handlers.Dispatch, Node.Grows, L.Reached, L.Of, Link.Consistent;
    var s1 := Hear(s, packet);
    if packet.header.version == T.VERSION {
      if packet.header.kind == T.MSG_PROBE {
        SteadyPoints(s1, HandleProbe(s1, packet, from, env), p);
      } else if packet.header.kind == T.MSG_FORWARD {
        HandleForwardPoints(s1, packet, from, env, p);
      } else {
        DispatchPoints(s1, packet, Source(from, PeerAt(s1, from), null), env, p);
      }
    }
  }

  lemma AddPeerPoints(s: Node, newcomer: Peer, endpoint: AddrPort, env: Env, p: Peer)
    requires s.Inv() && newcomer !in s.links && p in s.links
    ensures
      var r := AddPeer(s, newcomer, endpoint, env);
      var known := newcomer.deviceID in s.peers && s.peers[newcomer.deviceID] == p;
      p in r.links &&
      r.links[p].endpoint ==
        if known && s.links[p].state != Direct && endpoint.IsValid() then endpoint else s.links[p].endpoint
  {
    hide L.Reached, L.Of, Link.Consistent, Handlers.Follow, Handlers.AddPeer, Node.Grows;
    if newcomer.deviceID in s.peers {
      AddPeerKnown(s, newcomer, endpoint, env);
      FollowPoints(s, s.peers[newcomer.deviceID], endpoint, env, p);
    } else {
      AddPeerLink(s, newcomer, endpoint, env);
    }
  }

  lemma MovePoints(s: Node, id: DeviceId, endpoint: AddrPort, env: Env, p: Peer)
    requires s.Inv() && p in s.links
    ensures
      var r := SetPeerEndpoint(s, id, endpoint, env);
      p in r.links &&
      r.links[p].endpoint ==
        if id in s.peers && s.peers[id] == p && endpoint.IsValid() then endpoint else s.links[p].endpoint
  {
    hide L.Reached, L.Of, Link.Consistent, Handlers.Follow, Handlers.Punch, Node.Grows;
    if id in s.peers && endpoint.IsValid() && s.links[s.peers[id]].endpoint != endpoint {
      var s1 := Follow(s, s.peers[id], endpoint, env);
      FollowPoints(s, s.peers[id], endpoint, env, p);
      SteadyPoints(s1, Punch(s1, s.peers[id], env), p);
    }
  }

  // ----- and it is answered and found there -----

  /** Nobody else is known at an address. */
  ghost predicate Alone(s: Node, p: Peer, addr: AddrPort)
    requires s.Inv()
  {
    hide L.Reached, L.Of, Link.Consistent;
    forall d | d in s.peers && s.peers[d] != p :: s.links[s.peers[d]].endpoint != addr
  }

  /** A current peer that nobody shares a valid address with is the one who is found there. */
  lemma FoundAlone(s: Node, p: Peer, addr: AddrPort)
    requires s.Indexed() && p.deviceID in s.peers && s.peers[p.deviceID] == p && s.links[p].endpoint == addr
    requires addr.IsValid() && Alone(s, p, addr)
    ensures PeerAt(s, addr) == p
  {
    hide L.Reached, L.Of, Link.Consistent;
    assert Ends(s.links)[p] == addr;
    var q := s.byUDP[addr];
    var d :| d in s.peers && s.peers[d] == q;
    assert Ends(s.links)[q] == s.links[q].endpoint;
  }

  /** A peer whose init verifies is found at the address it came straight from, whoever was there before. */
  lemma InitIsFound(s: Node, packet: Packet, from: AddrPort, env: Env, p: Peer)
    requires s.Indexed() && Verifies(s, packet, p) && from.IsValid() && Alone(s, p, from)
    requires packet.header.version == T.VERSION && packet.header.kind == T.MSG_HANDSHAKE_INIT
    ensures
      var r := Receive(s, packet, from, env);
      p in r.links && r.links[p].endpoint == from && PeerAt(r, from) == p
  {
    hide Handlers.Receive, Indexes, L.Reached, L.Of, Link.Consistent, Node.Grows;
    var r := Receive(s, packet, from, env);
    ReceiveIndexes(s, packet, from, env);
    ReceiveSamePeers(s, packet, from, env);
    ReceivePoints(s, packet, from, env, p);
    forall d | d in r.peers && r.peers[d] != p ensures r.links[r.peers[d]].endpoint != from {
      ReceivePoints(s, packet, from, env, r.peers[d]);
    }
    FoundAlone(r, p, from);
  }

  // ----- what the link becomes -----

  /** A link that was answered where a packet came from: through its relay, or at its address. */
  function Answering(l: Link, src: Source): Link {
    if src.relay != null then l.AnswerVia(src.relay) else l.SetEndpoint(src.addr)
  }

  /** The daemon once it has drawn the key of its answer and turned the link. */
  ghost function Turned(s: Node, p: Peer, src: Source, env: Env): (r: Node)
    requires s.Inv() && p in s.links && (src.relay != null ==> src.relay in s.links)
    ensures r.Inv()
  {
    hide Node.Inv, Node.Grows;
    var drawn := s.Draw(env.ephemeral);
    if src.relay != null then AnswerVia(drawn, p, src.relay) else Follow(drawn, p, src.addr, env)
  }

  lemma TurnedLinks(s: Node, p: Peer, src: Source, env: Env)
    requires s.Inv() && p in s.links && (src.relay != null ==> src.relay in s.links)
    ensures
      var r := Turned(s, p, src, env);
      r.links == s.links[p := Answering(s.links[p], src)] && r.wire == s.wire && r.virtualIP == s.virtualIP
  {
    hide Node.Inv, Link.Consistent, Indexes;
  }

  /** What is written for a verified init: the response, and a keepalive once the link is open. */
  ghost function Responded(s: Node, p: Peer, session: Session, reply: Response): (r: Node)
    requires s.Inv() && p in s.links
    ensures r.Inv() && p in r.links
  {
    hide Node.Inv;
    SendPacket(Record(s, p, session), p, T.MSG_HANDSHAKE_RESPONSE, ResponseBody(reply))
  }

  lemma InitIsAnswered(s: Node, packet: Packet, src: Source, env: Env, p: Peer)
    requires s.Inv() && KnownSource(s, src) && Verifies(s, packet, p) && p in s.links
    ensures
      var (reply, session) := WriteResponse(packet.body.init, env.ephemeral);
      var turned := Turned(s, p, src, env);
      && p in turned.links
      && HandleInit(s, packet, src, env) == OpenLink(Responded(turned, p, session, reply), p, session, env)
  {
    hide L.Reached, L.Of, Link.Consistent, Handlers.SendPacket, Handlers.OpenLink, Handlers.Follow;
    hide Handlers.AnswerVia;
  }

  /** An init that verifies leaves its peer's link open on the session it asks for, pointed where it came from,
      with a keepalive's token waiting; of the other links only counters change. */
  lemma InitOpensLink(s: Node, packet: Packet, src: Source, env: Env, p: Peer, q: Peer)
    requires s.Inv() && KnownSource(s, src) && Verifies(s, packet, p) && p in s.links && q in s.links
    ensures
      var r := HandleInit(s, packet, src, env);
      var session := Crypto.Session(packet.body.init, env.ephemeral, false);
      q in r.links &&
      Still(r.links[q]) ==
        Still(if q == p then Answering(s.links[p], src).Open(session, env.now).Expect(env.token, env.now)
              else s.links[q])
  {
    hide Node.Inv, Node.Grows, Handlers.HandleInit, Turned, Still, Answering, Link.Open, Link.Expect;
    InitIsAnswered(s, packet, src, env, p);
    var (reply, session) := WriteResponse(packet.body.init, env.ephemeral);
    TurnedLinks(s, p, src, env);
    RepliedLinks(Turned(s, p, src, env), p, reply, session, env, q);
  }

  lemma RepliedLinks(s: Node, p: Peer, reply: Response, session: Session, env: Env, q: Peer)
    requires s.Inv() && p in s.links && q in s.links
    ensures
      var r := OpenLink(Responded(s, p, session, reply), p, session, env);
      q in r.links &&
      Still(r.links[q]) ==
        Still(if q == p then s.links[p].Open(session, env.now).Expect(env.token, env.now) else s.links[q])
  {
    hide Node.Inv, Node.Grows, Handlers.SendPacket, Handlers.OpenLink, Still, Link.Open, Link.Expect;
    var recorded := Record(s, p, session);
    var sent := Responded(s, p, session, reply);
    SendPacketOnlyCounts(recorded, p, T.MSG_HANDSHAKE_RESPONSE, ResponseBody(reply));
    OpenedLinks(sent, p, session, env, q);
    StillOpens(sent.links[p], s.links[p], session, env);
  }

  lemma OpenedLinks(s: Node, p: Peer, session: Session, env: Env, q: Peer)
    requires s.Inv() && p in s.links && q in s.links
    ensures
      var r := OpenLink(s, p, session, env);
      q in r.links &&
      Still(r.links[q]) ==
        Still(if q == p then s.links[p].Open(session, env.now).Expect(env.token, env.now) else s.links[q])
  {
    hide Node.Inv, Node.Steady, Link.Consistent, Handlers.SendPacket, Still, Link.Open, Link.Expect;
    var asked := s.Do(p, L.Open(session, env.now)).Do(p, L.Expect(env.token, env.now));
    SendPacketOnlyCounts(asked, p, T.MSG_KEEPALIVE, PingBody(env.token, false));
  }

  lemma StillOpens(l: Link, m: Link, session: Session, env: Env)
    requires Still(l) == Still(m)
    ensures
      Still(l.Open(session, env.now).Expect(env.token, env.now)) ==
      Still(m.Open(session, env.now).Expect(env.token, env.now))
  {
    assert l.(counter := 0) == m.(counter := 0);
  }

  /** A response to the pending handshake leaves the link open on the session, through the relay it came by if it
      came by one. */
  lemma ResponseOpensLink(s: Node, packet: Packet, src: Source, env: Env, q: Peer)
    requires s.Inv() && KnownSource(s, src) && src.peer != null && q in s.links && packet.body.ResponseBody?
    requires s.links[src.peer].handshake.Some?
    requires ReadResponse(s.links[src.peer].handshake.value, packet.body.response).Some?
    ensures
      var r, p := HandleResponse(s, packet, src, env), src.peer;
      var session := ReadResponse(s.links[p].handshake.value, packet.body.response).value;
      var l := if src.relay != null then s.links[p].AnswerVia(src.relay) else s.links[p];
      q in r.links &&
      Still(r.links[q]) ==
        Still(if q == p then l.Open(session, env.now).Expect(env.token, env.now) else s.links[q])
  {
    hide Node.Inv, Node.Grows, Link.Consistent, Handlers.OpenLink, Still, Link.Open, Link.Expect, Link.AnswerVia;
    var p := src.peer;
    var session := ReadResponse(s.links[p].handshake.value, packet.body.response).value;
    var s1 := if src.relay != null then AnswerVia(s, p, src.relay) else s;
    OpenedLinks(Record(s1, p, session), p, session, env, q);
  }

  // ----- and where the response goes -----

  /** The response to an init is the first thing written for it, by the way it came: to the address, or inside one
      forward to the relay; unless the init came straight from the address the link had, and that ran through a
      relay: then through that. */
  lemma ResponseGoesBack(s: Node, packet: Packet, src: Source, env: Env, p: Peer)
    requires s.Inv() && KnownSource(s, src) && Verifies(s, packet, p) && p in s.links
    ensures
      var r := HandleInit(s, packet, src, env);
      var response := Envelope(T.MSG_HANDSHAKE_RESPONSE, p.sender, 0,
                               ResponseBody(Response(packet.body.init, env.ephemeral)));
      if src.relay == null then
        src.addr.IsValid() && (s.links[p].endpoint != src.addr || s.links[p].via == null) ==>
          |r.wire| > |s.wire| && r.wire[|s.wire|] == Datagram(src.addr, response)
      else
        var l := s.links[src.relay];
        l.session.Some? && l.endpoint.IsValid() && s.virtualIP.V4? && p.virtualIP.V4? ==>
          |r.wire| > |s.wire| && r.wire[|s.wire|] == Wrapped(l, src.relay, s.virtualIP, p, response)
  {
    hide Node.Inv, Node.Grows, Handlers.HandleInit, Handlers.OpenLink, Turned, Answering, HasPath, Outgoing;
    InitIsAnswered(s, packet, src, env, p);
    var (reply, session) := WriteResponse(packet.body.init, env.ephemeral);
    var response := Envelope(T.MSG_HANDSHAKE_RESPONSE, p.sender, 0, ResponseBody(reply));
    var recorded := Record(Turned(s, p, src, env), p, session);
    TurnedLinks(s, p, src, env);
    SendsExactly(recorded, p, T.MSG_HANDSHAKE_RESPONSE, ResponseBody(reply));
    TurnedOut(s, recorded, p, src, response);
    OnlyMoreWritten(Responded(Turned(s, p, src, env), p, session, reply), p, session, env);
  }

  lemma OnlyMoreWritten(s: Node, p: Peer, session: Session, env: Env)
    requires s.Inv() && p in s.links
    ensures s.wire <= OpenLink(s, p, session, env).wire
  {
    hide Handlers.OpenLink, Node.Inv;
  }

  /** What goes out on the link once it is turned to where a packet came from. */
  lemma TurnedOut(s: Node, r: Node, p: Peer, src: Source, packet: Packet)
    requires s.Inv() && r.Inv() && KnownSource(s, src) && p in s.links && r.virtualIP == s.virtualIP
    requires r.links == s.links[p := Answering(s.links[p], src)]
    ensures
      if src.relay == null then
        src.addr.IsValid() && (s.links[p].endpoint != src.addr || s.links[p].via == null) ==>
          HasPath(r, p) && Outgoing(r, p, packet) == Datagram(src.addr, packet)
      else
        var l := s.links[src.relay];
        l.session.Some? && l.endpoint.IsValid() && s.virtualIP.V4? && p.virtualIP.V4? ==>
          HasPath(r, p) && Outgoing(r, p, packet) == Wrapped(l, src.relay, s.virtualIP, p, packet)
  {
    hide L.Reached, L.Of, Link.Consistent;
  }
}
