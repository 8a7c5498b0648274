/** What ends a session that a link holds, and nothing else does. The two ends of a link can so come to hold
    different sessions, and a run shows it. */
module Endings {
  import opened Handlers
  import opened Netip
  import opened Network
  import opened Nodes
  import opened Packets
  import opened Peers
  import opened Retry
  import opened Runs
  import opened Session
  import opened Wrappers
  import Crypto = Session
  import L = PeerRuns
  import T = Transport

  // ----- which events end it -----

  /** The packet a datagram brings to the handlers for a peer's packets, and where it came from: the packet
      itself, or what a forward that opens carries to this device. */
  ghost function Heeded(s: Node, packet: Packet, from: AddrPort, env: Env): Option<(Packet, Source)>
    requires s.Inv()
  {
    hide L.Reached, L.Of, Link.Consistent;
    var peer := PeerAt(s, from);
    if packet.header.version != T.VERSION || packet.header.kind == T.MSG_PROBE then None
    else if packet.header.kind != T.MSG_FORWARD then Some((packet, Source(from, peer, null)))
    else if peer == null then None
    else
      var plain := Accept(s, peer, packet, env).1;
      if plain.Failure? || !plain.value.Forwarded? then None
      else
        var carried := plain.value.carried;
        if carried.destination != s.virtualIP || carried.source !in s.byIP || s.byIP[carried.source] == peer then None
        else if carried.packet.header.version != T.VERSION then None
        else Some((carried.packet, Source(NO_ENDPOINT, s.byIP[carried.source], peer)))
  }

  /** An init that verifies as the peer's, or a close that comes where the peer's packets come. */
  ghost predicate Replaces(s: Node, packet: Packet, src: Source, p: Peer) {
    || (packet.header.kind == T.MSG_HANDSHAKE_INIT && packet.body.InitBody? && packet.body.device in s.peers &&
        s.peers[packet.body.device] == p && ReadInit(s.key, packet.body.init) == Some(p.transportKey))
    || (packet.header.kind == T.MSG_CLOSE && src.peer == p)
  }

  /** The events that end the session a link holds: an init or a close from the peer, silence, a new address,
      or being told to start over. */
  ghost predicate EndsSession(s: Node, e: Event, p: Peer)
    requires s.Inv() && p in s.links
  {
    match e
    case Arrive(_, packet, from, env) =>
      var heeded := Heeded(s, packet, from, env);
      heeded.Some? && Replaces(s, heeded.value.0, heeded.value.1, p)
    case TickOne(_, peer, _, env) => peer == p && s.links[p].Silent(env.now)
    case Add(_, newcomer, endpoint, _) =>
      && newcomer.deviceID in s.peers && s.peers[newcomer.deviceID] == p
      && s.links[p].state != Direct && endpoint.IsValid() && endpoint != s.links[p].endpoint
    case Move(_, id, endpoint, _) => id in s.peers && s.peers[id] == p && endpoint.IsValid() &&
      endpoint != s.links[p].endpoint
    case Retry(_, id, _) => id in s.peers && s.peers[id] == p
    case Restart(_, peers, _) => p in peers
    case _ => false
  }

  /** A link holds the session it held. */
  ghost predicate Spares(s: Node, r: Node, p: Peer) {
    p in s.links && p in r.links && r.links[p].session == s.links[p].session
  }

  // ----- what sending and beginning spare -----

  lemma CountersSpare(s: Node, r: Node, p: Peer)
    requires OnlyCounters(s, r) && p in s.links
    ensures Spares(s, r, p)
  {
    assert Still(r.links[p]).session == r.links[p].session && Still(s.links[p]).session == s.links[p].session;
  }

  /** An operation that leaves the session of the link it is on. */
  predicate Sparing(e: L.Op) {
    e.AnswerVia? || e.Seal? || e.Accept? || e.Heard? || e.Expect? || e.Measure? || e.Attempt?
  }

  lemma SparingAfter(l: Link, e: L.Op)
    requires Sparing(e)
    ensures L.After(l, e).session == l.session
  {
    hide Link.Consistent;
  }

  lemma DoSpares(s: Node, q: Peer, e: L.Op, p: Peer)
    requires s.Inv() && q in s.links && p in s.links && L.Allowed(s.links[q], e) && !e.SetEndpoint?
    requires e.RelayThrough? ==> e.relay in s.links
    requires e.AnswerVia? ==> e.carrier in s.links
    requires q != p || Sparing(e)
    ensures Spares(s, s.Do(q, e), p)
  {
    hide Node.Inv, Node.Steady, L.After, L.Allowed;
    if q == p { SparingAfter(s.links[q], e); }
  }

  lemma ForwardSpares(s: Node, relay: Peer, carried: Carried, p: Peer)
    requires s.Inv() && relay in s.links && p in s.links
    ensures Spares(s, Forward(s, relay, carried).0, p)
  {
    hide Node.Inv, Handlers.Forward;
    ForwardOnlyCounts(s, relay, carried);
    CountersSpare(s, Forward(s, relay, carried).0, p);
  }

  lemma DeliverSpares(s: Node, peer: Peer, packet: Packet, p: Peer)
    requires s.Inv() && peer in s.links && p in s.links
    ensures Spares(s, Deliver(s, peer, packet).0, p)
  {
    hide L.Reached, L.Of, Link.Consistent, Handlers.Forward;
    if s.links[peer].via != null {
      ForwardSpares(s, s.links[peer].via, Carried(INITIAL_HOP_LIMIT, s.virtualIP, peer.virtualIP, packet), p);
    }
  }

  lemma SendDataSpares(s: Node, peer: Peer, ip: seq<byte>, p: Peer)
    requires s.Inv() && peer in s.links && p in s.links
    ensures Spares(s, SendData(s, peer, ip).0, p)
  {
    hide Node.Inv, Link.Consistent, Handlers.Deliver;
    var l := s.links[peer];
    if l.session.Some? {
      var text := SealedText(l.session.value, T.MSG_DATA, peer.sender, l.counter, IPPacket(ip));
      DoSpares(s, peer, L.Seal(text), p);
      DeliverSpares(s.Do(peer, L.Seal(text)), peer, Packet(text.header, SealedBody(text)), p);
    }
  }

  lemma {:induction false} BroadcastSpares(s: Node, peers: seq<Peer>, ip: seq<byte>, p: Peer)
    requires s.Inv() && AllIn(peers, s.links.Keys) && p in s.links
    ensures Spares(s, Broadcast(s, peers, ip).0, p)
    decreases |peers|
  {
    hide Node.Inv, Handlers.SendData;
    if peers != [] {
      SendDataSpares(s, peers[0], ip, p);
      BroadcastSpares(SendData(s, peers[0], ip).0, peers[1..], ip, p);
    }
  }

  lemma PunchSpares(s: Node, peer: Peer, env: Env, p: Peer)
    requires s.Inv() && peer in s.links && p in s.links
    ensures Spares(s, Punch(s, peer, env), p)
  {
    hide Node.Inv, L.After;
    DoSpares(s, peer, L.Expect(env.token, env.now), p);
  }

  lemma KeepaliveSpares(s: Node, peer: Peer, env: Env, p: Peer)
    requires s.Inv() && peer in s.links && p in s.links
    ensures Spares(s, SendKeepalive(s, peer, env), p)
  {
    hide Node.Inv, L.After, Handlers.Deliver;
    var asked := s.Do(peer, L.Expect(env.token, env.now));
    DoSpares(s, peer, L.Expect(env.token, env.now), p);
    DeliverSpares(asked, peer, Envelope(T.MSG_KEEPALIVE, peer.sender, 0, PingBody(env.token, false)), p);
  }

  lemma BeginSpares(s: Node, peer: Peer, env: Env, p: Peer)
    requires s.Inv() && peer in s.links && p in s.links
    ensures Spares(s, BeginHandshake(s, peer, env), p)
  {
    hide Node.Inv, Handlers.BeginHandshake;
    BeginHandshakeCounts(s, peer, env);
    var r := BeginHandshake(s, peer, env);
    assert Still(r.links[p]).session == r.links[p].session && Still(s.links[p]).session == s.links[p].session;
    if p == peer && Opens(s, peer, env.now) {
      assert Still(s.links[p].Attempt(env.now).(handshake := r.links[p].handshake)).session == s.links[p].session;
    }
  }

  lemma TryRelaySpares(s: Node, peer: Peer, env: Env, p: Peer)
    requires s.Inv() && peer in s.links && p in s.links && p != peer
    ensures Spares(s, TryRelay(s, peer, env).0, p)
  {
    hide L.Reached, L.Of, Link.Consistent, Handlers.BeginHandshake, Handlers.Candidates, Node.Steady, L.After;
    var candidates := Candidates(s, peer);
    if candidates != {} {
      CandidateIsPeer(s, peer, Lowest(candidates));
      var relay := s.peers[Lowest(candidates)];
      DoSpares(s, peer, L.RelayThrough(relay), p);
      BeginSpares(s.Do(peer, L.RelayThrough(relay)), peer, env, p);
    }
  }

  lemma FollowSpares(s: Node, peer: Peer, addr: AddrPort, env: Env, p: Peer)
    requires s.Inv() && peer in s.links && p in s.links && (p != peer || s.links[p].endpoint == addr)
    ensures Spares(s, Follow(s, peer, addr, env), p)
  {
    hide Node.Inv, L.After, Indexes;
  }

  /** A link that follows to a new address has no session. */
  lemma FollowEnds(s: Node, peer: Peer, addr: AddrPort, env: Env)
    requires s.Inv() && peer in s.links && s.links[peer].endpoint != addr
    ensures peer in Follow(s, peer, addr, env).links && Follow(s, peer, addr, env).links[peer].session == None
  {
    hide Node.Inv, Indexes, Link.Consistent;
  }

  // ----- what arrives -----

  /** Opening a link gives it that session. */
  lemma OpenLinkOpens(s: Node, peer: Peer, session: Session, env: Env, p: Peer)
    requires s.Inv() && peer in s.links && p in s.links
    ensures
      var r := OpenLink(s, peer, session, env);
      p in r.links && if p == peer then r.links[p].session == Some(session) else Spares(s, r, p)
  {
    hide Node.Inv, Link.Consistent, Handlers.SendKeepalive;
    var open := s.Do(peer, L.Open(session, env.now));
    if p != peer { DoSpares(s, peer, L.Open(session, env.now), p); }
    KeepaliveSpares(open, peer, env, p);
  }

  /** An init that verifies gives its peer's link a new session, and any other changes none. */
  lemma HandleInitReplaces(s: Node, packet: Packet, src: Source, env: Env, p: Peer)
    requires s.Inv() && KnownSource(s, src) && p in s.links
    ensures
      var r := HandleInit(s, packet, src, env);
      p in r.links &&
      if packet.body.InitBody? && packet.body.device in s.peers && s.peers[packet.body.device] == p
         && ReadInit(s.key, packet.body.init) == Some(p.transportKey)
      then r.links[p].session == Some(Crypto.Session(packet.body.init, env.ephemeral, false))
      else Spares(s, r, p)
  {
    hide L.Reached, L.Of, Link.Consistent, Handlers.AnswerVia, Handlers.Follow, Handlers.SendPacket, Handlers.OpenLink;
    hide Node.Grows;
    if packet.body.InitBody? && packet.body.device in s.peers {
      var peer, init := s.peers[packet.body.device], packet.body.init;
      if ReadInit(s.key, init) == Some(peer.transportKey) {
        var (reply, session) := WriteResponse(init, env.ephemeral);
        var s1 := s.Draw(env.ephemeral);
        var s2 := if src.relay != null then AnswerVia(s1, peer, src.relay) else Follow(s1, peer, src.addr, env);
        if p != peer {
          if src.relay != null {
            AnswerViaSpares(s1, peer, src.relay, p);
          } else {
            FollowSpares(s1, peer, src.addr, env, p);
          }
        }
        AnswerReplaces(s2, peer, reply, session, env, p);
      }
    }
  }

  lemma AnswerViaSpares(s: Node, peer: Peer, relay: Peer, p: Peer)
    requires s.Inv() && peer in s.links && relay in s.links && p in s.links
    ensures Spares(s, AnswerVia(s, peer, relay), p)
  {
    hide Node.Inv, L.After;
    DoSpares(s, peer, L.AnswerVia(relay), p);
  }

  lemma AnswerReplaces(s: Node, peer: Peer, reply: Response, session: Session, env: Env, p: Peer)
    requires s.Inv() && peer in s.links && p in s.links
    ensures
      var r := OpenLink(SendPacket(Record(s, peer, session), peer, T.MSG_HANDSHAKE_RESPONSE, ResponseBody(reply)),
                        peer, session, env);
      p in r.links && if p == peer then r.links[p].session == Some(session) else Spares(s, r, p)
  {
    hide Node.Inv, Node.Grows, Handlers.Deliver, Handlers.OpenLink;
    var r := Record(s, peer, session);
    DeliverSpares(r, peer, Envelope(T.MSG_HANDSHAKE_RESPONSE, peer.sender, 0, ResponseBody(reply)), p);
    OpenLinkOpens(SendPacket(r, peer, T.MSG_HANDSHAKE_RESPONSE, ResponseBody(reply)), peer, session, env, p);
  }

  /** A response opens a link that holds no session, so it ends none. */
  lemma HandleResponseSpares(s: Node, packet: Packet, src: Source, env: Env, p: Peer)
    requires s.Inv() && KnownSource(s, src) && p in s.links && s.links[p].session.Some?
    ensures Spares(s, HandleResponse(s, packet, src, env), p)
  {
    hide L.Reached, L.Of, Handlers.AnswerVia, Handlers.OpenLink, Node.Grows;
    if packet.body.ResponseBody? && src.peer != null && s.links[src.peer].handshake.Some? {
      var peer := src.peer;
      var session := ReadResponse(s.links[peer].handshake.value, packet.body.response);
      if session.Some? {
        var s1 := if src.relay != null then AnswerVia(s, peer, src.relay) else s;
        if src.relay != null { AnswerViaSpares(s, peer, src.relay, p); }
        OpenLinkOpens(Record(s1, peer, session.value), peer, session.value, env, p);
      }
    }
  }

  lemma HandleKeepaliveSpares(s: Node, packet: Packet, src: Source, env: Env, p: Peer)
    requires s.Inv() && KnownSource(s, src) && p in s.links
    ensures Spares(s, HandleKeepalive(s, packet, src, env), p)
  {
    hide Node.Inv, L.After, Handlers.Forward;
    if packet.body.PingBody? && src.peer != null {
      if packet.body.reply {
        DoSpares(s, src.peer, L.Measure(packet.body.token, env.now), p);
      } else {
        DoSpares(s, src.peer, L.Heard(env.now), p);
        if src.relay != null {
          ForwardSpares(s.Do(src.peer, L.Heard(env.now)), src.relay,
                        Carried(INITIAL_HOP_LIMIT, s.virtualIP, src.peer.virtualIP,
                                Envelope(T.MSG_KEEPALIVE, src.peer.sender, 0, PingBody(packet.body.token, true))), p);
        }
      }
    }
  }

  lemma AcceptSpares(s: Node, peer: Peer, packet: Packet, env: Env, p: Peer)
    requires s.Inv() && peer in s.links && p in s.links
    ensures Spares(s, Accept(s, peer, packet, env).0, p)
  {
    hide Node.Inv, L.After;
    if Accept(s, peer, packet, env).1.Success? { DoSpares(s, peer, L.Accept(packet.body.text, env.now), p); }
  }

  lemma HandleDataSpares(s: Node, packet: Packet, src: Source, env: Env, p: Peer)
    requires s.Inv() && KnownSource(s, src) && p in s.links
    ensures Spares(s, HandleData(s, packet, src, env), p)
  {
    hide Node.Inv, Node.Grows, Handlers.Accept, Handlers.AnswerVia;
    if src.peer != null {
      AcceptSpares(s, src.peer, packet, env, p);
      if src.relay != null { AnswerViaSpares(Accept(s, src.peer, packet, env).0, src.peer, src.relay, p); }
    }
  }

  lemma HandleCloseEnds(s: Node, src: Source, p: Peer)
    requires s.Inv() && KnownSource(s, src) && p in s.links && s.links[p].session.Some?
    ensures
      var r := HandleClose(s, src);
      p in r.links && if src.peer == p then r.links[p].session == None else Spares(s, r, p)
  {
    hide L.Reached, L.Of;
    if src.peer != null && src.peer != p { DoSpares(s, src.peer, L.Fail, p); }
  }

  lemma DispatchEnds(s: Node, packet: Packet, src: Source, env: Env, p: Peer)
    requires s.Inv() && KnownSource(s, src) && p in s.links && s.links[p].session.Some?
    requires env.ephemeral != s.links[p].session.value.ephemeral
    ensures p in Dispatch(s, packet, src, env).links
    ensures Spares(s, Dispatch(s, packet, src, env), p) <==> !Replaces(s, packet, src, p)
  {
    hide Node.Inv, Node.Grows, KnownSource;
    hide Handlers.HandleInit, Handlers.HandleResponse, Handlers.HandleKeepalive, Handlers.HandleData;
    hide Handlers.HandleClose;
    var kind := packet.header.kind;
    if kind == T.MSG_HANDSHAKE_INIT {
      HandleInitReplaces(s, packet, src, env, p);
    } else if kind == T.MSG_HANDSHAKE_RESPONSE {
      HandleResponseSpares(s, packet, src, env, p);
    } else if kind == T.MSG_KEEPALIVE {
      HandleKeepaliveSpares(s, packet, src, env, p);
    } else if kind == T.MSG_DATA {
      HandleDataSpares(s, packet, src, env, p);
    } else if kind == T.MSG_CLOSE {
      HandleCloseEnds(s, src, p);
    }
  }

  lemma HandleProbeSpares(s: Node, packet: Packet, from: AddrPort, env: Env, p: Peer)
    requires s.Inv() && p in s.links
    ensures Spares(s, HandleProbe(s, packet, from, env), p)
  {
    hide Node.Inv, Node.Grows, Handlers.BeginHandshake, Handlers.PeerAt, L.After;
    var peer := PeerAt(s, from);
    if packet.body.PingBody? && peer != null {
      if packet.body.reply {
        DoSpares(s, peer, L.Measure(packet.body.token, env.now), p);
        BeginSpares(s.Do(peer, L.Measure(packet.body.token, env.now)), peer, env, p);
      } else {
        BeginSpares(s.Write(from, Envelope(T.MSG_PROBE, 0, 0, PingBody(packet.body.token, true))), peer, env, p);
      }
    }
  }

  lemma PassOnSpares(s: Node, carried: Carried, origin: Peer, p: Peer)
    requires s.Inv() && origin in s.links && p in s.links
    ensures Spares(s, PassOn(s, carried, origin), p)
  {
    hide L.Reached, L.Of, Link.Consistent, Handlers.Forward;
    if carried.hopLimit != 0 && carried.destination in s.byIP {
      ForwardSpares(s, s.byIP[carried.destination], carried.(hopLimit := carried.hopLimit - 1), p);
    }
  }

  lemma HandleForwardEnds(s: Node, packet: Packet, from: AddrPort, env: Env, p: Peer)
    requires s.Inv() && p in s.links && s.links[p].session.Some?
    requires packet.header.version == T.VERSION && packet.header.kind == T.MSG_FORWARD
    requires env.ephemeral != s.links[p].session.value.ephemeral
    ensures p in HandleForward(s, packet, from, env).links
    ensures
      var heeded := Heeded(s, packet, from, env);
      Spares(s, HandleForward(s, packet, from, env), p) <==>
        !(heeded.Some? && Replaces(s, heeded.value.0, heeded.value.1, p))
  {
    hide Handlers.Accept, Handlers.PassOn, Handlers.Dispatch, L.Reached, L.Of, Link.Consistent, Node.Grows, Replaces;
    var relay := PeerAt(s, from);
    if relay != null {
      var (s1, plain) := Accept(s, relay, packet, env);
      AcceptSpares(s, relay, packet, env, p);
      if plain.Success? && plain.value.Forwarded? {
        var carried := plain.value.carried;
        if carried.destination != s.virtualIP {
          PassOnSpares(s1, carried, relay, p);
        } else if carried.source in s.byIP && s.byIP[carried.source] != relay &&
          carried.packet.header.version == T.VERSION {
          var src := Source(NO_ENDPOINT, s.byIP[carried.source], relay);
          DispatchEnds(s1, carried.packet, src, env, p);
          SameReplaces(s, s1, carried.packet, src, p);
        }
      }
    }
  }

  lemma SameReplaces(s: Node, r: Node, packet: Packet, src: Source, p: Peer)
    requires r.peers == s.peers && r.key == s.key
    ensures Replaces(r, packet, src, p) <==> Replaces(s, packet, src, p)
  {}

  lemma ReceiveEnds(s: Node, packet: Packet, from: AddrPort, env: Env, p: Peer)
    requires s.Inv() && p in s.links && s.links[p].session.Some?
    requires env.ephemeral != s.links[p].session.value.ephemeral
    ensures p in Receive(s, packet, from, env).links
    ensures
      var heeded := Heeded(s, packet, from, env);
      Spares(s, Receive(s, packet, from, env), p) <==>
        !(heeded.Some? && Replaces(s, heeded.value.0, heeded.value.1, p))
  {
    hide Handlers.HandleProbe, Handlers.HandleForward, Handlers.Dispatch, Node.Grows, Node.Inv, Replaces;
    var s1 := Hear(s, packet);
    HeededAgain(s, packet, from, env);
    if packet.header.version == T.VERSION {
      if packet.header.kind == T.MSG_PROBE {
        HandleProbeSpares(s1, packet, from, env, p);
      } else if packet.header.kind == T.MSG_FORWARD {
        HandleForwardEnds(s1, packet, from, env, p);
      } else {
        DispatchEnds(s1, packet, Source(from, PeerAt(s1, from), null), env, p);
      }
    }
    var heeded := Heeded(s, packet, from, env);
    if heeded.Some? { SameReplaces(s, s1, heeded.value.0, heeded.value.1, p); }
  }

  lemma HeededAgain(s: Node, packet: Packet, from: AddrPort, env: Env)
    requires s.Inv()
    ensures Heeded(Hear(s, packet), packet, from, env) == Heeded(s, packet, from, env)
    ensures PeerAt(Hear(s, packet), from) == PeerAt(s, from)
  {
    hide Node.Grows, L.Reached, L.Of, Link.Consistent;
  }

  // ----- maintenance and the server's events -----

  lemma RestartLinkEnds(s: Node, peer: Peer, env: Env, p: Peer)
    requires s.Inv() && peer in s.links && p in s.links
    ensures
      var r := RestartLink(s, peer, env);
      p in r.links && if p == peer then r.links[p].session == None else Spares(s, r, p)
  {
    hide Node.Inv, Handlers.Punch, Link.Consistent;
    if p != peer { DoSpares(s, peer, L.Restart, p); }
    PunchSpares(s.Do(peer, L.Restart), peer, env, p);
  }

  lemma {:induction false} RestartLinksEnds(s: Node, peers: seq<Peer>, envs: seq<Env>, p: Peer)
    requires s.Inv() && AllIn(peers, s.links.Keys) && |envs| == |peers| && p in s.links
    ensures
      var r := RestartLinks(s, peers, envs);
      && p in r.links && (p !in peers ==> Spares(s, r, p))
      && (p in peers || s.links[p].session.None? ==> r.links[p].session == None)
    decreases |peers|
  {
    hide Node.Inv, Handlers.RestartLink;
    if peers != [] {
      RestartLinkEnds(s, peers[0], envs[0], p);
      RestartLinksEnds(RestartLink(s, peers[0], envs[0]), peers[1..], envs[1..], p);
      assert peers == [peers[0]] + peers[1..];
    }
  }

  lemma RetryPeerEnds(s: Node, id: DeviceId, env: Env, p: Peer)
    requires s.Inv() && p in s.links && s.links[p].session.Some?
    ensures p in RetryPeer(s, id, env).links
    ensures Spares(s, RetryPeer(s, id, env), p) <==> !(id in s.peers && s.peers[id] == p)
  {
    hide L.Reached, L.Of, Link.Consistent, Handlers.RestartLink, Handlers.BeginHandshake;
    if id in s.peers {
      RestartLinkEnds(s, s.peers[id], env, p);
      BeginSpares(RestartLink(s, s.peers[id], env), s.peers[id], env, p);
    }
  }

  lemma TickPeerEnds(s: Node, peer: Peer, keepalives: bool, env: Env, p: Peer)
    requires s.Inv() && peer in s.links && p in s.links && s.links[p].session.Some?
    ensures p in TickPeer(s, peer, keepalives, env).links
    ensures Spares(s, TickPeer(s, peer, keepalives, env), p) <==> !(peer == p && s.links[p].Silent(env.now))
  {
    hide Node.Inv, Node.Grows, Link.Consistent, L.After;
    hide Handlers.Punch, Handlers.SendKeepalive, Handlers.TryRelay, Handlers.BeginHandshake;
    var l := s.links[peer];
    if l.Silent(env.now) {
      RestartLinkEnds(s, peer, env, p);
    } else if l.session.Some? {
      if keepalives { KeepaliveSpares(s, peer, env, p); }
    } else if l.state == Failed || l.handshakes >= HandshakeBudget(l.via) {
      TryRelaySpares(s, peer, env, p);
      DoSpares(s, peer, L.Fail, p);
    } else if l.via != null {
      BeginSpares(s, peer, env, p);
    } else {
      PunchSpares(s, peer, env, p);
      BeginSpares(Punch(s, peer, env), peer, env, p);
    }
  }

  lemma SetPeerEndpointEnds(s: Node, id: DeviceId, endpoint: AddrPort, env: Env, p: Peer)
    requires s.Inv() && p in s.links && s.links[p].session.Some?
    ensures p in SetPeerEndpoint(s, id, endpoint, env).links
    ensures Spares(s, SetPeerEndpoint(s, id, endpoint, env), p) <==>
            !(id in s.peers && s.peers[id] == p && endpoint.IsValid() && endpoint != s.links[p].endpoint)
  {
    hide L.Reached, L.Of, Link.Consistent, Handlers.Follow, Handlers.Punch, Node.Grows;
    if id in s.peers && endpoint.IsValid() && s.links[s.peers[id]].endpoint != endpoint {
      var peer := s.peers[id];
      if peer == p { FollowEnds(s, peer, endpoint, env); } else { FollowSpares(s, peer, endpoint, env, p); }
      PunchSpares(Follow(s, peer, endpoint, env), peer, env, p);
    }
  }

  lemma AddPeerEnds(s: Node, newcomer: Peer, endpoint: AddrPort, env: Env, p: Peer)
    requires s.Inv() && newcomer !in s.links && p in s.links && s.links[p].session.Some?
    ensures p in AddPeer(s, newcomer, endpoint, env).links
    ensures Spares(s, AddPeer(s, newcomer, endpoint, env), p) <==>
            !(newcomer.deviceID in s.peers && s.peers[newcomer.deviceID] == p && s.links[p].state != Direct &&
              endpoint.IsValid() && endpoint != s.links[p].endpoint)
  {
    hide L.Reached, L.Of, Link.Consistent, Handlers.Follow, Handlers.AddPeer, Node.Grows;
    if newcomer.deviceID in s.peers {
      var existing := s.peers[newcomer.deviceID];
      AddPeerKnown(s, newcomer, endpoint, env);
      if existing != p || s.links[existing].endpoint == endpoint {
        FollowSpares(s, existing, endpoint, env, p);
      } else {
        FollowEnds(s, existing, endpoint, env);
      }
    } else {
      AddPeerLink(s, newcomer, endpoint, env);
    }
  }

  lemma OtherActsSpare(net: Net, e: Event, p: Peer)
    requires Possible(net, e) && p in net[e.at].links && (e.Remove? || e.SendIP? || e.Shout? || e.Take?)
    ensures Spares(net[e.at], Act(net, e), p)
  {
    hide L.Reached, L.Of, Link.Consistent, Handlers.SendData, Handlers.Broadcast, Indexes, Deliverable, Node.Grows;
    var s := net[e.at];
    match e
    case SendIP(_, destination, ip) => if destination in s.byIP { SendDataSpares(s, s.byIP[destination], ip, p); }
    case Shout(_, peers, ip) => BroadcastSpares(s, peers, ip, p);
    case _ =>
  }

  /** A link that holds a session holds it still after an event, exactly unless the event is one of those that
      end it. (The ephemeral key drawn to answer an init is not the one the session was made with.) */
  lemma HeldUntilEnded(net: Net, e: Event, p: Peer)
    requires Possible(net, e) && p in net[e.at].links && net[e.at].links[p].session.Some?
    requires e.Arrive? ==> e.env.ephemeral != net[e.at].links[p].session.value.ephemeral
    ensures p in Act(net, e).links
    ensures Act(net, e).links[p].session == net[e.at].links[p].session <==> !EndsSession(net[e.at], e, p)
  {
    hide Node.Inv, Node.Grows, Heeded, Deliverable;
    hide Handlers.Receive, Handlers.TickPeer, Handlers.AddPeer, Handlers.SetPeerEndpoint, Handlers.RetryPeer;
    hide Handlers.RestartLinks, Handlers.Broadcast, Handlers.RemovePeer, Handlers.Dequeue, Handlers.Send;
    var s := net[e.at];
    match e
    case Arrive(_, packet, from, env) => ReceiveEnds(s, packet, from, env, p);
    case TickOne(_, peer, keepalives, env) => TickPeerEnds(s, peer, keepalives, env, p);
    case Add(_, newcomer, endpoint, env) => AddPeerEnds(s, newcomer, endpoint, env, p);
    case Move(_, id, endpoint, env) => SetPeerEndpointEnds(s, id, endpoint, env, p);
    case Retry(_, id, env) => RetryPeerEnds(s, id, env, p);
    case Restart(_, peers, envs) => RestartLinksEnds(s, peers, envs, p);
    case _ => OtherActsSpare(net, e, p);
  }

  /** Two daemons' links hold the two ends of one session. */
  ghost predicate Together(net: Net, a: DeviceId, atA: Peer, b: DeviceId, atB: Peer) {
    && a in net && b in net && atA in net[a].links && atB in net[b].links
    && net[a].links[atA].session.Some?
    && net[b].links[atB].session == Some(net[a].links[atA].session.value.OtherEnd())
  }

  /** So two ends that hold one session hold it after any event, exactly unless it happens at one of them and
      ends it there. */
  lemma TogetherUntilEnded(net: Net, e: Event, a: DeviceId, atA: Peer, b: DeviceId, atB: Peer)
    requires Possible(net, e) && Together(net, a, atA, b, atB) && a != b
    requires e.Arrive? ==> e.env.ephemeral != net[a].links[atA].session.value.ephemeral
    ensures Together(Step(net, e), a, atA, b, atB) <==>
            !(e.at == a && EndsSession(net[a], e, atA)) && !(e.at == b && EndsSession(net[b], e, atB))
  {
    hide Possible, Act, EndsSession, Node.Inv;
    var session := net[a].links[atA].session.value;
    if e.at == a {
      HeldUntilEnded(net, e, atA);
      OtherEndIsOne(session);
    } else if e.at == b {
      HeldUntilEnded(net, e, atB);
    }
  }

  lemma OtherEndIsOne(s: Session)
    ensures forall t: Session :: t.OtherEnd() == s.OtherEnd() ==> t == s
  {}

  // ----- a run whose ends differ -----

  /** The daemons a and b of any two ids, at any two addresses. */
  ghost predicate Pair(start: Net, a: DeviceId, atA: Peer, b: DeviceId, atB: Peer, endA: AddrPort, endB: AddrPort) {
    && AllBlank(start) && a in start && b in start && Less(a, b) && |a| <= 255
    && atA.deviceID == b && atA.transportKey == Key(b) && atB.deviceID == a && atB.transportKey == Key(a)
    && endA.IsValid() && endB.IsValid()
  }

  /** For any two daemons there is a run after which each holds a session with the other, and the two are not
      the ends of one: the network repeats an init, and the one that answers answers again. */
  lemma EndsMayDiffer(start: Net, a: DeviceId, atA: Peer, b: DeviceId, atB: Peer, endA: AddrPort, endB: AddrPort,
                      env: Env, first: Env, second: Env) returns (events: seq<Event>, late: Event)
    requires Pair(start, a, atA, b, atB, endA, endB) && first.ephemeral != second.ephemeral
    ensures
      var init := Init(Key(a), Key(b), env.ephemeral);
      var packet := Envelope(T.MSG_HANDSHAKE_INIT, atA.sender, 0, InitBody(a, init));
      var before, after := Run(start, events), Run(start, events + [late]);
      && late == Arrive(b, packet, endA, second) && Sent(before[a], endB, packet)
      && Together(before, a, atA, b, atB) && !Together(after, a, atA, b, atB)
      && atA in after[a].links && after[a].links[atA].session == Some(Crypto.Session(init, first.ephemeral, true))
      && atB in after[b].links && after[b].links[atB].session == Some(Crypto.Session(init, second.ephemeral, false))
  {
    hide Run, Node.Inv, Deliverable, Sent, Blank;
    var init := Init(Key(a), Key(b), env.ephemeral);
    var packet := Envelope(T.MSG_HANDSHAKE_INIT, atA.sender, 0, InitBody(a, init));
    LessAsymmetric(a, b);
    RunNothing(start);
    events := OneIsAdded(start, [], a, atA, endB, env);
    events := OneIsAdded(start, events, b, atB, endA, env);
    var strangers := Run(start, events);
    events := Shake(start, events, a, atA, endB, b, atB, endA, env, first);
    var shaken := Run(start, events);
    FindsStill(strangers[b], shaken[b], atB, endA);
    SentIsDeliverable(shaken, a, endB, packet);
    var more := InitArrives(start, events, b, atB, endA, packet, init, second);
    late := Arrive(b, packet, endA, second);
  }
}
