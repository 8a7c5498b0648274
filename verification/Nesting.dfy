/** When a daemon wraps a forward in a forward: exactly when it passes on one that a peer asked it to carry. A
    run over the network shows that it happens. */
module Nesting {
  import opened Handlers
  import opened Lookup
  import opened Netip
  import opened Network
  import opened Nodes
  import opened Packets
  import opened Peers
  import opened Relaying
  import opened Runs
  import opened Session
  import opened Wrappers
  import Crypto = Session
  import L = PeerRuns
  import T = Transport

  /** A nested forward is among what a daemon has written since. */
  ghost predicate WroteNested(s: Node, r: Node) {
    exists k | |s.wire| <= k < |r.wire| :: Nested(r.wire[k].packet)
  }

  /** What passing on takes: a hop left, and the destination another peer on an open direct link. */
  ghost predicate GoesOn(s: Node, carried: Carried, origin: Peer)
    requires s.Inv()
  {
    && carried.destination != s.virtualIP && carried.hopLimit > 0 && carried.source.V4? && carried.destination.V4?
    && carried.destination in s.byIP && s.byIP[carried.destination] in s.links
    && s.byIP[carried.destination] != origin && s.links[s.byIP[carried.destination]].state == Direct
    && s.links[s.byIP[carried.destination]].endpoint.IsValid()
  }

  /** A peer's forward arrives and opens under a new counter, it carries a forward, and that goes on. */
  ghost predicate AsksToNest(s: Node, e: Event)
    requires s.Inv()
  {
    && e.Arrive? && e.packet.header.version == T.VERSION && e.packet.header.kind == T.MSG_FORWARD
    && PeerAt(s, e.from) != null
    && var plain := s.links[PeerAt(s, e.from)].Accept(e.packet.header, e.packet.body, e.env.now).1;
       && plain.Success? && plain.value.Forwarded? && plain.value.carried.packet.header.kind == T.MSG_FORWARD
       && GoesOn(s, plain.value.carried, PeerAt(s, e.from))
  }

  // ----- what else is written -----

  /** Nothing written since is a nested forward. */
  ghost predicate Flatly(s: Node, r: Node) {
    s.wire <= r.wire && !WroteNested(s, r)
  }

  lemma FlatTwice(s: Node, m: Node, r: Node)
    requires Flatly(s, m) && Flatly(m, r)
    ensures Flatly(s, r)
  {
    forall k | |s.wire| <= k < |r.wire| ensures !Nested(r.wire[k].packet) {
      if k < |m.wire| { assert r.wire[k] == m.wire[k]; }
    }
  }

  lemma ForwardFlat(s: Node, relay: Peer, carried: Carried)
    requires s.Inv() && relay in s.links
    ensures carried.packet.header.kind != T.MSG_FORWARD ==> Flatly(s, Forward(s, relay, carried).0)
    ensures
      carried.packet.header.kind == T.MSG_FORWARD ==>
        (WroteNested(s, Forward(s, relay, carried).0) <==>
          carried.source.V4? && carried.destination.V4? && s.links[relay].session.Some? &&
            s.links[relay].endpoint.IsValid())
  {
    hide Node.Inv, Node.Grows, Link.Consistent, L.Allowed, L.After;
    var r := Forward(s, relay, carried).0;
    if |r.wire| > |s.wire| { assert r.wire[|s.wire|].packet.body.SealedBody?; }
  }

  lemma DeliverFlat(s: Node, peer: Peer, packet: Packet)
    requires s.Inv() && peer in s.links && packet.header.kind != T.MSG_FORWARD && !Nested(packet)
    ensures Flatly(s, Deliver(s, peer, packet).0)
  {
    hide L.Reached, L.Of, Link.Consistent, Handlers.Forward;
    if s.links[peer].via != null {
      ForwardFlat(s, s.links[peer].via, Carried(INITIAL_HOP_LIMIT, s.virtualIP, peer.virtualIP, packet));
    }
  }

  lemma SendPacketFlat(s: Node, peer: Peer, kind: byte, body: Body)
    requires s.Inv() && peer in s.links && kind != T.MSG_FORWARD && !body.SealedBody?
    ensures Flatly(s, SendPacket(s, peer, kind, body))
  {
    hide Node.Inv, Handlers.Deliver;
    DeliverFlat(s, peer, Envelope(kind, peer.sender, 0, body));
  }

  lemma SendDataFlat(s: Node, peer: Peer, ip: seq<byte>)
    requires s.Inv() && peer in s.links
    ensures Flatly(s, SendData(s, peer, ip).0)
  {
    hide Node.Inv, Link.Consistent, Handlers.Deliver, L.After;
    var l := s.links[peer];
    if l.session.Some? {
      var text := SealedText(l.session.value, T.MSG_DATA, peer.sender, l.counter, IPPacket(ip));
      DeliverFlat(s.Do(peer, L.Seal(text)), peer, Packet(text.header, SealedBody(text)));
    }
  }

  lemma {:induction false} BroadcastFlat(s: Node, peers: seq<Peer>, ip: seq<byte>)
    requires s.Inv() && AllIn(peers, s.links.Keys)
    ensures Flatly(s, Broadcast(s, peers, ip).0)
    decreases |peers|
  {
    hide Node.Inv, Handlers.SendData, WroteNested;
    if peers == [] {
      NothingFlat(s, s);
    } else {
      var s1 := SendData(s, peers[0], ip).0;
      SendDataFlat(s, peers[0], ip);
      BroadcastFlat(s1, peers[1..], ip);
      FlatTwice(s, s1, Broadcast(s1, peers[1..], ip).0);
    }
  }

  /** With nothing written, nothing nested is. */
  lemma NothingFlat(s: Node, r: Node)
    requires r.wire == s.wire
    ensures Flatly(s, r)
  {}

  /** A packet that is no forward, written as it is. */
  lemma WriteFlat(s: Node, to: AddrPort, packet: Packet)
    requires s.Inv() && !packet.body.SealedBody?
    ensures Flatly(s, s.Write(to, packet))
  {
    hide Node.Inv, Node.Steady;
  }

  lemma PunchFlat(s: Node, peer: Peer, env: Env)
    requires s.Inv() && peer in s.links
    ensures Flatly(s, Punch(s, peer, env))
  {
    hide Node.Inv, Node.Steady, L.After;
  }

  lemma KeepaliveFlat(s: Node, peer: Peer, env: Env)
    requires s.Inv() && peer in s.links
    ensures Flatly(s, SendKeepalive(s, peer, env))
  {
    hide Node.Inv, Node.Steady, L.After, Handlers.SendPacket;
    SendPacketFlat(s.Do(peer, L.Expect(env.token, env.now)), peer, T.MSG_KEEPALIVE, PingBody(env.token, false));
  }

  lemma BeginFlat(s: Node, peer: Peer, env: Env)
    requires s.Inv() && peer in s.links
    ensures Flatly(s, BeginHandshake(s, peer, env))
  {
    hide Node.Inv, Node.Steady, L.After, Handlers.SendPacket;
    if Opens(s, peer, env.now) && |s.device| <= 255 {
      var h := WriteInit(s.key, peer.transportKey, env.ephemeral);
      SendPacketFlat(s.Draw(env.ephemeral).Do(peer, L.Attempt(Some(h), env.now)), peer, T.MSG_HANDSHAKE_INIT,
                     InitBody(s.device, h.init));
    }
  }

  lemma TryRelayFlat(s: Node, peer: Peer, env: Env)
    requires s.Inv() && peer in s.links
    ensures Flatly(s, TryRelay(s, peer, env).0)
  {
    hide L.Reached, L.Of, Link.Consistent, Handlers.BeginHandshake, L.After, Node.Grows;
    if Candidates(s, peer) != {} {
      BeginFlat(s.Do(peer, L.RelayThrough(s.peers[Lowest(Candidates(s, peer))])), peer, env);
    }
  }

  lemma OpenLinkFlat(s: Node, peer: Peer, session: Session, env: Env)
    requires s.Inv() && peer in s.links
    ensures Flatly(s, OpenLink(s, peer, session, env))
  {
    hide Node.Inv, Node.Steady, L.After, Handlers.SendKeepalive;
    KeepaliveFlat(s.Do(peer, L.Open(session, env.now)), peer, env);
  }

  // ----- what arrives -----

  lemma HandleInitFlat(s: Node, packet: Packet, src: Source, env: Env)
    requires s.Inv() && KnownSource(s, src)
    ensures Flatly(s, HandleInit(s, packet, src, env))
  {
    hide L.Reached, L.Of, Link.Consistent, Handlers.AnswerVia, Handlers.SendPacket, Handlers.OpenLink;
    hide Handlers.Follow, WroteNested, Node.Grows;
    NothingFlat(s, s);
    if packet.body.InitBody? && packet.body.device in s.peers {
      var peer, init := s.peers[packet.body.device], packet.body.init;
      if ReadInit(s.key, init) == Some(peer.transportKey) {
        var (reply, session) := WriteResponse(init, env.ephemeral);
        var s1 := s.Draw(env.ephemeral);
        var s2 := if src.relay != null then AnswerVia(s1, peer, src.relay) else Follow(s1, peer, src.addr, env);
        if src.relay != null { AnswerViaQuiet(s1, peer, src.relay); } else { FollowQuiet(s1, peer, src.addr, env); }
        var s3 := Record(s2, peer, session);
        NothingFlat(s, s3);
        AnswerFlat(s3, peer, reply, session, env);
        FlatTwice(s, s3, HandleInit(s, packet, src, env));
      }
    }
  }

  lemma AnswerViaQuiet(s: Node, peer: Peer, relay: Peer)
    requires s.Inv() && peer in s.links && relay in s.links
    ensures AnswerVia(s, peer, relay).wire == s.wire
  {
    hide Node.Inv, Node.Steady, L.After;
  }

  lemma FollowQuiet(s: Node, peer: Peer, addr: AddrPort, env: Env)
    requires s.Inv() && peer in s.links
    ensures Follow(s, peer, addr, env).wire == s.wire
  {
    hide Node.Inv, Node.Stays, L.After, Indexes;
  }

  lemma AnswerFlat(s: Node, peer: Peer, reply: Response, session: Session, env: Env)
    requires s.Inv() && peer in s.links
    ensures
      Flatly(s, OpenLink(SendPacket(s, peer, T.MSG_HANDSHAKE_RESPONSE, ResponseBody(reply)), peer, session, env))
  {
    hide Node.Inv, Handlers.SendPacket, Handlers.OpenLink, Node.Grows, WroteNested;
    var sent := SendPacket(s, peer, T.MSG_HANDSHAKE_RESPONSE, ResponseBody(reply));
    SendPacketFlat(s, peer, T.MSG_HANDSHAKE_RESPONSE, ResponseBody(reply));
    OpenLinkFlat(sent, peer, session, env);
    FlatTwice(s, sent, OpenLink(sent, peer, session, env));
  }

  lemma HandleResponseFlat(s: Node, packet: Packet, src: Source, env: Env)
    requires s.Inv() && KnownSource(s, src)
    ensures Flatly(s, HandleResponse(s, packet, src, env))
  {
    hide L.Reached, L.Of, Link.Consistent, Handlers.OpenLink, WroteNested, L.After;
    NothingFlat(s, s);
    if packet.body.ResponseBody? && src.peer != null && s.links[src.peer].handshake.Some? {
      var peer := src.peer;
      var session := ReadResponse(s.links[peer].handshake.value, packet.body.response);
      if session.Some? {
        var s1 := Record(if src.relay != null then AnswerVia(s, peer, src.relay) else s, peer, session.value);
        NothingFlat(s, s1);
        OpenLinkFlat(s1, peer, session.value, env);
        FlatTwice(s, s1, OpenLink(s1, peer, session.value, env));
      }
    }
  }

  lemma HandleKeepaliveFlat(s: Node, packet: Packet, src: Source, env: Env)
    requires s.Inv() && KnownSource(s, src)
    ensures Flatly(s, HandleKeepalive(s, packet, src, env))
  {
    hide Node.Inv, L.After, Handlers.Forward, WroteNested, Node.Grows;
    NothingFlat(s, s);
    if packet.body.PingBody? && src.peer != null {
      if packet.body.reply {
        NothingFlat(s, s.Do(src.peer, L.Measure(packet.body.token, env.now)));
      } else {
        var s1 := s.Do(src.peer, L.Heard(env.now));
        NothingFlat(s, s1);
        ReplyFlat(s1, src, src.peer.sender, packet.body.token);
        FlatTwice(s, s1, HandleKeepalive(s, packet, src, env));
      }
    }
  }

  lemma ReplyFlat(s: Node, src: Source, sender: uint64, token: uint64)
    requires s.Inv() && KnownSource(s, src)
    ensures Flatly(s, ReplyTo(s, src, T.MSG_KEEPALIVE, sender, PingBody(token, true)))
  {
    hide Node.Inv, Handlers.Forward, WroteNested, Node.Grows;
    var packet := Envelope(T.MSG_KEEPALIVE, sender, 0, PingBody(token, true));
    if src.relay == null {
      WriteFlat(s, src.addr, packet);
    } else {
      ForwardFlat(s, src.relay, Carried(INITIAL_HOP_LIMIT, s.virtualIP, src.peer.virtualIP, packet));
    }
  }

  /** Opening a packet writes nothing. */
  lemma AcceptWritesNothing(s: Node, peer: Peer, packet: Packet, env: Env)
    requires s.Inv() && peer in s.links
    ensures Accept(s, peer, packet, env).0.wire == s.wire
  {
    hide Node.Inv, Node.Steady, L.After;
  }

  lemma DispatchFlat(s: Node, packet: Packet, src: Source, env: Env)
    requires s.Inv() && KnownSource(s, src)
    ensures Flatly(s, Dispatch(s, packet, src, env))
  {
    hide Handlers.HandleInit, Handlers.HandleResponse, Handlers.HandleKeepalive, Node.Inv, WroteNested, Node.Grows;
    hide Handlers.HandleData, Handlers.HandleClose;
    var kind := packet.header.kind;
    NothingFlat(s, s);
    if kind == T.MSG_HANDSHAKE_INIT {
      HandleInitFlat(s, packet, src, env);
    } else if kind == T.MSG_HANDSHAKE_RESPONSE {
      HandleResponseFlat(s, packet, src, env);
    } else if kind == T.MSG_KEEPALIVE {
      HandleKeepaliveFlat(s, packet, src, env);
    } else if kind == T.MSG_DATA {
      HandleDataFlat(s, packet, src, env);
    } else if kind == T.MSG_CLOSE {
      HandleCloseFlat(s, src);
    }
  }

  lemma HandleDataFlat(s: Node, packet: Packet, src: Source, env: Env)
    requires s.Inv() && KnownSource(s, src)
    ensures Flatly(s, HandleData(s, packet, src, env))
  {
    hide Node.Inv, Node.Grows, L.After, Handlers.Accept, WroteNested;
    NothingFlat(s, s);
    if src.peer != null {
      AcceptWritesNothing(s, src.peer, packet, env);
      NothingFlat(s, HandleData(s, packet, src, env));
    }
  }

  lemma HandleCloseFlat(s: Node, src: Source)
    requires s.Inv() && KnownSource(s, src)
    ensures Flatly(s, HandleClose(s, src))
  {
    hide Node.Inv, Node.Steady, L.After, WroteNested;
    NothingFlat(s, HandleClose(s, src));
  }

  lemma HandleProbeFlat(s: Node, packet: Packet, from: AddrPort, env: Env)
    requires s.Inv()
    ensures Flatly(s, HandleProbe(s, packet, from, env))
  {
    hide Node.Inv, Node.Grows, Handlers.BeginHandshake, Handlers.PeerAt, L.After, WroteNested;
    var peer := PeerAt(s, from);
    NothingFlat(s, s);
    if packet.body.PingBody? {
      var s1 :=
        if !packet.body.reply then s.Write(from, Envelope(T.MSG_PROBE, 0, 0, PingBody(packet.body.token, true)))
        else if peer != null then s.Do(peer, L.Measure(packet.body.token, env.now))
        else s;
      if packet.body.reply {
        NothingFlat(s, s1);
      } else {
        WriteFlat(s, from, Envelope(T.MSG_PROBE, 0, 0, PingBody(packet.body.token, true)));
      }
      if peer != null {
        BeginFlat(s1, peer, env);
        FlatTwice(s, s1, BeginHandshake(s1, peer, env));
      }
    }
  }

  /** What is passed on is nested exactly if it is a forward, and goes on. */
  lemma PassOnNests(s: Node, carried: Carried, origin: Peer)
    requires s.Inv() && origin in s.links && carried.destination != s.virtualIP
    ensures s.wire <= PassOn(s, carried, origin).wire
    ensures
      WroteNested(s, PassOn(s, carried, origin)) <==>
        carried.packet.header.kind == T.MSG_FORWARD && GoesOn(s, carried, origin)
  {
    hide L.Reached, L.Of, Handlers.Forward, WroteNested;
    NothingFlat(s, s);
    if carried.hopLimit != 0 && carried.destination in s.byIP {
      ForwardFlat(s, s.byIP[carried.destination], carried.(hopLimit := carried.hopLimit - 1));
    }
  }

  /** Opening a packet moves neither the tables nor where a packet goes on. */
  lemma AcceptedGoesOn(s: Node, peer: Peer, packet: Packet, env: Env, carried: Carried)
    requires s.Inv() && peer in s.links
    ensures
      var r := Accept(s, peer, packet, env).0;
      GoesOn(r, carried, peer) <==> GoesOn(s, carried, peer)
  {
    hide L.Reached, L.Of, Link.Consistent, Node.Grows;
    var r := Accept(s, peer, packet, env).0;
    forall p | p in s.links ensures p in r.links && r.links[p].state == s.links[p].state &&
      r.links[p].endpoint == s.links[p].endpoint {
    }
  }

  /** What was written is nested or not, whatever was done before without writing. */
  lemma WrittenAfter(s: Node, m: Node, r: Node)
    requires m.wire == s.wire
    ensures WroteNested(s, r) <==> WroteNested(m, r)
  {}

  lemma HandleForwardNests(s: Node, packet: Packet, from: AddrPort, env: Env)
    requires s.Inv() && packet.header.version == T.VERSION && packet.header.kind == T.MSG_FORWARD
    ensures WroteNested(s, HandleForward(s, packet, from, env)) <==> AsksToNest(s, Arrive([], packet, from, env))
  {
    hide Node.Inv, Handlers.DeliverForwarded, Handlers.PassOn, WroteNested, GoesOn, Node.Grows, Link.Accept, L.After;
    var peer := PeerAt(s, from);
    NothingFlat(s, s);
    if peer != null {
      var (s1, plain) := Accept(s, peer, packet, env);
      AcceptWritesNothing(s, peer, packet, env);
      NothingFlat(s, s1);
      WrittenAfter(s, s1, HandleForward(s, packet, from, env));
      if plain.Success? && plain.value.Forwarded? {
        var carried := plain.value.carried;
        AcceptedGoesOn(s, peer, packet, env, carried);
        if carried.destination == s.virtualIP {
          DeliverForwardedFlat(s1, carried, peer, env);
          HereStops(s, carried, peer);
        } else {
          PassOnNests(s1, carried, peer);
        }
      }
    }
  }

  lemma HereStops(s: Node, carried: Carried, peer: Peer)
    requires s.Inv() && carried.destination == s.virtualIP
    ensures !GoesOn(s, carried, peer)
  {}

  lemma DeliverForwardedFlat(s: Node, carried: Carried, relay: Peer, env: Env)
    requires s.Inv() && relay in s.links
    ensures Flatly(s, DeliverForwarded(s, carried, relay, env))
  {
    hide L.Reached, L.Of, Link.Consistent, Handlers.Dispatch, WroteNested, Node.Grows;
    NothingFlat(s, s);
    if carried.source in s.byIP && s.byIP[carried.source] != relay {
      DispatchFlat(s, carried.packet, Source(NO_ENDPOINT, s.byIP[carried.source], relay), env);
    }
  }

  lemma ReceiveNests(s: Node, packet: Packet, from: AddrPort, env: Env)
    requires s.Inv()
    ensures WroteNested(s, Receive(s, packet, from, env)) <==> AsksToNest(s, Arrive([], packet, from, env))
  {
    hide Node.Inv, Handlers.HandleProbe, Handlers.HandleForward, Handlers.Dispatch, WroteNested, Node.Grows, AsksToNest;
    var s1 := Hear(s, packet);
    NothingFlat(s, s1);
    WrittenAfter(s, s1, Receive(s, packet, from, env));
    HeardAsks(s, packet, from, env);
    if packet.header.version == T.VERSION {
      if packet.header.kind == T.MSG_PROBE {
        HandleProbeFlat(s1, packet, from, env);
      } else if packet.header.kind == T.MSG_FORWARD {
        HandleForwardNests(s1, packet, from, env);
      } else {
        DispatchFlat(s1, packet, Source(from, PeerAt(s1, from), null), env);
      }
    }
  }

  lemma HeardAsks(s: Node, packet: Packet, from: AddrPort, env: Env)
    requires s.Inv()
    ensures AsksToNest(Hear(s, packet), Arrive([], packet, from, env)) <==> AsksToNest(s, Arrive([], packet, from, env))
    ensures
      packet.header.version != T.VERSION || packet.header.kind != T.MSG_FORWARD ==>
        !AsksToNest(s, Arrive([], packet, from, env))
  {
    hide Node.Grows, L.Reached, L.Of, Link.Consistent;
  }

  // ----- maintenance and the server's events -----

  lemma RestartLinkFlat(s: Node, peer: Peer, env: Env)
    requires s.Inv() && peer in s.links
    ensures Flatly(s, RestartLink(s, peer, env))
  {
    hide Node.Inv, Handlers.Punch, Node.Steady, L.After;
    PunchFlat(s.Do(peer, L.Restart), peer, env);
  }

  lemma {:induction false} RestartLinksFlat(s: Node, peers: seq<Peer>, envs: seq<Env>)
    requires s.Inv() && AllIn(peers, s.links.Keys) && |envs| == |peers|
    ensures Flatly(s, RestartLinks(s, peers, envs))
    decreases |peers|
  {
    hide Node.Inv, Handlers.RestartLink, WroteNested;
    if peers == [] {
      NothingFlat(s, s);
    } else {
      var s1 := RestartLink(s, peers[0], envs[0]);
      RestartLinkFlat(s, peers[0], envs[0]);
      RestartLinksFlat(s1, peers[1..], envs[1..]);
      FlatTwice(s, s1, RestartLinks(s1, peers[1..], envs[1..]));
    }
  }

  lemma RetryPeerFlat(s: Node, id: DeviceId, env: Env)
    requires s.Inv()
    ensures Flatly(s, RetryPeer(s, id, env))
  {
    hide L.Reached, L.Of, Link.Consistent, Handlers.RestartLink, Handlers.BeginHandshake, Node.Grows, WroteNested;
    NothingFlat(s, s);
    if id in s.peers {
      var s1 := RestartLink(s, s.peers[id], env);
      RestartLinkFlat(s, s.peers[id], env);
      BeginFlat(s1, s.peers[id], env);
      FlatTwice(s, s1, RetryPeer(s, id, env));
    }
  }

  lemma TickPeerFlat(s: Node, peer: Peer, keepalives: bool, env: Env)
    requires s.Inv() && peer in s.links
    ensures Flatly(s, TickPeer(s, peer, keepalives, env))
  {
    hide Node.Inv, Node.Grows, Link.Consistent, L.After, WroteNested;
    hide Handlers.Punch, Handlers.SendKeepalive, Handlers.TryRelay, Handlers.BeginHandshake;
    var l := s.links[peer];
    NothingFlat(s, s);
    if l.Silent(env.now) {
      RestartLinkFlat(s, peer, env);
    } else if l.session.Some? {
      KeepaliveFlat(s, peer, env);
    } else if l.state == Failed || l.handshakes >= HandshakeBudget(l.via) {
      TryRelayFlat(s, peer, env);
      NothingFlat(s, s.Do(peer, L.Fail));
    } else if l.via != null {
      BeginFlat(s, peer, env);
    } else {
      PunchFlat(s, peer, env);
      BeginFlat(Punch(s, peer, env), peer, env);
      FlatTwice(s, Punch(s, peer, env), TickPeer(s, peer, keepalives, env));
    }
  }

  lemma SetPeerEndpointFlat(s: Node, id: DeviceId, endpoint: AddrPort, env: Env)
    requires s.Inv()
    ensures Flatly(s, SetPeerEndpoint(s, id, endpoint, env))
  {
    hide L.Reached, L.Of, Link.Consistent, Handlers.Punch, Node.Grows, WroteNested, L.After;
    NothingFlat(s, s);
    if id in s.peers && endpoint.IsValid() && s.links[s.peers[id]].endpoint != endpoint {
      var s1 := Follow(s, s.peers[id], endpoint, env);
      NothingFlat(s, s1);
      PunchFlat(s1, s.peers[id], env);
      FlatTwice(s, s1, SetPeerEndpoint(s, id, endpoint, env));
    }
  }

  lemma AddPeerFlat(s: Node, newcomer: Peer, endpoint: AddrPort, env: Env)
    requires s.Inv() && newcomer !in s.links
    ensures Flatly(s, AddPeer(s, newcomer, endpoint, env))
  {
    hide L.Reached, L.Of, Link.Consistent, Handlers.AddPeer, Handlers.Punch, Node.Grows, WroteNested, L.After;
    NothingFlat(s, s);
    if newcomer.deviceID in s.peers {
      AddPeerKnown(s, newcomer, endpoint, env);
      NothingFlat(s, AddPeer(s, newcomer, endpoint, env));
    } else {
      AddPeerNew(s, newcomer, endpoint, env);
      var s1 := Reindex(Enrol(s, newcomer, endpoint), env.tables);
      NothingFlat(s, s1);
      PunchFlat(s1, newcomer, env);
      FlatTwice(s, s1, AddPeer(s, newcomer, endpoint, env));
    }
  }

  lemma OtherActsFlat(net: Net, e: Event)
    requires Possible(net, e) && (e.Remove? || e.SendIP? || e.Shout? || e.Take?)
    ensures Flatly(net[e.at], Act(net, e))
  {
    hide L.Reached, L.Of, Link.Consistent, Handlers.SendData, Handlers.Broadcast, Indexes, Deliverable, Node.Grows;
    hide WroteNested;
    var s := net[e.at];
    NothingFlat(s, s);
    if e.Shout? {
      BroadcastFlat(s, e.peers, e.ip);
    } else if e.SendIP? && e.destination in s.byIP {
      SendDataFlat(s, s.byIP[e.destination], e.ip);
    } else {
      NothingFlat(s, Act(net, e));
    }
  }

  /** A daemon writes a nested forward at an event, exactly if the event is a peer's asking it to carry one. */
  lemma NestsExactlyIfAsked(net: Net, e: Event)
    requires Possible(net, e)
    ensures WroteNested(net[e.at], Act(net, e)) <==> AsksToNest(net[e.at], e)
  {
    hide Node.Inv, Node.Grows, Deliverable, WroteNested;
    hide Handlers.Receive, Handlers.TickPeer, Handlers.AddPeer, Handlers.SetPeerEndpoint, Handlers.RetryPeer;
    hide Handlers.RestartLinks, Handlers.Broadcast, Handlers.RemovePeer, Handlers.Dequeue, Handlers.Send;
    var s := net[e.at];
    match e
    case Arrive(_, packet, from, env) => ReceiveNests(s, packet, from, env);
    case TickOne(_, peer, keepalives, env) => TickPeerFlat(s, peer, keepalives, env);
    case Add(_, newcomer, endpoint, env) => AddPeerFlat(s, newcomer, endpoint, env);
    case Move(_, id, endpoint, env) => SetPeerEndpointFlat(s, id, endpoint, env);
    case Retry(_, id, env) => RetryPeerFlat(s, id, env);
    case Restart(_, peers, envs) => RestartLinksFlat(s, peers, envs);
    case _ => OtherActsFlat(net, e);
  }

  /** A nested forward is among what a daemon has written. */
  ghost predicate HasNested(s: Node) {
    exists k | 0 <= k < |s.wire| :: Nested(s.wire[k].packet)
  }

  /** The k-th event of a run asks a daemon to nest. */
  ghost predicate AskedAt(start: Net, events: seq<Event>, d: DeviceId, k: nat)
    requires k < |events|
  {
    var net := Run(start, events[..k]);
    events[k].at == d && Possible(net, events[k]) && AsksToNest(net[d], events[k])
  }

  ghost predicate Asked(start: Net, events: seq<Event>, d: DeviceId) {
    exists k: nat | k < |events| :: AskedAt(start, events, d, k)
  }

  /** So a daemon writes a nested forward in a run, exactly if some event of the run asks it to. */
  lemma {:induction false} NestedExactlyIfAsked(start: Net, events: seq<Event>, d: DeviceId)
    requires AllBlank(start) && d in start
    ensures HasNested(Run(start, events)[d]) <==> Asked(start, events, d)
  {
    if events == [] {
      assert Blank(start[d], d);
    } else {
      hide Act, Possible, AsksToNest, HasNested, Asked, WroteNested, Run;
      var last := |events| - 1;
      NestedExactlyIfAsked(start, events[..last], d);
      AskedBefore(start, events, d);
      LastNests(start, events, d);
    }
  }

  lemma LastNests(start: Net, events: seq<Event>, d: DeviceId)
    requires events != [] && d in start
    ensures
      var last := |events| - 1;
      HasNested(Run(start, events)[d]) <==> HasNested(Run(start, events[..last])[d]) || AskedAt(start, events, d, last)
  {
    hide Act, Possible, AsksToNest, HasNested, WroteNested;
    var last := |events| - 1;
    var net, e := Run(start, events[..last]), events[last];
    if Possible(net, e) && e.at == d {
      NestsExactlyIfAsked(net, e);
      NestedOrBefore(net[d], Act(net, e));
    }
  }

  lemma NestedOrBefore(s: Node, r: Node)
    requires s.wire <= r.wire
    ensures HasNested(r) <==> HasNested(s) || WroteNested(s, r)
  {
    forall k | 0 <= k < |s.wire| ensures r.wire[k] == s.wire[k] {}
  }

  lemma AskedBefore(start: Net, events: seq<Event>, d: DeviceId)
    requires events != []
    ensures
      var last := |events| - 1;
      Asked(start, events, d) <==> Asked(start, events[..last], d) || AskedAt(start, events, d, last)
  {
    hide Run, Possible, AsksToNest;
    var last := |events| - 1;
    forall k: nat | k < last ensures AskedAt(start, events, d, k) <==> AskedAt(start, events[..last], d, k) {
      assert events[..last][..k] == events[..k];
    }
  }

  // ----- and it happens -----

  /** The last a daemon wrote is a forward around this one. */
  ghost predicate EndsInNested(s: Node, inner: Packet) {
    && s.wire != [] && Nested(s.wire[|s.wire| - 1].packet)
    && s.wire[|s.wire| - 1].packet.body.text.plain.carried.packet == inner
  }

  /** Two outsiders with sessions of their own at an honest relay: whatever forward the one wraps, the relay
      seals it on to the other in a forward of its own. */
  lemma NestingHappens(start: Net, b: DeviceId, p: Peer, at: AddrPort, q: Peer, end: AddrPort, inner: Packet, env: Env)
    returns (events: seq<Event>)
    requires AllBlank(start) && b in start && p.deviceID !in start && q.deviceID !in start
    requires Apart(p, at, q, end) && p.transportKey == Key(p.deviceID) && q.transportKey == Key(q.deviceID)
    requires start[b].virtualIP != q.virtualIP
    requires inner.header.kind == T.MSG_FORWARD && forall a | a in Atoms(inner) :: !Ours(start, a)
    ensures EndsInNested(Run(start, events)[b], inner)
  {
    hide Handlers.Receive, Node.Inv, Node.Grows, Deliverable, Run, Sent;
    var init := Init(Key(p.deviceID), Key(b), env.ephemeral);
    events := OutsidersMeet(start, b, p, at, q, end, env);
    var net := Run(start, events);
    var theirs := Crypto.Session(init, env.ephemeral, true);
    var carried := Carried(1, p.virtualIP, q.virtualIP, inner);
    var packet := SealedPacket(theirs, T.MSG_FORWARD, 0, 0, Forwarded(carried));
    OutsiderSeals(net, theirs, carried);
    events := Then(start, events, Arrive(b, packet, at, env));
    ForwardGoesOn(net[b], p, at, q, end, theirs, carried, env);
  }

  /** What an outsider seals under a session of its own, the network can deliver. */
  lemma OutsiderSeals(net: Net, theirs: Session, carried: Carried)
    requires Holder(theirs) !in net && forall a | a in Atoms(carried.packet) :: !Ours(net, a)
    ensures Deliverable(net, SealedPacket(theirs, T.MSG_FORWARD, 0, 0, Forwarded(carried)))
  {}

  /** The outsiders have opened sessions with the relay. */
  lemma OutsidersMeet(start: Net, b: DeviceId, p: Peer, at: AddrPort, q: Peer, end: AddrPort, env: Env)
    returns (events: seq<Event>)
    requires AllBlank(start) && b in start && p.deviceID !in start && q.deviceID !in start
    requires Apart(p, at, q, end) && p.transportKey == Key(p.deviceID) && q.transportKey == Key(q.deviceID)
    ensures
      var r := Run(start, events)[b];
      && Knows(r, p, at) && Knows(r, q, end) && r.virtualIP == start[b].virtualIP
      && JustOpened(r.links[p], Crypto.Session(Init(Key(p.deviceID), Key(b), env.ephemeral), env.ephemeral, false))
      && JustOpened(r.links[q], Crypto.Session(Init(Key(q.deviceID), Key(b), env.ephemeral), env.ephemeral, false))
  {
    hide Node.Inv, Run, Deliverable, Sent, Kept, Knows, Blank;
    RunNothing(start);
    events := TwoAreAdded(start, [], b, p, at, q, end, env);
    events := OutsiderOpens(start, events, b, p, at, q, end, env);
    events := OutsiderOpens(start, events, b, q, end, p, at, env);
  }

  lemma OutsiderOpens(start: Net, events: seq<Event>, b: DeviceId, p: Peer, at: AddrPort, q: Peer, end: AddrPort,
                      env: Env)
    returns (more: seq<Event>)
    requires b in start && p.deviceID !in start && p.transportKey == Key(p.deviceID) && p != q
    requires
      var s := Run(start, events)[b];
      Knows(s, p, at) && Knows(s, q, end) && s.links[p].via == null && s.key == Key(b)
    ensures
      var s, r := Run(start, events)[b], Run(start, more)[b];
      && Knows(r, p, at) && Knows(r, q, end) && r.key == Key(b) && r.virtualIP == s.virtualIP
      && JustOpened(r.links[p], Crypto.Session(Init(Key(p.deviceID), Key(b), env.ephemeral), env.ephemeral, false))
      && r.links[q] == s.links[q]
  {
    hide Node.Inv, Run, Sent, SameAddresses;
    var init := Init(Key(p.deviceID), Key(b), env.ephemeral);
    var packet := Envelope(T.MSG_HANDSHAKE_INIT, 0, 0, InitBody(p.deviceID, init));
    var s := Run(start, events)[b];
    assert Atoms(packet) == {InitAtom(init)};
    more := InitArrives(start, events, b, p, at, packet, init, env);
    KnowsStill(s, Run(start, more)[b], p, at);
    KnowsStill(s, Run(start, more)[b], q, end);
  }

  lemma ForwardGoesOn(s: Node, p: Peer, at: AddrPort, q: Peer, end: AddrPort, theirs: Session, carried: Carried,
                      env: Env)
    requires Knows(s, p, at) && Knows(s, q, end) && Apart(p, at, q, end) && q.virtualIP != s.virtualIP
    requires JustOpened(s.links[p], theirs.OtherEnd()) && s.links[q].session.Some? && s.links[q].via == null
    requires carried.hopLimit == 1 && carried.source == p.virtualIP && carried.destination == q.virtualIP
    requires carried.packet.header.kind == T.MSG_FORWARD
    ensures EndsInNested(Receive(s, SealedPacket(theirs, T.MSG_FORWARD, 0, 0, Forwarded(carried)), at, env),
                         carried.packet)
  {
    hide Handlers.Receive, L.Reached, L.Of;
    CarriesAnything(s, at, theirs, 0, 0, carried, env);
    var r := Receive(s, SealedPacket(theirs, T.MSG_FORWARD, 0, 0, Forwarded(carried)), at, env);
    assert |r.wire| == |s.wire| + 1;
  }
}
