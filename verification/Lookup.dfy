/** The lookup tables agree with the peer map after every operation of the mesh. */
module Lookup {
  import opened Handlers
  import opened Netip
  import opened Network
  import opened Nodes
  import opened Packets
  import opened Peers
  import opened Session
  import opened Wrappers
  import L = PeerRuns
  import T = Transport

  /** Neither the tables, nor the peers, nor any address differs. */
  ghost predicate SameAddresses(s: Node, r: Node) {
    r.peers == s.peers && r.byIP == s.byIP && r.byUDP == s.byUDP && Ends(r.links) == Ends(s.links)
  }

  lemma SameKeepsIndex(s: Node, r: Node)
    requires s.Indexed() && r.Inv() && SameAddresses(s, r)
    ensures r.Indexed()
  {
    hide L.Reached, L.Of, Link.Consistent;
  }

  lemma FollowIndexes(s: Node, peer: Peer, addr: AddrPort, env: Env)
    requires s.Indexed() && peer in s.links
    ensures Follow(s, peer, addr, env).Indexed()
  {
    hide L.Reached, L.Of, Link.Consistent;
  }

  lemma HandleInitIndexes(s: Node, packet: Packet, src: Source, env: Env)
    requires s.Indexed() && KnownSource(s, src)
    ensures HandleInit(s, packet, src, env).Indexed()
  {
    hide Handlers.AnswerVia, Handlers.Follow, Handlers.SendPacket, Handlers.OpenLink, Indexes;
    hide L.Reached, L.Of, Link.Consistent;
    if packet.body.InitBody? && packet.body.device in s.peers {
      var peer, init := s.peers[packet.body.device], packet.body.init;
      if ReadInit(s.key, init) == Some(peer.transportKey) {
        var (reply, session) := WriteResponse(init, env.ephemeral);
        var s1 := s.Draw(env.ephemeral);
        SameKeepsIndex(s, s1);
        var s2 := if src.relay != null then AnswerVia(s1, peer, src.relay) else Follow(s1, peer, src.addr, env);
        if src.relay != null { SameKeepsIndex(s1, s2); } else { FollowIndexes(s1, peer, src.addr, env); }
        AnsweredIndexes(s2, peer, reply, session, env);
      }
    }
  }

  lemma AnsweredIndexes(s: Node, peer: Peer, reply: Response, session: Session, env: Env)
    requires s.Indexed() && peer in s.links
    ensures OpenLink(SendPacket(Record(s, peer, session), peer, T.MSG_HANDSHAKE_RESPONSE, ResponseBody(reply)),
                     peer, session, env).Indexed()
  {
    hide Handlers.SendPacket, Handlers.OpenLink, Indexes, L.Reached, L.Of, Link.Consistent;
    var s1 := Record(s, peer, session);
    var s2 := SendPacket(s1, peer, T.MSG_HANDSHAKE_RESPONSE, ResponseBody(reply));
    SameKeepsIndex(s, s1);
    SameKeepsIndex(s1, s2);
    SameKeepsIndex(s2, OpenLink(s2, peer, session, env));
  }

  lemma HandleResponseIndexes(s: Node, packet: Packet, src: Source, env: Env)
    requires s.Indexed() && KnownSource(s, src)
    ensures HandleResponse(s, packet, src, env).Indexed()
  {
    hide Handlers.AnswerVia, Handlers.OpenLink, Indexes, L.Reached, L.Of, Link.Consistent;
    SameKeepsIndex(s, HandleResponse(s, packet, src, env));
  }

  lemma HandleDataSame(s: Node, packet: Packet, src: Source, env: Env)
    requires s.Inv() && KnownSource(s, src)
    ensures SameAddresses(s, HandleData(s, packet, src, env))
  {
    hide Handlers.Accept, Handlers.AnswerVia, Handlers.Enqueue, Node.Inv;
  }

  lemma DispatchIndexes(s: Node, packet: Packet, src: Source, env: Env)
    requires s.Indexed() && KnownSource(s, src)
    ensures Dispatch(s, packet, src, env).Indexed()
  {
    hide Handlers.HandleInit, Handlers.HandleResponse, Handlers.HandleKeepalive, Handlers.HandleClose;
    hide Handlers.HandleData;
    hide Indexes, L.Reached, L.Of, Link.Consistent, L.After, L.Allowed;
    var kind := packet.header.kind;
    if kind == T.MSG_HANDSHAKE_INIT {
      HandleInitIndexes(s, packet, src, env);
    } else if kind == T.MSG_HANDSHAKE_RESPONSE {
      HandleResponseIndexes(s, packet, src, env);
    } else if kind == T.MSG_DATA {
      HandleDataSame(s, packet, src, env);
      SameKeepsIndex(s, HandleData(s, packet, src, env));
    } else {
      SameKeepsIndex(s, Dispatch(s, packet, src, env));
    }
  }

  lemma ReceiveIndexes(s: Node, packet: Packet, from: AddrPort, env: Env)
    requires s.Indexed()
    ensures Receive(s, packet, from, env).Indexed()
  {
    hide Handlers.Dispatch, Handlers.HandleProbe, Handlers.HandleForward, Indexes, L.Reached, L.Of, Link.Consistent;
    var s1 := Hear(s, packet);
    SameKeepsIndex(s, s1);
    if packet.header.version == T.VERSION {
      if packet.header.kind == T.MSG_FORWARD {
        HandleForwardIndexes(s1, packet, from, env);
      } else if packet.header.kind == T.MSG_PROBE {
        SameKeepsIndex(s1, HandleProbe(s1, packet, from, env));
      } else {
        DispatchIndexes(s1, packet, Source(from, PeerAt(s1, from), null), env);
      }
    }
  }

  lemma DeliverForwardedIndexes(s: Node, carried: Carried, relay: Peer, env: Env)
    requires s.Indexed() && relay in s.links
    ensures DeliverForwarded(s, carried, relay, env).Indexed()
  {
    hide Handlers.Dispatch, Indexes, L.Reached, L.Of, Link.Consistent;
    if carried.source in s.byIP && s.byIP[carried.source] != relay {
      DispatchIndexes(s, carried.packet, Source(NO_ENDPOINT, s.byIP[carried.source], relay), env);
    }
  }

  lemma HandleForwardIndexes(s: Node, packet: Packet, from: AddrPort, env: Env)
    requires s.Indexed()
    ensures HandleForward(s, packet, from, env).Indexed()
  {
    hide Handlers.DeliverForwarded, Handlers.PassOn, Handlers.Accept, Indexes, L.Reached, L.Of, Link.Consistent;
    var relay := PeerAt(s, from);
    if relay != null {
      var (s1, plain) := Accept(s, relay, packet, env);
      SameKeepsIndex(s, s1);
      if plain.Success? && plain.value.Forwarded? {
        var carried := plain.value.carried;
        if carried.destination != s.virtualIP {
          SameKeepsIndex(s1, PassOn(s1, carried, relay));
        } else {
          DeliverForwardedIndexes(s1, carried, relay, env);
        }
      }
    }
  }

  lemma ActIndexes(net: Net, e: Event)
    requires Possible(net, e) && net[e.at].Indexed()
    ensures Act(net, e).Indexed()
  {
    hide Handlers.Receive, Handlers.AddPeer, Handlers.SetPeerEndpoint, Handlers.RemovePeer, Handlers.TickPeer;
    hide Handlers.RetryPeer, Handlers.RestartLinks, Handlers.Broadcast, Handlers.Send, Handlers.Dequeue;
    hide Node.Inv, Node.Indexed, Node.Grows, Deliverable;
    var s := net[e.at];
    match e
    case Arrive(_, packet, from, env) => ReceiveIndexes(s, packet, from, env);
    case Add(_, newcomer, endpoint, env) => AddPeerIndexes(s, newcomer, endpoint, env);
    case Remove(_, id, env) => RemovePeerIndexes(s, id, env);
    case Move(_, id, endpoint, env) => SetPeerEndpointIndexes(s, id, endpoint, env);
    case _ => SameKeepsIndex(s, Act(net, e));
  }

  lemma RemovePeerIndexes(s: Node, id: DeviceId, env: Env)
    requires s.Indexed()
    ensures RemovePeer(s, id, env).Indexed()
  {
    hide Indexes, Handlers.Reindex, L.Reached, L.Of, Link.Consistent;
  }

  lemma SetPeerEndpointIndexes(s: Node, id: DeviceId, endpoint: AddrPort, env: Env)
    requires s.Indexed()
    ensures SetPeerEndpoint(s, id, endpoint, env).Indexed()
  {
    hide Handlers.Follow, Handlers.Punch, Indexes, L.Reached, L.Of, Link.Consistent;
    if id in s.peers {
      FollowIndexes(s, s.peers[id], endpoint, env);
      var s1 := Follow(s, s.peers[id], endpoint, env);
      SameKeepsIndex(s1, Punch(s1, s.peers[id], env));
    }
  }

  lemma AddPeerIndexes(s: Node, peer: Peer, endpoint: AddrPort, env: Env)
    requires s.Indexed() && peer !in s.links
    ensures AddPeer(s, peer, endpoint, env).Indexed()
  {
    hide Handlers.Follow, Handlers.Punch, Handlers.Reindex, Indexes, L.Reached, L.Of, Link.Consistent;
    if peer.deviceID in s.peers {
      FollowIndexes(s, s.peers[peer.deviceID], endpoint, env);
    } else {
      var s2 := Reindex(Enrol(s, peer, endpoint), env.tables);
      SameKeepsIndex(s2, Punch(s2, peer, env));
    }
  }

  lemma BlankIndexed(s: Node, d: DeviceId)
    requires Blank(s, d)
    ensures s.Indexed()
  {}

  /** In every reachable state of every daemon the tables agree with the peers. */
  lemma {:induction false} AlwaysIndexed(start: Net, events: seq<Event>)
    requires AllBlank(start)
    ensures forall d | d in start :: Run(start, events)[d].Indexed()
  {
    hide Deliverable, Act, Node.Indexed, Node.Inv;
    if events == [] {
      forall d | d in start ensures start[d].Indexed() { BlankIndexed(start[d], d); }
    } else {
      var before, e := Run(start, events[..|events| - 1]), events[|events| - 1];
      AlwaysIndexed(start, events[..|events| - 1]);
      if Possible(before, e) { ActIndexes(before, e); }
    }
  }

  /** With distinct addresses, a lookup gives a peer exactly when it is a current peer holding that
      valid address. */
  lemma LookupsAreExact(s: Node, p: Peer, ip: Addr, end: AddrPort)
    requires s.Indexed()
    requires forall d, e | d in s.peers && e in s.peers && d != e ::
               (s.peers[d].virtualIP.IsValid() ==> s.peers[d].virtualIP != s.peers[e].virtualIP) &&
               (s.links[s.peers[d]].endpoint.IsValid() ==>
                  s.links[s.peers[d]].endpoint != s.links[s.peers[e]].endpoint)
    ensures (ip in s.byIP && s.byIP[ip] == p) <==>
            (p in s.peers.Values && p.virtualIP == ip && ip.IsValid())
    ensures (end in s.byUDP && s.byUDP[end] == p) <==>
            (p in s.peers.Values && s.links[p].endpoint == end && end.IsValid())
  {
    if p in s.peers.Values {
      var d :| d in s.peers && s.peers[d] == p;
      if ip in s.byIP {
        var e :| e in s.peers && s.peers[e] == s.byIP[ip];
      }
      if end in s.byUDP {
        var e :| e in s.peers && s.peers[e] == s.byUDP[end];
      }
    }
  }
}
