/** Who a daemon's peers are: exactly the events that change it, and that a device the server took out is gone
    until it is added again: nothing is sent to it and nothing of its is handed up. */
module Removing {
  import opened Handlers
  import opened Lookup
  import opened Netip
  import opened Network
  import opened Nodes
  import opened Packets
  import opened Peers
  import opened Session
  import opened Wrappers
  import L = PeerRuns
  import T = Transport

  // ----- who the peers are -----

  /** The peers after an event: one more if a device is new, one fewer if it is removed. */
  function PeersAfter(peers: map<DeviceId, Peer>, e: Event): map<DeviceId, Peer> {
    match e
    case Add(_, newcomer, _, _) => if newcomer.deviceID in peers then peers else peers[newcomer.deviceID := newcomer]
    case Remove(_, id, _) => peers - {id}
    case _ => peers
  }

  lemma PeersAre(net: Net, e: Event)
    requires Possible(net, e)
    ensures Act(net, e).peers == PeersAfter(net[e.at].peers, e)
  {
    hide Node.Inv, Node.Stays, Deliverable, Indexes, L.After;
    hide Handlers.Receive, Handlers.TickPeer, Handlers.AddPeer, Handlers.RetryPeer, Handlers.SetPeerEndpoint;
    hide Handlers.RestartLinks, Handlers.Broadcast, Handlers.Send;
    match e
    case Arrive(_, packet, from, env) => ReceiveSamePeers(net[e.at], packet, from, env);
    case Add(_, newcomer, endpoint, env) => AddPeerPeers(net[e.at], newcomer, endpoint, env);
    case Move(_, id, endpoint, env) => SetPeerEndpointSamePeers(net[e.at], id, endpoint, env);
    case _ =>
  }

  lemma FollowSamePeers(s: Node, peer: Peer, addr: AddrPort, env: Env)
    requires s.Inv() && peer in s.links
    ensures
      var r := Follow(s, peer, addr, env);
      r.peers == s.peers && r.queued == s.queued && r.wire == s.wire
  {
    hide Node.Inv, Node.Stays, Indexes, L.After;
  }

  lemma SetPeerEndpointSamePeers(s: Node, id: DeviceId, endpoint: AddrPort, env: Env)
    requires s.Inv()
    ensures SetPeerEndpoint(s, id, endpoint, env).peers == s.peers
  {
    hide L.Reached, L.Of, Link.Consistent, Handlers.Follow, Handlers.Punch, Node.Stays;
    if id in s.peers { FollowSamePeers(s, s.peers[id], endpoint, env); }
  }

  lemma AddPeerPeers(s: Node, newcomer: Peer, endpoint: AddrPort, env: Env)
    requires s.Inv() && newcomer !in s.links
    ensures
      AddPeer(s, newcomer, endpoint, env).peers ==
        if newcomer.deviceID in s.peers then s.peers else s.peers[newcomer.deviceID := newcomer]
  {
    hide L.Reached, L.Of, Link.Consistent, Handlers.Follow, Handlers.AddPeer, Node.Grows;
    if newcomer.deviceID in s.peers {
      AddPeerKnown(s, newcomer, endpoint, env);
      FollowSamePeers(s, s.peers[newcomer.deviceID], endpoint, env);
    } else {
      AddPeerLink(s, newcomer, endpoint, env);
    }
  }

  // ----- what is queued, and of whom -----

  /** At most one accepted packet was queued, and that of a peer in the tables; the peers are the same. */
  ghost predicate Queues(s: Node, r: Node) {
    && r.peers == s.peers
    && (r.queued == s.queued ||
        exists k: nat :: r.queued == s.queued + [k] && k < |r.log| && r.log[k].peer in s.byIP.Values + s.byUDP.Values)
  }

  lemma HandleInitQueues(s: Node, packet: Packet, src: Source, env: Env)
    requires s.Inv() && KnownSource(s, src)
    ensures HandleInit(s, packet, src, env).peers == s.peers && HandleInit(s, packet, src, env).queued == s.queued
  {
    hide L.Reached, L.Of, Link.Consistent, Handlers.AnswerVia, Handlers.Follow, Handlers.SendPacket, Handlers.OpenLink;
    hide Node.Stays;
    if packet.body.InitBody? && packet.body.device in s.peers {
      var peer := s.peers[packet.body.device];
      FollowSamePeers(s.Draw(env.ephemeral), peer, src.addr, env);
    }
  }

  lemma HandleResponseQueues(s: Node, packet: Packet, src: Source, env: Env)
    requires s.Inv() && KnownSource(s, src)
    ensures HandleResponse(s, packet, src, env).peers == s.peers
    ensures HandleResponse(s, packet, src, env).queued == s.queued
  {
    hide L.Reached, L.Of, Link.Consistent, Handlers.AnswerVia, Handlers.OpenLink, Node.Stays;
  }

  /** A data packet that is queued is the first thing noted of it, as accepted from where it came. */
  lemma HandleDataQueues(s: Node, packet: Packet, src: Source, env: Env)
    requires s.Inv() && KnownSource(s, src)
    requires src.peer != null ==> src.peer in s.byIP.Values + s.byUDP.Values
    ensures Queues(s, HandleData(s, packet, src, env))
  {
    hide Node.Inv, L.After, L.Allowed, Link.Accept;
    if src.peer != null {
      var (s1, plain) := Accept(s, src.peer, packet, env);
      if plain.Success? {
        assert s1.log[|s.log|].peer == src.peer;
        var r := HandleData(s, packet, src, env);
        assert r.log[|s.log|] == s1.log[|s.log|];
        assert r.queued == s.queued || r.queued == s.queued + [|s.log|];
      }
    }
  }

  lemma DispatchQueues(s: Node, packet: Packet, src: Source, env: Env)
    requires s.Inv() && KnownSource(s, src)
    requires src.peer != null ==> src.peer in s.byIP.Values + s.byUDP.Values
    ensures Queues(s, Dispatch(s, packet, src, env))
  {
    hide Handlers.HandleInit, Handlers.HandleResponse, Handlers.HandleKeepalive, Handlers.HandleData;
    hide Handlers.HandleClose, Node.Inv, Node.Stays;
    var kind := packet.header.kind;
    if kind == T.MSG_HANDSHAKE_INIT {
      HandleInitQueues(s, packet, src, env);
    } else if kind == T.MSG_HANDSHAKE_RESPONSE {
      HandleResponseQueues(s, packet, src, env);
    } else if kind == T.MSG_DATA {
      HandleDataQueues(s, packet, src, env);
    }
  }

  lemma HandleForwardQueues(s: Node, packet: Packet, from: AddrPort, env: Env)
    requires s.Inv()
    ensures Queues(s, HandleForward(s, packet, from, env))
  {
    hide Handlers.Accept, Handlers.PassOn, Handlers.DeliverForwarded, L.Reached, L.Of, Link.Consistent, Node.Stays;
    var relay := PeerAt(s, from);
    if relay != null {
      var (s1, plain) := Accept(s, relay, packet, env);
      if plain.Success? && plain.value.Forwarded? && plain.value.carried.destination == s.virtualIP {
        DeliverForwardedQueues(s1, plain.value.carried, relay, env);
      }
    }
  }

  lemma DeliverForwardedQueues(s: Node, carried: Carried, relay: Peer, env: Env)
    requires s.Inv() && relay in s.links
    ensures Queues(s, DeliverForwarded(s, carried, relay, env))
  {
    hide L.Reached, L.Of, Link.Consistent, Handlers.Dispatch, Node.Stays;
    if carried.source in s.byIP && s.byIP[carried.source] != relay {
      DispatchQueues(s, carried.packet, Source(NO_ENDPOINT, s.byIP[carried.source], relay), env);
    }
  }

  lemma ReceiveQueues(s: Node, packet: Packet, from: AddrPort, env: Env)
    requires s.Inv()
    ensures Queues(s, Receive(s, packet, from, env))
  {
    hide Handlers.HandleProbe, Handlers.HandleForward, Handlers.Dispatch, Node.Stays, L.Reached, L.Of, Link.Consistent;
    var s1 := Hear(s, packet);
    if packet.header.version == T.VERSION {
      if packet.header.kind == T.MSG_FORWARD {
        HandleForwardQueues(s1, packet, from, env);
      } else if packet.header.kind != T.MSG_PROBE {
        DispatchQueues(s1, packet, Source(from, PeerAt(s1, from), null), env);
      }
    }
  }

  lemma ReceiveSamePeers(s: Node, packet: Packet, from: AddrPort, env: Env)
    requires s.Inv()
    ensures Receive(s, packet, from, env).peers == s.peers
  {
    hide Handlers.Receive, Node.Grows;
    ReceiveQueues(s, packet, from, env);
  }

  /** No event queues anything but what arrives, and that of a current peer. */
  lemma QueuedIsOfPeers(net: Net, e: Event)
    requires Possible(net, e) && net[e.at].Indexed()
    ensures
      var s, r := net[e.at], Act(net, e);
      r.queued == s.queued ||
      (e.Arrive? &&
       exists k: nat :: r.queued == s.queued + [k] && k < |r.log| && r.log[k].peer in s.peers.Values)
  {
    hide Node.Inv, Node.Stays, Deliverable, Indexes, L.After;
    hide Handlers.Receive, Handlers.TickPeer, Handlers.AddPeer, Handlers.RetryPeer, Handlers.SetPeerEndpoint;
    hide Handlers.RestartLinks, Handlers.Broadcast, Handlers.Send;
    match e
    case Arrive(_, packet, from, env) =>
      ReceiveQueues(net[e.at], packet, from, env);
      TabledAreCurrent(net[e.at]);
    case Add(_, newcomer, endpoint, env) => AddPeerQueues(net[e.at], newcomer, endpoint, env);
    case Move(_, id, endpoint, env) => SetPeerEndpointQueues(net[e.at], id, endpoint, env);
    case _ =>
  }

  lemma TabledAreCurrent(s: Node)
    requires s.Indexed()
    ensures s.byIP.Values + s.byUDP.Values <= s.peers.Values
  {
    hide Node.Inv;
  }

  lemma SetPeerEndpointQueues(s: Node, id: DeviceId, endpoint: AddrPort, env: Env)
    requires s.Inv()
    ensures SetPeerEndpoint(s, id, endpoint, env).queued == s.queued
  {
    hide L.Reached, L.Of, Link.Consistent, Handlers.Follow, Handlers.Punch, Node.Stays;
    if id in s.peers { FollowSamePeers(s, s.peers[id], endpoint, env); }
  }

  lemma AddPeerQueues(s: Node, newcomer: Peer, endpoint: AddrPort, env: Env)
    requires s.Inv() && newcomer !in s.links
    ensures AddPeer(s, newcomer, endpoint, env).queued == s.queued
  {
    hide L.Reached, L.Of, Link.Consistent, Handlers.Follow, Handlers.AddPeer, Handlers.Punch, Node.Stays, Indexes;
    if newcomer.deviceID in s.peers {
      AddPeerKnown(s, newcomer, endpoint, env);
      FollowSamePeers(s, s.peers[newcomer.deviceID], endpoint, env);
    } else {
      AddPeerNew(s, newcomer, endpoint, env);
    }
  }

  // ----- a device that is taken out -----

  /** No table leads to this object. */
  ghost predicate Untabled(s: Node, p: Peer) {
    (forall ip | ip in s.byIP :: s.byIP[ip] != p) && (forall a | a in s.byUDP :: s.byUDP[a] != p)
  }

  /** The device is gone from the peers and the tables, and everything else stays: the other peers, every link,
      what was written and what waits. */
  lemma RemovedIsGone(s: Node, id: DeviceId, env: Env)
    requires s.Inv() && id in s.peers
    ensures
      var p, r := s.peers[id], RemovePeer(s, id, env);
      && r == s.(peers := s.peers - {id}, byIP := r.byIP, byUDP := r.byUDP)
      && r.Indexed() && Untabled(r, p)
  {
    hide L.Reached, L.Of, Link.Consistent, Indexes;
    var p, r := s.peers[id], RemovePeer(s, id, env);
    assert p !in r.peers.Values;
    GoneIsUntabled(r, p);
  }

  lemma GoneIsUntabled(s: Node, p: Peer)
    requires s.Indexed() && p !in s.peers.Values
    ensures Untabled(s, p)
  {
    hide Node.Inv;
  }

  /** Nobody else holds its address on the LAN, and nobody else is at its endpoint. */
  ghost predicate Unshared(s: Node, p: Peer)
    requires s.Inv() && p in s.links
  {
    hide L.Reached, L.Of, Link.Consistent;
    forall d | d in s.peers && s.peers[d] != p ::
      s.peers[d].virtualIP != p.virtualIP && s.links[s.peers[d]].endpoint != s.links[p].endpoint
  }

  /** What is for it is refused with nothing changed, and what comes from where it was is a stranger's. */
  lemma RemovedIsUnknown(s: Node, id: DeviceId, env: Env, ip: seq<byte>)
    requires s.Inv() && id in s.peers && Unshared(s, s.peers[id])
    ensures
      var p, r := s.peers[id], RemovePeer(s, id, env);
      && p in s.links
      && Send(r, p.virtualIP, ip) == (r, Some(ErrNoPeer)) && PeerAt(r, s.links[p].endpoint) == null
  {
    hide L.Reached, L.Of, Link.Consistent, Indexes;
    var p, r := s.peers[id], RemovePeer(s, id, env);
    RemovedIsGone(s, id, env);
    NobodyThere(r, p.virtualIP, s.links[p].endpoint);
  }

  /** What no current peer holds is in no table. */
  lemma NobodyThere(s: Node, ip: Addr, at: AddrPort)
    requires s.Indexed()
    requires forall d | d in s.peers :: s.peers[d].virtualIP != ip && s.peers[d] in s.links
    requires forall d | d in s.peers :: s.links[s.peers[d]].endpoint != at
    ensures ip !in s.byIP && at !in s.byUDP
  {
    hide L.Reached, L.Of, Link.Consistent;
    forall p | p in s.links ensures Ends(s.links)[p] == s.links[p].endpoint {}
  }

  /** An event that adds a device to a daemon's peers. */
  predicate Adds(e: Event, d: DeviceId, id: DeviceId) {
    e.Add? && e.at == d && e.newcomer.deviceID == id
  }

  /** A device that is not among a daemon's peers is not until it is added: whatever happens, no table leads to
      it, and nothing of its is put on the queue. */
  lemma {:induction false} GoneUntilAdded(start: Net, events: seq<Event>, more: seq<Event>, d: DeviceId, id: DeviceId)
    requires AllBlank(start) && d in start && id !in Run(start, events)[d].peers
    requires forall k | 0 <= k < |more| :: !Adds(more[k], d, id)
    ensures
      var before, s := Run(start, events)[d], Run(start, events + more)[d];
      && id !in s.peers && before.queued <= s.queued
      && (forall ip | ip in s.byIP :: s.byIP[ip].deviceID != id)
      && (forall a | a in s.byUDP :: s.byUDP[a].deviceID != id)
      && (forall i | |before.queued| <= i < |s.queued| ::
            0 <= s.queued[i] < |s.log| && s.log[s.queued[i]].peer.deviceID != id)
    decreases |more|
  {
    hide Run, Node.Inv, Indexes, Possible, Act;
    AlwaysIndexed(start, events + more);
    if more == [] {
      assert events + more == events;
    } else {
      var last := |more| - 1;
      GoneUntilAdded(start, events, more[..last], d, id);
      assert events + more == (events + more[..last]) + [more[last]];
      AlwaysIndexed(start, events + more[..last]);
      OneMoreEvent(start, events + more[..last], more[last], d, id, |Run(start, events)[d].queued|);
    }
    TabledById(Run(start, events + more)[d], id);
  }

  lemma TabledById(s: Node, id: DeviceId)
    requires s.Indexed() && id !in s.peers
    ensures forall ip | ip in s.byIP :: s.byIP[ip].deviceID != id
    ensures forall a | a in s.byUDP :: s.byUDP[a].deviceID != id
  {
    hide L.Reached, L.Of, Link.Consistent;
  }

  lemma OneMoreEvent(start: Net, events: seq<Event>, e: Event, d: DeviceId, id: DeviceId, from: nat)
    requires d in start && Run(start, events)[d].Indexed() && id !in Run(start, events)[d].peers && !Adds(e, d, id)
    requires
      var s := Run(start, events)[d];
      from <= |s.queued| && forall i | from <= i < |s.queued| ::
        0 <= s.queued[i] < |s.log| && s.log[s.queued[i]].peer.deviceID != id
    ensures
      var s, r := Run(start, events)[d], Run(start, events + [e])[d];
      && id !in r.peers && s.queued <= r.queued
      && forall i | from <= i < |r.queued| ::
           0 <= r.queued[i] < |r.log| && r.log[r.queued[i]].peer.deviceID != id
  {
    hide Run, Node.Inv, Indexes, Possible, Act;
    RunThen(start, events, e);
    var net := Run(start, events);
    if Possible(net, e) && e.at == d {
      PeersAre(net, e);
      QueuedIsOfPeers(net, e);
      CurrentById(net[d], id);
      var s, r := net[d], Act(net, e);
      forall i | from <= i < |r.queued| ensures 0 <= r.queued[i] < |r.log| && r.log[r.queued[i]].peer.deviceID != id {
        if i < |s.queued| { assert r.queued[i] == s.queued[i] && r.log[s.queued[i]] == s.log[s.queued[i]]; }
      }
    }
  }

  lemma CurrentById(s: Node, id: DeviceId)
    requires s.Inv() && id !in s.peers
    ensures forall p | p in s.peers.Values :: p.deviceID != id
  {
    hide L.Reached, L.Of, Link.Consistent;
  }

  /** A removal does not last beyond the next addition, and lasts until then. */
  lemma RemovedStaysGone(start: Net, events: seq<Event>, more: seq<Event>, d: DeviceId, id: DeviceId, env: Env)
    requires AllBlank(start) && d in start && Possible(Run(start, events), Remove(d, id, env))
    requires forall k | 0 <= k < |more| :: !Adds(more[k], d, id)
    ensures
      var before := Run(start, events)[d];
      var s := Run(start, (events + [Remove(d, id, env)]) + more)[d];
      && id !in s.peers && before.queued <= s.queued
      && (forall ip | ip in s.byIP :: s.byIP[ip].deviceID != id)
      && (forall a | a in s.byUDP :: s.byUDP[a].deviceID != id)
      && (forall i | |before.queued| <= i < |s.queued| ::
            0 <= s.queued[i] < |s.log| && s.log[s.queued[i]].peer.deviceID != id)
  {
    hide Run, Node.Inv, Indexes, Possible, Act;
    var remove := Remove(d, id, env);
    var net := Run(start, events);
    AlwaysIndexed(start, events);
    RunThen(start, events, remove);
    PeersAre(net, remove);
    QueuedIsOfPeers(net, remove);
    GoneUntilAdded(start, events + [remove], more, d, id);
  }
}
