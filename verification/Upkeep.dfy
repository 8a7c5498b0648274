/** What the server's calls and the loop's hard cases do to a link and to the wire: who is asked to carry it, when an
    attempt is due, and that whoever is moved, added or started over is probed. */
module Upkeep {
  import opened Alive
  import opened Following
  import opened Handlers
  import opened Lookup
  import opened Netip
  import opened Nodes
  import opened Packets
  import opened Peers
  import opened Removing
  import opened Retry
  import opened Sending
  import opened Session
  import opened Wrappers
  import L = PeerRuns
  import T = Transport

  // ----- a link by itself -----

  /** An attempt is due on a link that is not open, has an address or a relay, has not had its ten, or three through
      this relay, and is not waiting for the answer to one begun within the last second. */
  lemma AttemptIsDue(l: Link, now: Time)
    ensures
      l.MayAttempt(now) <==>
        && l.session == None && (l.endpoint.addr != NoAddr || l.via != null)
        && l.handshakes < (if l.via == null then 10 else 3)
        && (l.handshake == None || l.lastHandshake == None || now - l.lastHandshake.value >= 1_000_000_000)
  {}

  /** A link that has just been opened starts clean, counts as heard from, and is given 45 seconds. */
  lemma OpenedCountsAsHeard(l: Link, session: Session, now: Time, later: Time)
    ensures
      var r := l.Open(session, now);
      && r.session == Some(session) && r.handshake == None && r.counter == 0 && !r.replay.started
      && (r.Silent(later) <==> later - now > 45_000_000_000)
  {}

  /** Whatever a link was, starting over leaves it nothing but its address, with all attempts to make; and failing
      leaves it no session. */
  lemma StartedOverIsNew(l: Link)
    ensures l.Restart() == NewLink(l.endpoint)
    ensures l.Consistent() ==> l.Fail().state == Failed && l.Fail().session == None
  {}

  /** A relay that is asked starts the link over but for what was tried. */
  lemma RelayedStartsOver(l: Link, relay: Peer)
    ensures l.RelayThrough(relay) ==
            NewLink(l.endpoint).(via := relay, relaysTried := l.relaysTried + {relay.deviceID})
  {}

  /** A token that waits goes on waiting when another is added, unless more than 32 wait: then only the new one. */
  lemma TokensAreRemembered(l: Link, token: uint64, now: Time)
    ensures
      var r := l.Expect(token, now);
      && r == l.(pending := r.pending) && token in r.pending && r.pending[token] == now
      && forall u | u != token :: u in r.pending <==> u in l.pending && |l.pending| <= 32
  {}

  // ----- a relay is asked -----

  /** A peer that could carry a link: another one, on an open direct link, and not asked yet. */
  ghost predicate CouldCarry(s: Node, p: Peer, d: DeviceId)
    requires s.Inv() && p in s.links
  {
    hide L.Reached, L.Of, Link.Consistent;
    d in s.peers && s.peers[d] != p && s.links[s.peers[d]].state == Direct && d !in s.links[p].relaysTried
  }

  /** Somebody is asked exactly if somebody could carry it, and that is the lowest who could: the link starts over
      through it, and an attempt that is due is begun there. */
  lemma LowestIsAsked(s: Node, p: Peer, env: Env)
    requires s.Inv() && p in s.links
    ensures
      var (r, asked) := TryRelay(s, p, env);
      && (asked <==> exists d :: CouldCarry(s, p, d))
      && (!asked ==> r == s)
      && (asked ==>
            exists d ::
              && CouldCarry(s, p, d) && (forall e | CouldCarry(s, p, e) && e != d :: Less(d, e))
              && p in r.links && r.links[p].via == s.peers[d])
  {
    hide L.Reached, L.Of, Link.Consistent, Handlers.BeginHandshake;
    var candidates := Candidates(s, p);
    forall d ensures d in candidates <==> CouldCarry(s, p, d) {}
    if candidates != {} {
      var d := Lowest(candidates);
      var asked := s.Do(p, L.RelayThrough(s.peers[d]));
      BeginHandshakeCounts(asked, p, env);
      SameVia(TryRelay(s, p, env).0.links[p], asked.links[p]);
      assert CouldCarry(s, p, d);
    }
  }

  lemma SameVia(l: Link, m: Link)
    requires Still(l) == Still(m.(handshakes := l.handshakes, lastHandshake := l.lastHandshake,
             handshake := l.handshake))
    ensures l.via == m.via
  {
    assert Still(l).via == l.via;
  }

  // ----- starting over -----

  /** A link that is started over is as new, and probed if it has an address. */
  lemma RestartProbes(s: Node, p: Peer, env: Env)
    requires s.Inv() && p in s.links
    ensures
      var r, end := RestartLink(s, p, env), s.links[p].endpoint;
      && r.links == s.links[p := if end.IsValid() then NewLink(end).Expect(env.token, env.now) else NewLink(end)]
      && r.wire == s.wire + if end.IsValid() then [Datagram(end, Probe(env.token, false))] else []
  {
    hide Node.Inv, Node.Steady, Handlers.Punch, Link.Consistent, Link.Expect;
    var l, m := s.links[p], s.Do(p, L.Restart);
    assert m.links == s.links[p := NewLink(l.endpoint)] && m.wire == s.wire;
    PunchProbes(m, p, env);
  }

  /** The probes that go out to some peers. */
  ghost function Probes(s: Node, peers: seq<Peer>, envs: seq<Env>): seq<Datagram>
    requires AllIn(peers, s.links.Keys) && |envs| == |peers|
  {
    if peers == [] then []
    else
      var end := s.links[peers[0]].endpoint;
      (if end.IsValid() then [Datagram(end, Probe(envs[0].token, false))] else []) + Probes(s, peers[1..], envs[1..])
  }

  lemma {:induction false} SameProbes(s: Node, m: Node, peers: seq<Peer>, envs: seq<Env>)
    requires AllIn(peers, s.links.Keys) && |envs| == |peers| && Ends(m.links) == Ends(s.links)
    ensures AllIn(peers, m.links.Keys) && Probes(m, peers, envs) == Probes(s, peers, envs)
  {
    if peers != [] {
      assert peers[0] in Ends(s.links) && Ends(m.links)[peers[0]] == Ends(s.links)[peers[0]];
      SameProbes(s, m, peers[1..], envs[1..]);
    }
  }

  /** When the machine's own address changes, every peer is probed, in order. */
  lemma {:induction false} AllAreProbed(s: Node, peers: seq<Peer>, envs: seq<Env>)
    requires s.Inv() && AllIn(peers, s.links.Keys) && |envs| == |peers|
    ensures RestartLinks(s, peers, envs).wire == s.wire + Probes(s, peers, envs)
    decreases |peers|
  {
    hide Node.Inv, Node.Grows, Handlers.RestartLink, Link.Expect, Ends;
    if peers != [] {
      var m := RestartLink(s, peers[0], envs[0]);
      RestartProbes(s, peers[0], envs[0]);
      SameProbes(s, m, peers[1..], envs[1..]);
      AllAreProbed(m, peers[1..], envs[1..]);
    }
  }

  /** And every link of theirs starts over, and no other. */
  lemma {:induction false} AllStartOver(s: Node, peers: seq<Peer>, envs: seq<Env>, p: Peer)
    requires s.Inv() && AllIn(peers, s.links.Keys) && |envs| == |peers| && p in s.links
    ensures
      var r := RestartLinks(s, peers, envs);
      && p in r.links
      && (p in peers ==> r.links[p] == NewLink(s.links[p].endpoint).(pending := r.links[p].pending))
      && (p !in peers ==> r.links[p] == s.links[p])
    decreases |peers|
  {
    hide Node.Inv, Node.Grows, Handlers.RestartLink;
    if peers != [] {
      var m := RestartLink(s, peers[0], envs[0]);
      RestartedAsNew(s, peers[0], envs[0], p);
      AllStartOver(m, peers[1..], envs[1..], p);
      assert peers == [peers[0]] + peers[1..];
    }
  }

  lemma RestartedAsNew(s: Node, p: Peer, env: Env, q: Peer)
    requires s.Inv() && p in s.links && q in s.links
    ensures
      var r := RestartLink(s, p, env);
      && q in r.links && r.links[q].endpoint == s.links[q].endpoint
      && r.links[q] == if q == p then NewLink(s.links[p].endpoint).(pending := r.links[p].pending) else s.links[q]
  {
    hide Node.Inv, Handlers.RestartLink;
    RestartProbes(s, p, env);
  }

  /** A link that is retried starts over, is probed, and has its first attempt begun, if this side begins them. */
  lemma RetryProbesAndBegins(s: Node, id: DeviceId, env: Env)
    requires s.Inv() && id in s.peers
    ensures
      var p := s.peers[id];
      && p in s.links
      && var r, end := RetryPeer(s, id, env), s.links[p].endpoint;
         end.IsValid() ==>
           r.wire == s.wire + ([Datagram(end, Probe(env.token, false))] +
                               if !Less(id, s.device) && |s.device| <= 255
                               then [Datagram(end, InitFor(s, p, env))] else [])
  {
    hide Node.Inv, Handlers.RetryPeer, Handlers.RestartLink, Handlers.BeginHandshake, HasPath, Outgoing;
    hide InitGoesOut, InitFor;
    RetrySteps(s, id, env);
    var p := s.peers[id];
    RestartProbes(s, p, env);
    BeginningWrites(RestartLink(s, p, env), p, env);
    if s.links[p].endpoint.IsValid() { NewIsBegun(s, RestartLink(s, p, env), p, env); }
  }

  lemma RetrySteps(s: Node, id: DeviceId, env: Env)
    requires s.Inv() && id in s.peers
    ensures
      var p := s.peers[id];
      && p in s.links && p.deviceID == id && p in RestartLink(s, p, env).links
      && RetryPeer(s, id, env) == BeginHandshake(RestartLink(s, p, env), p, env)
  {
    hide L.Reached, L.Of, Link.Consistent, Handlers.RestartLink, Handlers.BeginHandshake;
  }

  lemma NewIsBegun(s: Node, m: Node, p: Peer, env: Env)
    requires s.Inv() && m.Inv() && p in s.links && p in m.links && m.device == s.device && m.key == s.key
    requires m.links[p] == NewLink(m.links[p].endpoint).(pending := m.links[p].pending)
    requires m.links[p].endpoint == s.links[p].endpoint && s.links[p].endpoint.IsValid()
    ensures
      && (InitGoesOut(m, p, env) <==> !Less(p.deviceID, s.device) && |s.device| <= 255)
      && HasPath(m, p) && InitFor(m, p, env) == InitFor(s, p, env)
      && Outgoing(m, p, InitFor(m, p, env)) == Datagram(s.links[p].endpoint, InitFor(s, p, env))
  {
    hide L.Reached, L.Of, Link.Consistent;
  }

  // ----- the server's word -----

  /** A peer that moved is probed where it went. */
  lemma MovedIsProbed(s: Node, id: DeviceId, endpoint: AddrPort, env: Env)
    requires s.Inv() && id in s.peers && endpoint.IsValid()
    ensures
      var p := s.peers[id];
      && p in s.links
      && (s.links[p].endpoint != endpoint ==>
            SetPeerEndpoint(s, id, endpoint, env).wire == s.wire + [Datagram(endpoint, Probe(env.token, false))])
  {
    hide L.Reached, L.Of, Link.Consistent, Handlers.Follow, Handlers.Punch, Node.Stays;
    var p := s.peers[id];
    if s.links[p].endpoint != endpoint {
      FollowPoints(s, p, endpoint, env, p);
      FollowSamePeers(s, p, endpoint, env);
      PunchProbes(Follow(s, p, endpoint, env), p, env);
    }
  }

  /** And is found there if nobody else is. */
  lemma MovedIsFound(s: Node, id: DeviceId, endpoint: AddrPort, env: Env)
    requires s.Indexed() && id in s.peers && endpoint.IsValid() && Alone(s, s.peers[id], endpoint)
    ensures PeerAt(SetPeerEndpoint(s, id, endpoint, env), endpoint) == s.peers[id]
  {
    hide L.Reached, L.Of, Link.Consistent, Handlers.SetPeerEndpoint, Indexes;
    var p, r := s.peers[id], SetPeerEndpoint(s, id, endpoint, env);
    SetPeerEndpointIndexes(s, id, endpoint, env);
    SetPeerEndpointSamePeers(s, id, endpoint, env);
    forall d | d in r.peers
      ensures r.peers[d] in r.links
      ensures r.links[r.peers[d]].endpoint == if r.peers[d] == p then endpoint else s.links[r.peers[d]].endpoint
    {
      MovePoints(s, id, endpoint, env, r.peers[d]);
    }
    FoundAlone(r, p, endpoint);
  }

  /** A new peer is among the peers, on a link as new, and is probed if it has an address. */
  lemma NewIsProbed(s: Node, p: Peer, endpoint: AddrPort, env: Env)
    requires s.Inv() && p !in s.links && p.deviceID !in s.peers
    ensures
      var r := AddPeer(s, p, endpoint, env);
      && r.wire == s.wire + (if endpoint.IsValid() then [Datagram(endpoint, Probe(env.token, false))] else [])
      && r.peers == s.peers[p.deviceID := p]
      && r.links == s.links[p := if endpoint.IsValid() then NewLink(endpoint).Expect(env.token, env.now)
                                 else NewLink(endpoint)]
  {
    hide Handlers.AddPeer, Handlers.Punch, Indexes, Node.Inv, Node.Grows, Link.Consistent, Link.Expect;
    AddPeerNew(s, p, endpoint, env);
    AddPeerLink(s, p, endpoint, env);
    EnrolledQuietly(s, p, endpoint, env);
    PunchProbes(Reindex(Enrol(s, p, endpoint), env.tables), p, env);
  }

  lemma EnrolledQuietly(s: Node, p: Peer, endpoint: AddrPort, env: Env)
    requires s.Inv() && p !in s.links && p.deviceID !in s.peers
    ensures
      var r := Reindex(Enrol(s, p, endpoint), env.tables);
      r.wire == s.wire && r.links == s.links[p := NewLink(endpoint)] && r.Inv()
  {
    hide Node.Inv, Node.Stays, Node.Grows, Indexes, Link.Consistent;
  }

  /** And is found there if nobody else is. */
  lemma NewIsFound(s: Node, p: Peer, endpoint: AddrPort, env: Env)
    requires s.Inv() && p !in s.links && p.deviceID !in s.peers && endpoint.IsValid() && Alone(s, p, endpoint)
    ensures PeerAt(AddPeer(s, p, endpoint, env), endpoint) == p
  {
    hide Handlers.AddPeer, Indexes, L.Reached, L.Of, Link.Consistent;
    AddPeerLink(s, p, endpoint, env);
    var r := AddPeer(s, p, endpoint, env);
    forall d | d in r.peers && r.peers[d] != p
      ensures r.peers[d] in r.links && r.links[r.peers[d]].endpoint != endpoint
    {
      assert d in s.peers && r.peers[d] == s.peers[d];
    }
    FoundAlone(r, p, endpoint);
  }

  // ----- a round of the loop -----

  /** A tick of one link changes at most counters of another. */
  lemma TickLeavesOthers(s: Node, q: Peer, keepalives: bool, env: Env, p: Peer)
    requires s.Inv() && q in s.links && p in s.links && p != q
    ensures
      var r := TickPeer(s, q, keepalives, env);
      p in r.links && Still(r.links[p]) == Still(s.links[p])
  {
    hide Node.Inv, Node.Grows, Link.Consistent, L.After, Still;
    hide Handlers.Punch, Handlers.SendKeepalive, Handlers.TryRelay, Handlers.BeginHandshake;
    var l := s.links[q];
    if l.Silent(env.now) {
      DoLeavesOthers(s, q, L.Restart, p);
      PunchProbes(s.Do(q, L.Restart), q, env);
    } else if l.session.Some? {
      if keepalives { AskLeavesOthers(s, q, env, p); }
    } else if l.state == Failed || l.handshakes >= HandshakeBudget(l.via) {
      AskingLeavesOthers(s, q, env, p);
      DoLeavesOthers(s, q, L.Fail, p);
    } else if l.via != null {
      BeginHandshakeCounts(s, q, env);
    } else {
      PunchProbes(s, q, env);
      BeginHandshakeCounts(Punch(s, q, env), q, env);
    }
  }

  lemma DoLeavesOthers(s: Node, q: Peer, e: L.Op, p: Peer)
    requires s.Inv() && q in s.links && p in s.links && p != q && L.Allowed(s.links[q], e) && !e.SetEndpoint?
    requires e.RelayThrough? ==> e.relay in s.links
    requires e.AnswerVia? ==> e.carrier in s.links
    ensures s.Do(q, e).links[p] == s.links[p]
  {
    hide Node.Inv, Node.Steady, L.After, L.Allowed;
  }

  lemma AskLeavesOthers(s: Node, q: Peer, env: Env, p: Peer)
    requires s.Inv() && q in s.links && p in s.links && p != q
    ensures
      var r := SendKeepalive(s, q, env);
      p in r.links && Still(r.links[p]) == Still(s.links[p])
  {
    hide Node.Inv, Node.Steady, L.After, Still, Handlers.SendPacket;
    DoLeavesOthers(s, q, L.Expect(env.token, env.now), p);
    SendPacketOnlyCounts(s.Do(q, L.Expect(env.token, env.now)), q, T.MSG_KEEPALIVE, PingBody(env.token, false));
  }

  lemma AskingLeavesOthers(s: Node, q: Peer, env: Env, p: Peer)
    requires s.Inv() && q in s.links && p in s.links && p != q
    ensures
      var r := TryRelay(s, q, env).0;
      p in r.links && Still(r.links[p]) == Still(s.links[p])
  {
    hide L.Reached, L.Of, Link.Consistent, Handlers.BeginHandshake, Handlers.Candidates, Still, L.After;
    if Candidates(s, q) != {} {
      CandidateIsPeer(s, q, Lowest(Candidates(s, q)));
      var relay := s.peers[Lowest(Candidates(s, q))];
      DoLeavesOthers(s, q, L.RelayThrough(relay), p);
      BeginHandshakeCounts(s.Do(q, L.RelayThrough(relay)), q, env);
    }
  }

  /** A straight open link that was heard from in time. */
  predicate WellAndOpen(l: Link, now: Time) {
    && l.session.Some? && l.via == null && l.endpoint.IsValid()
    && (l.lastHeard.Some? ==> now - l.lastHeard.value <= 45_000_000_000)
  }

  lemma StaysWell(l: Link, m: Link, now: Time)
    requires Still(m) == Still(l) && WellAndOpen(l, now)
    ensures WellAndOpen(m, now) && m.endpoint == l.endpoint
  {
    SameStill(m, l);
  }

  /** In a round of the loop in which keepalives are due, every one of them is asked at its address, whatever the
      round does to the others. */
  lemma {:induction false} EveryoneIsAsked(s: Node, peers: seq<Peer>, envs: seq<Env>, i: nat) returns (k: nat)
    requires s.Inv() && AllIn(peers, s.links.Keys) && |envs| == |peers| && i < |peers| && peers[i] in s.links
    requires forall j | 0 <= j < i :: peers[j] != peers[i]
    requires WellAndOpen(s.links[peers[i]], envs[i].now)
    ensures
      var r := Tick(s, peers, true, envs);
      |s.wire| <= k < |r.wire| && r.wire[k] == Datagram(s.links[peers[i]].endpoint, Ask(peers[i], envs[i].token))
    decreases |peers|
  {
    hide Node.Inv, Handlers.TickPeer, Still, HasPath, Outgoing;
    var p, m := peers[i], TickPeer(s, peers[0], true, envs[0]);
    if i == 0 {
      OpenLinkIsAsked(s, p, envs[0], p);
      StraightOut(s, p, Ask(p, envs[0].token));
      k := |s.wire|;
      var r := Tick(s, peers, true, envs);
      assert m.wire[k] == r.wire[k];
    } else {
      TickLeavesOthers(s, peers[0], true, envs[0], p);
      StaysWell(s.links[p], m.links[p], envs[i].now);
      k := EveryoneIsAsked(m, peers[1..], envs[1..], i - 1);
    }
  }

  // ----- what is not looked into -----

  /** A datagram of another version is noted and dropped, and so is a packet that a forward brings of another
      version, or from nobody, or that claims to be the relay's own. */
  lemma OthersAreDropped(s: Node, packet: Packet, from: AddrPort, env: Env, carried: Carried, relay: Peer)
    requires s.Inv() && relay in s.links
    ensures packet.header.version != 1 ==> Receive(s, packet, from, env) == s.(heard := s.heard + Atoms(packet))
    ensures carried.packet.header.version != 1 || carried.source !in s.byIP || s.byIP[carried.source] == relay ==>
              DeliverForwarded(s, carried, relay, env) == s
  {
    hide L.Reached, L.Of, Link.Consistent, Handlers.Dispatch, Handlers.HandleForward, Handlers.HandleProbe;
  }

  /** The queue takes 256 packets, and drops what comes when it is full. */
  lemma QueueIsBounded(s: Node, plain: Plain, place: nat)
    requires s.Inv()
    ensures Enqueue(s, plain, place).inbound == if |s.inbound| < 256 then s.inbound + [plain] else s.inbound
  {
    hide Node.Inv;
  }
}
