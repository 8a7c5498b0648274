/** A run over the network after which a path through a relay stands open, and what is sent along it. */
module RelayRuns {
  import opened Handlers
  import opened Lookup
  import opened Netip
  import opened Network
  import opened Nodes
  import opened Packets
  import opened Peers
  import opened Relaying
  import opened Runs
  import opened Session
  import opened Wrappers
  import Crypto = Session
  import L = PeerRuns
  import Replay
  import T = Transport

  // ----- a handshake through a relay -----

  /** The forward that a daemon seals to a relay. */
  function Hopped(l: Link, relay: Peer, carried: Carried): Packet
    requires l.session.Some?
  {
    SealedPacket(l.session.value, T.MSG_FORWARD, relay.sender, l.counter, Forwarded(carried))
  }

  /** A peer whose link can carry a packet. */
  ghost predicate Carrying(s: Node, q: Peer, end: AddrPort) {
    Knows(s, q, end) && s.links[q].session.Some? && s.links[q].via == null && s.virtualIP.V4?
  }

  lemma ForwardWrites(s: Node, q: Peer, end: AddrPort, carried: Carried)
    requires Carrying(s, q, end) && carried.source.V4? && carried.destination.V4?
    ensures
      var r := Forward(s, q, carried).0;
      Kept(s, r) && r.links == s.links[q := s.links[q].Counted()] && Sent(r, end, Hopped(s.links[q], q, carried))
  {
    hide Node.Inv, Link.Consistent, L.Allowed;
    var l := s.links[q];
    var text := SealedText(l.session.value, T.MSG_FORWARD, q.sender, l.counter, Forwarded(carried));
    SealAllowed(l, text);
    var r := Forward(s, q, carried).0;
    assert r.wire[|s.wire|] == Datagram(end, Hopped(l, q, carried));
  }

  /** A packet for a peer behind a relay is forwarded there. */
  lemma DeliverWrites(s: Node, p: Peer, q: Peer, end: AddrPort, packet: Packet)
    requires Carrying(s, q, end) && p in s.links && s.links[p].via == q && p.virtualIP.V4?
    ensures
      var r := Deliver(s, p, packet).0;
      && Kept(s, r) && r.links == s.links[q := s.links[q].Counted()]
      && Sent(r, end, Hopped(s.links[q], q, Carried(INITIAL_HOP_LIMIT, s.virtualIP, p.virtualIP, packet)))
  {
    hide Node.Inv, Handlers.Forward, Sent, Kept;
    ForwardWrites(s, q, end, Carried(INITIAL_HOP_LIMIT, s.virtualIP, p.virtualIP, packet));
  }

  /** One operation on a link leaves the relay's. */
  lemma CarryingStill(s: Node, r: Node, q: Peer, end: AddrPort)
    requires Carrying(s, q, end) && Kept(s, r) && r.links[q].session == s.links[q].session && r.links[q].via == null
    ensures Carrying(r, q, end)
  {
    hide Node.Inv, Knows;
    KnowsStill(s, r, q, end);
  }

  /** A close from the peer's address fails the link. */
  lemma ClosedStraight(s: Node, p: Peer, at: AddrPort, env: Env)
    requires Knows(s, p, at)
    ensures
      var r := Receive(s, Envelope(T.MSG_CLOSE, 0, 0, NoBody), at, env);
      Kept(s, r) && r.links == s.links[p := s.links[p].Fail()]
  {
    hide Node.Inv, Link.Consistent, Handlers.HandleInit, Handlers.HandleProbe, Handlers.HandleForward;
    hide Handlers.HandleResponse, Handlers.HandleKeepalive, Handlers.HandleData;
  }

  /** The next tick of a failed link asks the one peer on a direct link to carry it. */
  lemma TickedThrough(s: Node, p: Peer, at: AddrPort, q: Peer, end: AddrPort, env: Env)
    requires Knows(s, p, at) && Carrying(s, q, end) && p != q && s.peers == map[p.deviceID := p, q.deviceID := q]
    requires s.links[p].state == Failed && s.links[p].via == null
    requires !Less(p.deviceID, s.device) && |s.device| <= 255
    ensures
      var r, h := TickPeer(s, p, false, env), WriteInit(s.key, p.transportKey, env.ephemeral);
      var init := Envelope(T.MSG_HANDSHAKE_INIT, p.sender, 0, InitBody(s.device, h.init));
      && Kept(s, r) && p in r.links && r.links[p].via == q && r.links[p].handshake == Some(h)
      && r.links[q] == s.links[q].Counted()
      && Sent(r, end, Hopped(s.links[q], q, Carried(INITIAL_HOP_LIMIT, s.virtualIP, p.virtualIP, init)))
  {
    hide Handlers.BeginHandshake, Handlers.TickPeer, Sent, Link.Consistent, Node.Inv;
    AsksTheOne(s, p, q, env);
    var asked := s.Do(p, L.RelayThrough(q));
    BegunThrough(asked, p, q, end, env);
    KeptTwice(s, asked, TickPeer(s, p, false, env));
  }

  lemma AsksTheOne(s: Node, p: Peer, q: Peer, env: Env)
    requires s.Inv() && p in s.links && q in s.links && p != q && p.deviceID != q.deviceID
    requires s.peers == map[p.deviceID := p, q.deviceID := q]
    requires s.links[p].state == Failed && s.links[p].via == null && s.links[q].session.Some? && s.links[q].via == null
    ensures L.Allowed(s.links[p], L.RelayThrough(q))
    ensures TickPeer(s, p, false, env) == BeginHandshake(s.Do(p, L.RelayThrough(q)), p, env)
  {
    hide Handlers.BeginHandshake, Handlers.Candidates, L.Reached, L.Of, Handlers.Punch, Node.Steady, L.After;
    OneCandidate(s, p, q);
  }

  lemma OneCandidate(s: Node, p: Peer, q: Peer)
    requires s.Inv() && p in s.links && q in s.links && p != q && p.deviceID != q.deviceID
    requires s.peers == map[p.deviceID := p, q.deviceID := q]
    requires s.links[p].via == null && s.links[q].session.Some? && s.links[q].via == null
    ensures Candidates(s, p) == {q.deviceID} && Lowest(Candidates(s, p)) == q.deviceID
    ensures s.peers[q.deviceID] == q && s.links[p].relaysTried == {} && s.links[p].Consistent()
  {
    hide L.Reached, L.Of;
    assert s.peers[p.deviceID] == p && s.peers[q.deviceID] == q;
  }

  lemma BegunThrough(s: Node, p: Peer, q: Peer, end: AddrPort, env: Env)
    requires Carrying(s, q, end) && p in s.links && p != q && s.links[p].via == q && p.virtualIP.V4?
    requires Opens(s, p, env.now) && |s.device| <= 255
    ensures
      var r, h := BeginHandshake(s, p, env), WriteInit(s.key, p.transportKey, env.ephemeral);
      var init := Envelope(T.MSG_HANDSHAKE_INIT, p.sender, 0, InitBody(s.device, h.init));
      && Kept(s, r) && p in r.links && r.links[p].via == q && r.links[p].handshake == Some(h)
      && r.links[q] == s.links[q].Counted()
      && Sent(r, end, Hopped(s.links[q], q, Carried(INITIAL_HOP_LIMIT, s.virtualIP, p.virtualIP, init)))
  {
    hide Node.Inv, Link.Consistent, Handlers.Deliver, Sent;
    var h := WriteInit(s.key, p.transportKey, env.ephemeral);
    var tried := s.Draw(env.ephemeral).Do(p, L.Attempt(Some(h), env.now));
    DeliverWrites(tried, p, q, end, Envelope(T.MSG_HANDSHAKE_INIT, p.sender, 0, InitBody(s.device, h.init)));
  }

  /** A link opened behind a relay: the keepalive that says so goes there too. */
  lemma OpensThrough(s: Node, p: Peer, q: Peer, end: AddrPort, session: Session, env: Env)
    requires Carrying(s, q, end) && p in s.links && p != q && s.links[p].via == q && p.virtualIP.V4?
    ensures
      var r := OpenLink(s, p, session, env);
      && Kept(s, r) && p in r.links && Holds(r.links[p], session, q, Replay.EMPTY, 0)
      && r.links[q] == s.links[q].Counted()
  {
    hide Node.Inv, Link.Consistent, Handlers.Deliver, Sent;
    var asked := s.Do(p, L.Open(session, env.now)).Do(p, L.Expect(env.token, env.now));
    DeliverWrites(asked, p, q, end, Envelope(T.MSG_KEEPALIVE, p.sender, 0, PingBody(env.token, false)));
  }

  /** An init that comes through a relay is answered through it. */
  lemma InitHandledThrough(s: Node, p: Peer, at: AddrPort, q: Peer, end: AddrPort, packet: Packet, init: Init, env: Env)
    requires Knows(s, p, at) && Carrying(s, q, end) && p != q && ReadInit(s.key, init) == Some(p.transportKey)
    requires packet.body == InitBody(p.deviceID, init) && KnownSource(s, Source(NO_ENDPOINT, p, q))
    ensures
      var r := HandleInit(s, packet, Source(NO_ENDPOINT, p, q), env);
      var response := Envelope(T.MSG_HANDSHAKE_RESPONSE, p.sender, 0, ResponseBody(Response(init, env.ephemeral)));
      && Kept(s, r) && p in r.links && Holds(r.links[p], Crypto.Session(init, env.ephemeral, false), q, Replay.EMPTY, 0)
      && r.links[q] == s.links[q].Counted().Counted()
      && Sent(r, end, Hopped(s.links[q], q, Carried(INITIAL_HOP_LIMIT, s.virtualIP, p.virtualIP, response)))
  {
    hide Node.Inv, Link.Consistent, Handlers.Deliver, Handlers.OpenLink, Sent;
    var (reply, session) := WriteResponse(init, env.ephemeral);
    var response := Envelope(T.MSG_HANDSHAKE_RESPONSE, p.sender, 0, ResponseBody(reply));
    var answering := Record(AnswerVia(s.Draw(env.ephemeral), p, q), p, session);
    DeliverWrites(answering, p, q, end, response);
    var sent := Deliver(answering, p, response).0;
    OpensThrough(sent, p, q, end, session, env);
    SentStill(sent, OpenLink(sent, p, session, env), end,
      Hopped(s.links[q], q, Carried(INITIAL_HOP_LIMIT, s.virtualIP, p.virtualIP, response)));
  }

  /** The answer that comes through the relay opens the link. */
  lemma ResponseHandledThrough(s: Node, p: Peer, q: Peer, end: AddrPort, packet: Packet, response: Response, env: Env)
    requires Carrying(s, q, end) && p in s.links && p != q && p.virtualIP.V4?
    requires s.links[p].handshake == Some(Handshake(response.init))
    requires packet.body == ResponseBody(response) && KnownSource(s, Source(NO_ENDPOINT, p, q))
    ensures
      var r := HandleResponse(s, packet, Source(NO_ENDPOINT, p, q), env);
      && Kept(s, r) && p in r.links
      && Holds(r.links[p], Crypto.Session(response.init, response.ephemeral, true), q, Replay.EMPTY, 0)
      && r.links[q] == s.links[q].Counted()
  {
    hide Node.Inv, Link.Consistent, Handlers.OpenLink, Sent;
    var session := Crypto.Session(response.init, response.ephemeral, true);
    OpensThrough(Record(AnswerVia(s, p, q), p, session), p, q, end, session, env);
  }

  /** A link that has accepted one packet more. */
  function Slid(l: Link, counter: uint64, now: Time): Link {
    l.(replay := Replay.Slide(l.replay, counter), lastHeard := Some(now))
  }

  /** A peer's forward opens. */
  lemma ForwardOpens(s: Node, q: Peer, end: AddrPort, theirs: Session, sender: uint64, counter: uint64,
                     carried: Carried, env: Env) returns (r: Node)
    requires Knows(s, q, end) && s.links[q].session == Some(theirs.OtherEnd()) &&
             Replay.Admits(s.links[q].replay, counter)
    ensures Kept(s, r) && r.wire == s.wire && r.links == s.links[q := Slid(s.links[q], counter, env.now)]
    ensures
      Receive(s, SealedPacket(theirs, T.MSG_FORWARD, sender, counter, Forwarded(carried)), end, env) ==
        if carried.destination == s.virtualIP then DeliverForwarded(r, carried, q, env) else PassOn(r, carried, q)
  {
    hide Handlers.Receive, Handlers.PassOn, Handlers.DeliverForwarded, Replay.Admits, Replay.Slide, L.After;
    hide L.Allowed, Node.Inv;
    hide Link.Consistent;
    var packet := SealedPacket(theirs, T.MSG_FORWARD, sender, counter, Forwarded(carried));
    ForwardIsHandled(s, end, theirs, sender, counter, carried, env);
    AcceptedLink(s.links[q], theirs, T.MSG_FORWARD, sender, counter, Forwarded(carried), env.now);
    r := Relaying.Opened(s, q, packet, env);
  }

  lemma PassOnForwards(s: Node, p: Peer, q: Peer, end: AddrPort, carried: Carried)
    requires p in s.links && p != q && Carrying(s, q, end) && carried.destination == q.virtualIP && carried.hopLimit > 0
    ensures PassOn(s, carried, p) == Forward(s, q, carried.(hopLimit := carried.hopLimit - 1)).0
  {
    hide Handlers.Forward, L.Reached, L.Of;
  }

  /** A relay passes it on, over the link it holds to the destination. */
  lemma PassedOn(s: Node, p: Peer, at: AddrPort, q: Peer, end: AddrPort, theirs: Session, sender: uint64,
                 counter: uint64, carried: Carried, env: Env)
    requires Knows(s, p, at) && Carrying(s, q, end) && p != q && carried.destination == q.virtualIP != s.virtualIP
    requires s.links[p].session == Some(theirs.OtherEnd()) && Replay.Admits(s.links[p].replay, counter)
    requires carried.hopLimit > 0 && carried.source.V4?
    ensures
      var r := Receive(s, SealedPacket(theirs, T.MSG_FORWARD, sender, counter, Forwarded(carried)), at, env);
      && Kept(s, r) && p in r.links && q in r.links && r.links[p] == Slid(s.links[p], counter, env.now)
      && r.links[q] == s.links[q].Counted()
      && Sent(r, end, Hopped(s.links[q], q, carried.(hopLimit := carried.hopLimit - 1)))
  {
    hide Handlers.Receive, Handlers.PassOn, Replay.Admits, Replay.Slide, Node.Inv, Sent, SameAddresses;
    var unsealed := ForwardOpens(s, p, at, theirs, sender, counter, carried, env);
    CarryingStill(s, unsealed, q, end);
    PassOnForwards(unsealed, p, q, end, carried);
    ForwardWrites(unsealed, q, end, carried.(hopLimit := carried.hopLimit - 1));
    KeptTwice(s, unsealed, Forward(unsealed, q, carried.(hopLimit := carried.hopLimit - 1)).0);
  }

  /** What a forward brings here is handled as its source's packet. */
  lemma BroughtHere(s: Node, p: Peer, at: AddrPort, q: Peer, end: AddrPort, theirs: Session, sender: uint64,
                    counter: uint64, carried: Carried, env: Env) returns (r: Node)
    requires Knows(s, p, at) && Carrying(s, q, end) && p != q
    requires s.links[q].session == Some(theirs.OtherEnd()) && Replay.Admits(s.links[q].replay, counter)
    requires carried.destination == s.virtualIP && carried.source == p.virtualIP
    requires carried.packet.header.version == T.VERSION
    ensures Kept(s, r) && r.links == s.links[q := Slid(s.links[q], counter, env.now)]
    ensures Knows(r, p, at) && Carrying(r, q, end) && KnownSource(r, Source(NO_ENDPOINT, p, q))
    ensures
      Receive(s, SealedPacket(theirs, T.MSG_FORWARD, sender, counter, Forwarded(carried)), end, env) ==
        Dispatch(r, carried.packet, Source(NO_ENDPOINT, p, q), env)
  {
    hide Handlers.Receive, Handlers.Dispatch, Handlers.DeliverForwarded, Replay.Admits, Replay.Slide, Node.Inv;
    hide SameAddresses;
    r := ForwardOpens(s, q, end, theirs, sender, counter, carried, env);
    KnowsStill(s, r, p, at);
    CarryingStill(s, r, q, end);
    DeliveredIsDispatched(r, carried, q, env);
  }

  lemma InitThrough(s: Node, p: Peer, at: AddrPort, q: Peer, end: AddrPort, theirs: Session, sender: uint64,
                    counter: uint64, carried: Carried, init: Init, env: Env)
    requires Knows(s, p, at) && Carrying(s, q, end) && p != q
    requires s.links[q].session == Some(theirs.OtherEnd()) && Replay.Admits(s.links[q].replay, counter)
    requires carried.destination == s.virtualIP && carried.source == p.virtualIP
    requires carried.packet.header.version == T.VERSION && carried.packet.header.kind == T.MSG_HANDSHAKE_INIT
    requires carried.packet.body == InitBody(p.deviceID, init) && ReadInit(s.key, init) == Some(p.transportKey)
    ensures
      var r := Receive(s, SealedPacket(theirs, T.MSG_FORWARD, sender, counter, Forwarded(carried)), end, env);
      var response := Envelope(T.MSG_HANDSHAKE_RESPONSE, p.sender, 0, ResponseBody(Response(init, env.ephemeral)));
      && Kept(s, r) && p in r.links && Holds(r.links[p], Crypto.Session(init, env.ephemeral, false), q, Replay.EMPTY, 0)
      && r.links[q] == Slid(s.links[q], counter, env.now).Counted().Counted()
      && Sent(r, end, Hopped(s.links[q], q, Carried(INITIAL_HOP_LIMIT, s.virtualIP, p.virtualIP, response)))
  {
    hide Handlers.Receive, Handlers.HandleInit, Replay.Admits, Replay.Slide, Node.Inv, SameAddresses, Sent;
    hide Handlers.HandleResponse, Handlers.HandleKeepalive, Handlers.HandleData, Handlers.HandleClose;
    var unsealed := BroughtHere(s, p, at, q, end, theirs, sender, counter, carried, env);
    InitHandledThrough(unsealed, p, at, q, end, carried.packet, init, env);
    KeptTwice(s, unsealed, HandleInit(unsealed, carried.packet, Source(NO_ENDPOINT, p, q), env));
  }

  lemma ResponseThrough(s: Node, p: Peer, at: AddrPort, q: Peer, end: AddrPort, theirs: Session, sender: uint64,
                        counter: uint64, carried: Carried, response: Response, env: Env)
    requires Knows(s, p, at) && Carrying(s, q, end) && p != q
    requires s.links[q].session == Some(theirs.OtherEnd()) && Replay.Admits(s.links[q].replay, counter)
    requires carried.destination == s.virtualIP && carried.source == p.virtualIP
    requires carried.packet.header.version == T.VERSION && carried.packet.header.kind == T.MSG_HANDSHAKE_RESPONSE
    requires carried.packet.body == ResponseBody(response) && s.links[p].handshake == Some(Handshake(response.init))
    ensures
      var r := Receive(s, SealedPacket(theirs, T.MSG_FORWARD, sender, counter, Forwarded(carried)), end, env);
      && Kept(s, r) && p in r.links
      && Holds(r.links[p], Crypto.Session(response.init, response.ephemeral, true), q, Replay.EMPTY, 0)
      && r.links[q] == Slid(s.links[q], counter, env.now).Counted()
  {
    hide Handlers.Receive, Handlers.HandleInit, Replay.Admits, Replay.Slide, Node.Inv, SameAddresses, Sent;
    hide Handlers.HandleResponse, Handlers.HandleKeepalive, Handlers.HandleData, Handlers.HandleClose;
    var unsealed := BroughtHere(s, p, at, q, end, theirs, sender, counter, carried, env);
    ResponseHandledThrough(unsealed, p, q, end, carried.packet, response, env);
    KeptTwice(s, unsealed, HandleResponse(unsealed, carried.packet, Source(NO_ENDPOINT, p, q), env));
  }

  // ----- a path through a relay -----

  /** The window after one packet, the first. */
  const ONE: Replay.Window := Replay.Slide(Replay.EMPTY, 0)

  /** What the k-th step takes from outside. */
  function Draw(k: nat): Env { Env(0, 0, k, Tables(map[], map[])) }

  /** The session that x opens with y from the keys of the k-th step and the next, as x holds it. */
  function Between(x: DeviceId, y: DeviceId, k: nat): Session {
    Crypto.Session(Init(Key(x), Key(y), k), k + 1, true)
  }

  /** A peer object stands for a daemon: its id, its key and its address on the LAN. */
  ghost predicate Names(net: Net, p: Peer, d: DeviceId) {
    d in net && p.deviceID == d && p.transportKey == Key(d) && p.virtualIP == net[d].virtualIP
  }

  /** A daemon that knows two peers, and none besides. */
  ghost predicate KnowsBoth(s: Node, d: DeviceId, p: Peer, at: AddrPort, q: Peer, end: AddrPort) {
    && Knows(s, p, at) && Knows(s, q, end) && Apart(p, at, q, end)
    && s.device == d && s.key == Key(d) && s.peers == map[p.deviceID := p, q.deviceID := q]
  }

  lemma KnowsBothStill(s: Node, r: Node, d: DeviceId, p: Peer, at: AddrPort, q: Peer, end: AddrPort)
    requires KnowsBoth(s, d, p, at, q, end) && Kept(s, r)
    ensures KnowsBoth(r, d, p, at, q, end)
  {
    hide Knows;
    KnowsStill(s, r, p, at);
    KnowsStill(s, r, q, end);
  }

  /** Three daemons, a below b below c, as each of them names the other two, and where they are. */
  datatype Cast = Cast(
    a: DeviceId, b: DeviceId, c: DeviceId,
    bAtA: Peer, cAtA: Peer,
    aAtB: Peer, cAtB: Peer,
    aAtC: Peer, bAtC: Peer,
    endA: AddrPort, endB: AddrPort, endC: AddrPort)
  {
    ghost predicate Fits(net: Net) {
      && Less(a, b) && Less(b, c) && |a| <= 255 && |b| <= 255
      && Names(net, bAtA, b) && Names(net, cAtA, c) && Names(net, aAtB, a) && Names(net, cAtB, c)
      && Names(net, aAtC, a) && Names(net, bAtC, b)
      && Apart(bAtA, endB, cAtA, endC) && Apart(aAtB, endA, cAtB, endC) && Apart(aAtC, endA, bAtC, endB)
    }

    ghost predicate Acquainted(net: Net) {
      && Fits(net)
      && KnowsBoth(net[a], a, bAtA, endB, cAtA, endC)
      && KnowsBoth(net[b], b, aAtB, endA, cAtB, endC)
      && KnowsBoth(net[c], c, aAtC, endA, bAtC, endB)
    }

    ghost predicate New(net: Net) {
      && Acquainted(net)
      && Fresh(net[a].links[bAtA], endB) && Fresh(net[a].links[cAtA], endC)
      && Fresh(net[b].links[aAtB], endA) && Fresh(net[b].links[cAtB], endC)
      && Fresh(net[c].links[aAtC], endA) && Fresh(net[c].links[bAtC], endB)
    }

    /** The links beside the relay are straight, with these windows and counters. */
    ghost predicate Beside(net: Net, ab: (Replay.Window, uint64), ba: (Replay.Window, uint64),
                           bc: (Replay.Window, uint64), cb: (Replay.Window, uint64)) {
      && Acquainted(net)
      && Holds(net[a].links[bAtA], Between(a, b, 1), null, ab.0, ab.1)
      && Holds(net[b].links[aAtB], Between(a, b, 1).OtherEnd(), null, ba.0, ba.1)
      && Holds(net[b].links[cAtB], Between(b, c, 3), null, bc.0, bc.1)
      && Holds(net[c].links[bAtC], Between(b, c, 3).OtherEnd(), null, cb.0, cb.1)
    }

    /** a has asked b to carry its link to c, and waits for the answer. */
    ghost predicate Waits(net: Net)
      requires Acquainted(net)
    {
      net[a].links[cAtA].via == bAtA && net[a].links[cAtA].handshake == Some(Handshake(Init(Key(a), Key(c), 5)))
    }

    /** c's end of the link to a is open. */
    ghost predicate Open(net: Net)
      requires Acquainted(net)
    {
      Holds(net[c].links[aAtC], Between(a, c, 5).OtherEnd(), bAtC, Replay.EMPTY, 0)
    }

    /** The init that a sends c, and the response, as what each hop carries. */
    ghost function There(net: Net, hops: byte): Carried
      requires Acquainted(net)
    {
      Carried(hops, net[a].virtualIP, net[c].virtualIP,
              Envelope(T.MSG_HANDSHAKE_INIT, cAtA.sender, 0, InitBody(a, Init(Key(a), Key(c), 5))))
    }

    ghost function Back(net: Net, hops: byte): Carried
      requires Acquainted(net)
    {
      Carried(hops, net[c].virtualIP, net[a].virtualIP,
              Envelope(T.MSG_HANDSHAKE_RESPONSE, aAtC.sender, 0, ResponseBody(Response(Init(Key(a), Key(c), 5), 6))))
    }

    ghost function Way(net: Net): Path
      requires Acquainted(net)
    {
      Path(net[a], net[b], net[c], bAtA, cAtA, aAtB, cAtB, aAtC, bAtC, endA, endB)
    }
  }

  /** With one daemon's step the three are acquainted still. */
  lemma AcquaintedStill(t: Cast, net: Net, d: DeviceId, r: Node)
    requires t.Acquainted(net) && d in net && Kept(net[d], r)
    ensures t.Acquainted(net[d := r])
  {
    hide Knows, SameAddresses, KnowsBoth;
    if d == t.a { KnowsBothStill(net[d], r, d, t.bAtA, t.endB, t.cAtA, t.endC); }
    if d == t.b { KnowsBothStill(net[d], r, d, t.aAtB, t.endA, t.cAtB, t.endC); }
    if d == t.c { KnowsBothStill(net[d], r, d, t.aAtC, t.endA, t.bAtC, t.endB); }
  }

  lemma AllAreAdded(t: Cast, start: Net) returns (events: seq<Event>)
    requires AllBlank(start) && t.Fits(start)
    ensures t.New(Run(start, events))
  {
    hide Knows, Run, Fresh;
    LessAsymmetric(t.a, t.b);
    LessAsymmetric(t.b, t.c);
    LessTransitive(t.a, t.b, t.c);
    LessAsymmetric(t.a, t.c);
    RunNothing(start);
    events := TwoAreAdded(start, [], t.a, t.bAtA, t.endB, t.cAtA, t.endC, Draw(0));
    events := TwoAreAdded(start, events, t.b, t.aAtB, t.endA, t.cAtB, t.endC, Draw(0));
    events := TwoAreAdded(start, events, t.c, t.aAtC, t.endA, t.bAtC, t.endB, Draw(0));
  }

  /** Nor with a step of another. */
  lemma AcquaintedTwice(t: Cast, net: Net, x: DeviceId, y: DeviceId, after: Net)
    requires t.Acquainted(net) && x in net && y in net && x != y && after.Keys == net.Keys
    requires Kept(net[x], after[x]) && Kept(net[y], after[y]) && after == net[x := after[x]][y := after[y]]
    ensures t.Acquainted(after)
  {
    hide Kept, Cast.Acquainted;
    AcquaintedStill(t, net, x, after[x]);
    AcquaintedStill(t, net[x := after[x]], y, after[y]);
  }

  /** a and b shake hands. */
  lemma FirstTwoShake(t: Cast, start: Net, events: seq<Event>) returns (more: seq<Event>)
    requires t.New(Run(start, events))
    ensures
      var net := Run(start, more);
      && t.Acquainted(net) && Fresh(net[t.a].links[t.cAtA], t.endC)
      && JustOpened(net[t.a].links[t.bAtA], Between(t.a, t.b, 1))
      && JustOpened(net[t.b].links[t.aAtB], Between(t.a, t.b, 1).OtherEnd())
      && Fresh(net[t.b].links[t.cAtB], t.endC) && Fresh(net[t.c].links[t.bAtC], t.endB)
  {
    hide Run, Kept, JustOpened, Fresh, Apart, Node.Inv;
    LessAsymmetric(t.a, t.b);
    LessAsymmetric(t.b, t.c);
    LessTransitive(t.a, t.b, t.c);
    LessAsymmetric(t.a, t.c);
    more := Shake(start, events, t.a, t.bAtA, t.endB, t.b, t.aAtB, t.endA, Draw(1), Draw(2));
    AcquaintedTwice(t, Run(start, events), t.a, t.b, Run(start, more));
  }

  /** And b and c. */
  lemma NeighboursShake(t: Cast, start: Net, events: seq<Event>) returns (more: seq<Event>)
    requires t.New(Run(start, events))
    ensures
      var net := Run(start, more);
      && t.Beside(net, (Replay.EMPTY, 0), (Replay.EMPTY, 0), (Replay.EMPTY, 0), (Replay.EMPTY, 0))
      && Fresh(net[t.a].links[t.cAtA], t.endC)
  {
    hide Run, Kept, Cast.New, Apart;
    var first := FirstTwoShake(t, start, events);
    LessAsymmetric(t.a, t.b);
    LessAsymmetric(t.b, t.c);
    LessTransitive(t.a, t.b, t.c);
    LessAsymmetric(t.a, t.c);
    more := Shake(start, first, t.b, t.cAtB, t.endC, t.c, t.bAtC, t.endB, Draw(3), Draw(4));
    AcquaintedTwice(t, Run(start, first), t.b, t.c, Run(start, more));
  }

  /** c's link fails at a, and its next tick asks b to carry it. */
  lemma RelayIsAsked(t: Cast, start: Net, events: seq<Event>) returns (more: seq<Event>)
    requires
      var net := Run(start, events);
      && t.Beside(net, (Replay.EMPTY, 0), (Replay.EMPTY, 0), (Replay.EMPTY, 0), (Replay.EMPTY, 0))
      && Fresh(net[t.a].links[t.cAtA], t.endC)
    ensures
      var net := Run(start, more);
      && t.Beside(net, (Replay.EMPTY, 1), (Replay.EMPTY, 0), (Replay.EMPTY, 0), (Replay.EMPTY, 0)) && t.Waits(net)
      && Sent(net[t.a], t.endB, SealedPacket(Between(t.a, t.b, 1), T.MSG_FORWARD, t.bAtA.sender, 0,
                                     Forwarded(t.There(net, INITIAL_HOP_LIMIT))))
  {
    hide Run, SameAddresses, Handlers.Receive, Handlers.TickPeer, Sent, Node.Inv, Deliverable;
    var net := Run(start, events);
    LessTransitive(t.a, t.b, t.c);
    LessAsymmetric(t.a, t.c);
    var close := Envelope(T.MSG_CLOSE, 0, 0, NoBody);
    ClosedStraight(net[t.a], t.cAtA, t.endC, Draw(0));
    NothingSaid(net, close);
    more := Then(start, events, Arrive(t.a, close, t.endC, Draw(0)));
    var failed := Run(start, more);
    AcquaintedStill(t, net, t.a, failed[t.a]);
    TickedThrough(failed[t.a], t.cAtA, t.endC, t.bAtA, t.endB, Draw(5));
    more := Then(start, more, TickOne(t.a, t.cAtA, false, Draw(5)));
    AcquaintedStill(t, failed, t.a, Run(start, more)[t.a]);
  }

  /** b passes a's init on to c. */
  lemma InitIsCarried(t: Cast, start: Net, events: seq<Event>) returns (more: seq<Event>)
    requires
      var net := Run(start, events);
      && t.Beside(net, (Replay.EMPTY, 1), (Replay.EMPTY, 0), (Replay.EMPTY, 0), (Replay.EMPTY, 0)) && t.Waits(net)
      && Sent(net[t.a], t.endB, SealedPacket(Between(t.a, t.b, 1), T.MSG_FORWARD, t.bAtA.sender, 0,
                                     Forwarded(t.There(net, INITIAL_HOP_LIMIT))))
    ensures
      var net := Run(start, more);
      && t.Beside(net, (Replay.EMPTY, 1), (ONE, 0), (Replay.EMPTY, 1), (Replay.EMPTY, 0)) && t.Waits(net)
      && Sent(net[t.b], t.endC, SealedPacket(Between(t.b, t.c, 3), T.MSG_FORWARD, t.cAtB.sender, 0,
         Forwarded(t.There(net, 0))))
  {
    hide Run, SameAddresses, Handlers.Receive, Sent, Node.Inv, Replay.Admits, Replay.Slide;
    var net := Run(start, events);
    FirstIsAdmitted();
    LessAsymmetric(t.a, t.b);
    LessAsymmetric(t.b, t.c);
    PassedOn(net[t.b], t.aAtB, t.endA, t.cAtB, t.endC, Between(t.a, t.b, 1), t.bAtA.sender, 0,
             t.There(net, INITIAL_HOP_LIMIT), Draw(0));
    more := SentArrives(start, events, t.a, t.endB, t.b,
      SealedPacket(Between(t.a, t.b, 1), T.MSG_FORWARD, t.bAtA.sender, 0, Forwarded(t.There(net, INITIAL_HOP_LIMIT))),
      t.endA, Draw(0));
    AcquaintedStill(t, net, t.b, Run(start, more)[t.b]);
  }

  lemma FirstIsAdmitted()
    ensures Replay.Admits(Replay.EMPTY, 0)
    ensures forall n: uint64 | n > 0 :: Replay.Admits(ONE, n)
  {}

  /** c opens its end, and answers through b. */
  lemma InitIsAnsweredThrough(t: Cast, start: Net, events: seq<Event>) returns (more: seq<Event>)
    requires
      var net := Run(start, events);
      && t.Beside(net, (Replay.EMPTY, 1), (ONE, 0), (Replay.EMPTY, 1), (Replay.EMPTY, 0)) && t.Waits(net)
      && Sent(net[t.b], t.endC, SealedPacket(Between(t.b, t.c, 3), T.MSG_FORWARD, t.cAtB.sender, 0,
         Forwarded(t.There(net, 0))))
    ensures
      var net := Run(start, more);
      && t.Beside(net, (Replay.EMPTY, 1), (ONE, 0), (Replay.EMPTY, 1), (ONE, 2)) && t.Waits(net) && t.Open(net)
      && Sent(net[t.c], t.endB, SealedPacket(Between(t.b, t.c, 3).OtherEnd(), T.MSG_FORWARD, t.bAtC.sender, 0,
                                     Forwarded(t.Back(net, INITIAL_HOP_LIMIT))))
  {
    hide Run, SameAddresses, Handlers.Receive, Sent, Node.Inv, Replay.Admits, Replay.Slide;
    var net := Run(start, events);
    FirstIsAdmitted();
    LessAsymmetric(t.b, t.c);
    LessTransitive(t.a, t.b, t.c);
    LessAsymmetric(t.a, t.c);
    InitThrough(net[t.c], t.aAtC, t.endA, t.bAtC, t.endB, Between(t.b, t.c, 3), t.cAtB.sender, 0, t.There(net, 0),
                Init(Key(t.a), Key(t.c), 5), Draw(6));
    more := SentArrives(start, events, t.b, t.endC, t.c,
      SealedPacket(Between(t.b, t.c, 3), T.MSG_FORWARD, t.cAtB.sender, 0, Forwarded(t.There(net, 0))), t.endB, Draw(6));
    AcquaintedStill(t, net, t.c, Run(start, more)[t.c]);
  }

  /** b passes c's response back. */
  lemma ResponseIsCarried(t: Cast, start: Net, events: seq<Event>) returns (more: seq<Event>)
    requires
      var net := Run(start, events);
      && t.Beside(net, (Replay.EMPTY, 1), (ONE, 0), (Replay.EMPTY, 1), (ONE, 2)) && t.Waits(net) && t.Open(net)
      && Sent(net[t.c], t.endB, SealedPacket(Between(t.b, t.c, 3).OtherEnd(), T.MSG_FORWARD, t.bAtC.sender, 0,
                                     Forwarded(t.Back(net, INITIAL_HOP_LIMIT))))
    ensures
      var net := Run(start, more);
      && t.Beside(net, (Replay.EMPTY, 1), (ONE, 1), (ONE, 1), (ONE, 2)) && t.Waits(net) && t.Open(net)
      && Sent(net[t.b], t.endA, SealedPacket(Between(t.a, t.b, 1).OtherEnd(), T.MSG_FORWARD, t.aAtB.sender, 0,
                                     Forwarded(t.Back(net, 0))))
  {
    hide Run, SameAddresses, Handlers.Receive, Sent, Node.Inv, Replay.Admits, Replay.Slide;
    var net := Run(start, events);
    FirstIsAdmitted();
    LessAsymmetric(t.a, t.b);
    LessAsymmetric(t.b, t.c);
    var theirs := Between(t.b, t.c, 3).OtherEnd();
    PassedOn(net[t.b], t.cAtB, t.endC, t.aAtB, t.endA, theirs, t.bAtC.sender, 0, t.Back(net, INITIAL_HOP_LIMIT),
      Draw(0));
    more := SentArrives(start, events, t.c, t.endB, t.b,
      SealedPacket(theirs, T.MSG_FORWARD, t.bAtC.sender, 0, Forwarded(t.Back(net, INITIAL_HOP_LIMIT))), t.endC,
        Draw(0));
    AcquaintedStill(t, net, t.b, Run(start, more)[t.b]);
  }

  /** For any three daemons there is a run after which a's link to c runs through b, and everything that carries
      a packet along it is in place. */
  lemma APathOpens(t: Cast, start: Net) returns (events: seq<Event>)
    requires AllBlank(start) && t.Fits(start)
    ensures
      var net := Run(start, events);
      t.Acquainted(net) && t.Way(net).Open()
  {
    hide Run, SameAddresses, Handlers.Receive, Sent, Node.Inv, Replay.Admits, Replay.Slide;
    events := AllAreAdded(t, start);
    events := NeighboursShake(t, start, events);
    events := RelayIsAsked(t, start, events);
    events := InitIsCarried(t, start, events);
    events := InitIsAnsweredThrough(t, start, events);
    events := ResponseIsCarried(t, start, events);
    events := ResponseIsTakenThrough(t, start, events);
    PathStands(t, Run(start, events));
  }

  /** And the response opens a's end. */
  lemma ResponseIsTakenThrough(t: Cast, start: Net, events: seq<Event>) returns (more: seq<Event>)
    requires
      var net := Run(start, events);
      && t.Beside(net, (Replay.EMPTY, 1), (ONE, 1), (ONE, 1), (ONE, 2)) && t.Waits(net) && t.Open(net)
      && Sent(net[t.b], t.endA, SealedPacket(Between(t.a, t.b, 1).OtherEnd(), T.MSG_FORWARD, t.aAtB.sender, 0,
                                     Forwarded(t.Back(net, 0))))
    ensures
      var net := Run(start, more);
      && t.Beside(net, (ONE, 2), (ONE, 1), (ONE, 1), (ONE, 2)) && t.Open(net)
      && Holds(net[t.a].links[t.cAtA], Between(t.a, t.c, 5), t.bAtA, Replay.EMPTY, 0)
  {
    hide Run, SameAddresses, Handlers.Receive, Sent, Node.Inv, Replay.Admits, Replay.Slide;
    var net := Run(start, events);
    FirstIsAdmitted();
    LessAsymmetric(t.a, t.b);
    LessTransitive(t.a, t.b, t.c);
    LessAsymmetric(t.a, t.c);
    var theirs := Between(t.a, t.b, 1).OtherEnd();
    ResponseThrough(net[t.a], t.cAtA, t.endC, t.bAtA, t.endB, theirs, t.aAtB.sender, 0, t.Back(net, 0),
                    Response(Init(Key(t.a), Key(t.c), 5), 6), Draw(0));
    more := SentArrives(start, events, t.b, t.endA, t.a,
      SealedPacket(theirs, T.MSG_FORWARD, t.aAtB.sender, 0, Forwarded(t.Back(net, 0))), t.endB, Draw(0));
    AcquaintedStill(t, net, t.a, Run(start, more)[t.a]);
  }

  lemma PathStands(t: Cast, net: Net)
    requires t.Beside(net, (ONE, 2), (ONE, 1), (ONE, 1), (ONE, 2)) && t.Open(net)
    requires Holds(net[t.a].links[t.cAtA], Between(t.a, t.c, 5), t.bAtA, Replay.EMPTY, 0)
    ensures t.Way(net).Open()
  {
    hide Replay.Admits, Replay.Slide, L.Reached, L.Of;
    FirstIsAdmitted();
    assert Between(t.a, t.b, 1).OtherEnd().OtherEnd() == Between(t.a, t.b, 1);
  }

  /** Three daemons with a path through the middle one: one event each, and any IP packet that the first sends is
      on the queue of the last, if there is room. */
  lemma APacketTravels(t: Cast, start: Net, events: seq<Event>, ip: seq<byte>) returns (more: seq<Event>)
    requires t.Acquainted(Run(start, events)) && t.Way(Run(start, events)).Open()
    ensures Run(start, more)[t.c].inbound == Queue(Run(start, events)[t.c].inbound, IPPacket(ip))
  {
    hide Run, Handlers.Receive, Handlers.SendData, Sent, Node.Inv, Node.Grows, Path.Open;
    LessAsymmetric(t.a, t.b);
    LessAsymmetric(t.b, t.c);
    LessTransitive(t.a, t.b, t.c);
    LessAsymmetric(t.a, t.c);
    var net := Run(start, events);
    var p := t.Way(net);
    OpenHolds(p);
    SenderWraps(p, ip);
    more := Then(start, events, SendIP(t.a, net[t.c].virtualIP, ip));
    LastIsSent(net[t.a], Run(start, more)[t.a], net[t.a].links[t.bAtA].endpoint, p.FirstHop(ip));
    RelayPasses(p, ip, Draw(0));
    more := SentArrives(start, more, t.a, net[t.a].links[t.bAtA].endpoint, t.b, p.FirstHop(ip), t.endA, Draw(0));
    LastIsSent(net[t.b], Run(start, more)[t.b], net[t.b].links[t.cAtB].endpoint, p.SecondHop(ip));
    ReceiverUnwraps(p, ip, Draw(0));
    more := SentArrives(start, more, t.b, net[t.b].links[t.cAtB].endpoint, t.c, p.SecondHop(ip), t.endB, Draw(0));
  }

  lemma OpenHolds(p: Path)
    requires p.Open()
    ensures p.cAtA in p.a.links && p.a.links[p.cAtA].session.Some?
    ensures p.bAtA in p.a.links && p.a.links[p.bAtA].session.Some?
    ensures p.cAtB in p.b.links && p.b.links[p.cAtB].session.Some?
  {}

  lemma LastIsSent(s: Node, r: Node, to: AddrPort, packet: Packet)
    requires |r.wire| == |s.wire| + 1 && r.wire[|s.wire|] == Datagram(to, packet)
    ensures Sent(r, to, packet)
  {}
}
