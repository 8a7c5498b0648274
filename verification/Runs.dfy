/** Runs step by step: peers are told of each other, say what the handshake asks of them, and hear it. What each
    step makes of the daemon it happens at, when it goes as it should. */
module Runs {
  import opened Handlers
  import opened Lookup
  import opened Netip
  import opened Network
  import opened Nodes
  import opened Packets
  import opened Peers
  import opened Retry
  import opened Session
  import opened Wrappers
  import Crypto = Session
  import L = PeerRuns
  import Replay
  import T = Transport

  // ----- peers and links -----

  /** A peer that the daemon knows at an address, there and back. */
  ghost predicate Finds(s: Node, p: Peer, at: AddrPort) {
    && s.Inv() && p in s.links && p.deviceID in s.peers && s.peers[p.deviceID] == p
    && at.IsValid() && at in s.byUDP && s.byUDP[at] == p && s.links[p].endpoint == at
  }

  /** And by its address on the LAN. */
  ghost predicate Knows(s: Node, p: Peer, at: AddrPort) {
    Finds(s, p, at) && p.virtualIP.V4? && p.virtualIP in s.byIP && s.byIP[p.virtualIP] == p
  }

  /** The two are different devices at different addresses. */
  predicate Apart(p: Peer, at: AddrPort, q: Peer, end: AddrPort) {
    && p.deviceID != q.deviceID && p.virtualIP != q.virtualIP && at != end
    && at.IsValid() && end.IsValid() && p.virtualIP.V4? && q.virtualIP.V4?
  }

  /** A link as it is made, but for the token of its first probe. */
  predicate Fresh(l: Link, at: AddrPort) {
    l == NewLink(at).(pending := l.pending)
  }

  /** A link that holds a session, by that way, with that window and that counter. */
  predicate Holds(l: Link, session: Session, via: Peer?, replay: Replay.Window, counter: uint64) {
    l.session == Some(session) && l.via == via && l.replay == replay && l.counter == counter
  }

  /** One that was just opened straight. */
  predicate JustOpened(l: Link, session: Session) {
    Holds(l, session, null, Replay.EMPTY, 0)
  }

  /** The daemon is who it was and knows its peers as it did, and its record only grew. */
  ghost predicate Kept(s: Node, r: Node) {
    r.Inv() && s.Grows(r) && SameAddresses(s, r)
  }

  lemma FindsStill(s: Node, r: Node, p: Peer, at: AddrPort)
    requires Finds(s, p, at) && Kept(s, r)
    ensures Finds(r, p, at)
  {
    hide Node.Inv;
    assert Ends(r.links)[p] == r.links[p].endpoint && Ends(s.links)[p] == s.links[p].endpoint;
  }

  lemma KnowsStill(s: Node, r: Node, p: Peer, at: AddrPort)
    requires Knows(s, p, at) && Kept(s, r)
    ensures Knows(r, p, at)
  {
    hide Node.Inv, Finds;
    FindsStill(s, r, p, at);
  }

  lemma KeptTwice(s: Node, m: Node, r: Node)
    requires Kept(s, m) && Kept(m, r)
    ensures Kept(s, r)
  {
    hide Node.Inv;
  }

  /** A peer that a blank daemon is told of. */
  lemma ToldOfOne(s: Node, d: DeviceId, p: Peer, at: AddrPort, env: Env)
    requires Blank(s, d) && at.IsValid()
    ensures p !in s.links && s.Inv()
    ensures
      var r := AddPeer(s, p, at, env);
      && Finds(r, p, at) && Fresh(r.links[p], at)
      && r.device == d && r.key == Key(d) && r.virtualIP == s.virtualIP
  {
    hide Handlers.AddPeer, Node.Inv, Node.Grows, Indexes, Link.Consistent;
    BlankInv(s, d);
    AddPeerLink(s, p, at, env);
    IndexedFinds(AddPeer(s, p, at, env), p, at);
  }

  lemma IndexedFinds(s: Node, p: Peer, at: AddrPort)
    requires s.Indexed() && p in s.links && s.links[p].endpoint == at && at.IsValid()
    requires s.peers == map[p.deviceID := p]
    ensures Finds(s, p, at)
  {
    hide L.Reached, L.Of, Link.Consistent;
    assert s.peers[p.deviceID] == p;
    assert Ends(s.links)[p] == at;
  }

  /** Two peers that a blank daemon is told of. */
  lemma ToldOfTwo(s: Node, d: DeviceId, p: Peer, at: AddrPort, q: Peer, end: AddrPort, env: Env)
    requires Blank(s, d) && Apart(p, at, q, end)
    ensures p !in s.links && s.Inv()
    ensures q !in AddPeer(s, p, at, env).links
    ensures
      var r := AddPeer(AddPeer(s, p, at, env), q, end, env);
      && Knows(r, p, at) && Knows(r, q, end) && Fresh(r.links[p], at) && Fresh(r.links[q], end)
      && r.peers == map[p.deviceID := p, q.deviceID := q]
      && r.device == d && r.key == Key(d) && r.virtualIP == s.virtualIP
  {
    hide Handlers.AddPeer, Node.Inv, Node.Grows, Indexes, Link.Consistent;
    BlankInv(s, d);
    AddPeerLink(s, p, at, env);
    var first := AddPeer(s, p, at, env);
    AddPeerLink(first, q, end, env);
    var r := AddPeer(first, q, end, env);
    assert r.peers == map[p.deviceID := p, q.deviceID := q];
    IndexedKnows(r, p, at, q, end);
  }

  lemma IndexedKnows(s: Node, p: Peer, at: AddrPort, q: Peer, end: AddrPort)
    requires s.Indexed() && Apart(p, at, q, end) && s.peers == map[p.deviceID := p, q.deviceID := q]
    requires p in s.links && q in s.links && s.links[p].endpoint == at && s.links[q].endpoint == end
    ensures Knows(s, p, at) && Knows(s, q, end)
  {
    hide Node.Inv, Indexes;
    assert s.peers[p.deviceID] == p && s.peers[q.deviceID] == q;
    assert p in s.peers.Values && q in s.peers.Values;
    LookupsAreExact(s, p, p.virtualIP, at);
    LookupsAreExact(s, q, q.virtualIP, end);
  }

  // ----- a handshake that comes straight -----

  /** Opening a straight link changes that link only. */
  lemma OpensStraight(s: Node, p: Peer, at: AddrPort, session: Session, env: Env)
    requires Finds(s, p, at) && s.links[p].via == null
    ensures
      var r := OpenLink(s, p, session, env);
      Kept(s, r) && JustOpened(r.links[p], session) && r.links == s.links[p := r.links[p]]
  {
    hide Node.Inv, Link.Consistent;
  }

  /** A packet that a daemon wrote. */
  ghost predicate Sent(s: Node, to: AddrPort, packet: Packet) {
    exists k | 0 <= k < |s.wire| :: s.wire[k] == Datagram(to, packet)
  }

  lemma SentStill(s: Node, r: Node, to: AddrPort, packet: Packet)
    requires Sent(s, to, packet) && s.wire <= r.wire
    ensures Sent(r, to, packet)
  {
    var k :| 0 <= k < |s.wire| && s.wire[k] == Datagram(to, packet);
    assert r.wire[k] == s.wire[k];
  }

  lemma SentIsDeliverable(net: Net, d: DeviceId, to: AddrPort, packet: Packet)
    requires d in net && Sent(net[d], to, packet)
    ensures Deliverable(net, packet)
  {
    var k :| 0 <= k < |net[d].wire| && net[d].wire[k] == Datagram(to, packet);
    forall a | a in Atoms(packet) ensures Said(net, a) {}
  }

  /** An init that comes from its author's own address is answered there. */
  lemma AnsweredStraight(s: Node, p: Peer, at: AddrPort, packet: Packet, init: Init, env: Env)
    requires Finds(s, p, at) && s.links[p].via == null && ReadInit(s.key, init) == Some(p.transportKey)
    requires packet.header.version == T.VERSION && packet.header.kind == T.MSG_HANDSHAKE_INIT
    requires packet.body == InitBody(p.deviceID, init)
    ensures
      var r := Receive(s, packet, at, env);
      && Kept(s, r) && JustOpened(r.links[p], Crypto.Session(init, env.ephemeral, false))
      && r.links == s.links[p := r.links[p]]
      && Sent(r, at, Envelope(T.MSG_HANDSHAKE_RESPONSE, p.sender, 0, ResponseBody(Response(init, env.ephemeral))))
  {
    hide Node.Inv, Handlers.HandleInit, Handlers.HandleProbe, Handlers.HandleForward, Sent;
    hide Handlers.HandleResponse, Handlers.HandleKeepalive, Handlers.HandleData, Handlers.HandleClose;
    var heard := Hear(s, packet);
    FindsStill(s, heard, p, at);
    InitHandledStraight(heard, p, at, packet, init, Source(at, p, null), env);
    KeptTwice(s, heard, Receive(s, packet, at, env));
  }

  lemma InitHandledStraight(s: Node, p: Peer, at: AddrPort, packet: Packet, init: Init, src: Source, env: Env)
    requires Finds(s, p, at) && s.links[p].via == null && ReadInit(s.key, init) == Some(p.transportKey)
    requires packet.body == InitBody(p.deviceID, init) && src == Source(at, p, null) && KnownSource(s, src)
    ensures
      var r := HandleInit(s, packet, src, env);
      && Kept(s, r) && JustOpened(r.links[p], Crypto.Session(init, env.ephemeral, false))
      && r.links == s.links[p := r.links[p]]
      && Sent(r, at, Envelope(T.MSG_HANDSHAKE_RESPONSE, p.sender, 0, ResponseBody(Response(init, env.ephemeral))))
  {
    hide Node.Inv, Link.Consistent, Handlers.OpenLink, Handlers.Reindex;
    var (reply, session) := WriteResponse(init, env.ephemeral);
    var sent := SendPacket(Record(s.Draw(env.ephemeral), p, session), p, T.MSG_HANDSHAKE_RESPONSE, ResponseBody(reply));
    var packet' := Envelope(T.MSG_HANDSHAKE_RESPONSE, p.sender, 0, ResponseBody(reply));
    assert sent.wire == s.wire + [Datagram(at, packet')];
    assert sent.wire[|s.wire|] == Datagram(at, packet');
    OpensStraight(sent, p, at, session, env);
    SentStill(sent, OpenLink(sent, p, session, env), at, packet');
  }

  /** The answer to a pending handshake, straight from the peer. */
  lemma TakenStraight(s: Node, p: Peer, at: AddrPort, packet: Packet, response: Response, env: Env)
    requires Finds(s, p, at) && s.links[p].via == null
    requires s.links[p].handshake == Some(Handshake(response.init))
    requires packet.header.version == T.VERSION && packet.header.kind == T.MSG_HANDSHAKE_RESPONSE
    requires packet.body == ResponseBody(response)
    ensures
      var r := Receive(s, packet, at, env);
      && Kept(s, r) && JustOpened(r.links[p], Crypto.Session(response.init, response.ephemeral, true))
      && r.links == s.links[p := r.links[p]]
  {
    hide Node.Inv, Handlers.HandleInit, Handlers.HandleProbe, Handlers.HandleForward, Handlers.OpenLink;
    hide Handlers.HandleKeepalive, Handlers.HandleData, Handlers.HandleClose, Link.Consistent;
    var heard := Hear(s, packet);
    var session := Crypto.Session(response.init, response.ephemeral, true);
    FindsStill(s, heard, p, at);
    OpensStraight(Record(heard, p, session), p, at, session, env);
  }

  /** The first tick of a link to a higher device begins a handshake. */
  lemma TickedStraight(s: Node, p: Peer, at: AddrPort, env: Env)
    requires Finds(s, p, at) && Fresh(s.links[p], at) && !Less(p.deviceID, s.device) && |s.device| <= 255
    ensures
      var r, h := TickPeer(s, p, false, env), WriteInit(s.key, p.transportKey, env.ephemeral);
      && Kept(s, r) && r.links == s.links[p := r.links[p]]
      && r.links[p].via == null && r.links[p].handshake == Some(h)
      && Sent(r, at, Envelope(T.MSG_HANDSHAKE_INIT, p.sender, 0, InitBody(s.device, h.init)))
  {
    hide Node.Inv, Link.Consistent, Handlers.Punch, Handlers.BeginHandshake, Handlers.TryRelay, Sent;
    hide Handlers.SendKeepalive, L.After, L.Allowed;
    PunchedStraight(s, p, at, env);
    BegunStraight(Punch(s, p, env), p, at, env);
    KeptTwice(s, Punch(s, p, env), TickPeer(s, p, false, env));
  }

  lemma PunchedStraight(s: Node, p: Peer, at: AddrPort, env: Env)
    requires Finds(s, p, at)
    ensures
      var r := Punch(s, p, env);
      && Kept(s, r) && Finds(r, p, at) && r.links == s.links[p := r.links[p]]
      && r.links[p] == s.links[p].(pending := r.links[p].pending)
  {
    hide Node.Inv, Link.Consistent;
  }

  lemma BegunStraight(s: Node, p: Peer, at: AddrPort, env: Env)
    requires Finds(s, p, at) && Opens(s, p, env.now) && s.links[p].via == null && |s.device| <= 255
    ensures
      var r, h := BeginHandshake(s, p, env), WriteInit(s.key, p.transportKey, env.ephemeral);
      && Kept(s, r) && r.links == s.links[p := r.links[p]]
      && r.links[p].via == null && r.links[p].handshake == Some(h)
      && Sent(r, at, Envelope(T.MSG_HANDSHAKE_INIT, p.sender, 0, InitBody(s.device, h.init)))
  {
    hide Node.Inv, Link.Consistent;
    var r, h := BeginHandshake(s, p, env), WriteInit(s.key, p.transportKey, env.ephemeral);
    var packet := Envelope(T.MSG_HANDSHAKE_INIT, p.sender, 0, InitBody(s.device, h.init));
    assert r.wire == s.wire + [Datagram(at, packet)];
    assert r.wire[|s.wire|] == Datagram(at, packet);
  }

  // ----- in a run -----

  /** What holds nothing that takes keys can always be delivered. */
  lemma NothingSaid(net: Net, packet: Packet)
    requires Atoms(packet) == {}
    ensures Deliverable(net, packet)
  {}

  /** One event more. */
  lemma Then(start: Net, events: seq<Event>, e: Event) returns (more: seq<Event>)
    requires Possible(Run(start, events), e)
    ensures more == events + [e]
    ensures
      var net := Run(start, events);
      Run(start, more) == net[e.at := Act(net, e)]
  {
    hide Act, Possible;
    RunThen(start, events, e);
    more := events + [e];
  }

  lemma OneIsAdded(start: Net, events: seq<Event>, d: DeviceId, p: Peer, at: AddrPort, env: Env)
    returns (more: seq<Event>)
    requires d in start && Blank(Run(start, events)[d], d) && at.IsValid() && p.transportKey == Key(p.deviceID)
    ensures
      var net, r := Run(start, events), Run(start, more)[d];
      && Run(start, more) == net[d := r] && Finds(r, p, at) && Fresh(r.links[p], at)
      && r.device == d && r.key == Key(d) && r.virtualIP == net[d].virtualIP
  {
    hide Handlers.AddPeer, Node.Inv, Run, Finds, Blank, Fresh;
    ToldOfOne(Run(start, events)[d], d, p, at, env);
    more := Then(start, events, Add(d, p, at, env));
  }

  lemma TwoAreAdded(start: Net, events: seq<Event>, d: DeviceId, p: Peer, at: AddrPort, q: Peer, end: AddrPort,
                    env: Env)
    returns (more: seq<Event>)
    requires d in start && Blank(Run(start, events)[d], d) && Apart(p, at, q, end)
    requires p.transportKey == Key(p.deviceID) && q.transportKey == Key(q.deviceID)
    ensures
      var net, r := Run(start, events), Run(start, more)[d];
      && Run(start, more) == net[d := r]
      && Knows(r, p, at) && Knows(r, q, end) && Fresh(r.links[p], at) && Fresh(r.links[q], end)
      && r.peers == map[p.deviceID := p, q.deviceID := q]
      && r.device == d && r.key == Key(d) && r.virtualIP == net[d].virtualIP
  {
    hide Handlers.AddPeer, Node.Inv, Run, Knows, Blank, Fresh;
    var net := Run(start, events);
    ToldOfTwo(net[d], d, p, at, q, end, env);
    more := Then(start, events, Add(d, p, at, env));
    more := Then(start, more, Add(d, q, end, env));
  }

  /** A packet that one daemon wrote arrives at another. */
  lemma SentArrives(start: Net, events: seq<Event>, from: DeviceId, dest: AddrPort, to: DeviceId, packet: Packet,
                    at: AddrPort, env: Env)
    returns (more: seq<Event>)
    requires
      var net := Run(start, events);
      from in net && to in net && Sent(net[from], dest, packet) && net[to].Inv()
    ensures
      var net := Run(start, events);
      Run(start, more) == net[to := Receive(net[to], packet, at, env)]
  {
    hide Run, Sent, Node.Inv, Handlers.Receive, Deliverable;
    SentIsDeliverable(Run(start, events), from, dest, packet);
    more := Then(start, events, Arrive(to, packet, at, env));
  }

  /** An init arrives from its author's address, and is answered. */
  lemma InitArrives(start: Net, events: seq<Event>, d: DeviceId, p: Peer, at: AddrPort, packet: Packet, init: Init,
                    env: Env)
    returns (more: seq<Event>)
    requires
      var net := Run(start, events);
      d in start && Deliverable(net, packet) && Finds(net[d], p, at) && net[d].links[p].via == null &&
      ReadInit(net[d].key, init) == Some(p.transportKey)
    requires packet.header.version == T.VERSION && packet.header.kind == T.MSG_HANDSHAKE_INIT
    requires packet.body == InitBody(p.deviceID, init)
    ensures more == events + [Arrive(d, packet, at, env)]
    ensures
      var net, r := Run(start, events), Run(start, more)[d];
      && Run(start, more) == net[d := r] && Kept(net[d], r) && p in r.links
      && JustOpened(r.links[p], Crypto.Session(init, env.ephemeral, false)) && r.links == net[d].links[p := r.links[p]]
      && Sent(r, at, Envelope(T.MSG_HANDSHAKE_RESPONSE, p.sender, 0, ResponseBody(Response(init, env.ephemeral))))
  {
    hide Handlers.Receive, Node.Inv, Run, Deliverable, Sent, Kept;
    AnsweredStraight(Run(start, events)[d], p, at, packet, init, env);
    more := Then(start, events, Arrive(d, packet, at, env));
  }

  lemma ResponseArrives(start: Net, events: seq<Event>, d: DeviceId, p: Peer, at: AddrPort, y: DeviceId,
                        end: AddrPort, sender: uint64,
                        response: Response, env: Env) returns (more: seq<Event>)
    requires
      var net := Run(start, events);
      && d in net && y in net && Sent(net[y], end,
         Envelope(T.MSG_HANDSHAKE_RESPONSE, sender, 0, ResponseBody(response)))
      && Finds(net[d], p, at) && net[d].links[p].via == null
      && net[d].links[p].handshake == Some(Handshake(response.init))
    ensures
      var net, r := Run(start, events), Run(start, more)[d];
      && Run(start, more) == net[d := r] && Kept(net[d], r) && p in r.links
      && JustOpened(r.links[p], Crypto.Session(response.init, response.ephemeral, true)) &&
         r.links == net[d].links[p := r.links[p]]
  {
    hide Handlers.Receive, Node.Inv, Run, Deliverable, Sent, Kept;
    var packet := Envelope(T.MSG_HANDSHAKE_RESPONSE, sender, 0, ResponseBody(response));
    SentIsDeliverable(Run(start, events), y, end, packet);
    TakenStraight(Run(start, events)[d], p, at, packet, response, env);
    more := Then(start, events, Arrive(d, packet, at, env));
  }

  /** Two daemons that know each other and have said nothing yet: y is p at x, and x is q at y. */
  ghost predicate Strangers(net: Net, x: DeviceId, p: Peer, at: AddrPort, y: DeviceId, q: Peer, end: AddrPort) {
    && x in net && y in net && Less(x, y) && |x| <= 255
    && Finds(net[x], p, at) && Fresh(net[x].links[p], at) && p.deviceID == y && p.transportKey == Key(y)
    && Finds(net[y], q, end) && Fresh(net[y].links[q], end) && q.deviceID == x && q.transportKey == Key(x)
    && net[x].device == x && net[x].key == Key(x) && net[y].key == Key(y)
  }

  /** The lower one ticks, its init is answered, and the answer taken: both ends are open, and nothing else of
      either daemon's links has moved. */
  lemma Shake(start: Net, events: seq<Event>, x: DeviceId, p: Peer, at: AddrPort, y: DeviceId, q: Peer, end: AddrPort,
              first: Env, second: Env) returns (more: seq<Event>)
    requires Strangers(Run(start, events), x, p, at, y, q, end)
    ensures
      var init := Init(Key(x), Key(y), first.ephemeral);
      var net, r := Run(start, events), Run(start, more);
      && r == net[x := r[x]][y := r[y]] && Kept(net[x], r[x]) && Kept(net[y], r[y])
      && p in r[x].links && q in r[y].links
      && JustOpened(r[x].links[p], Crypto.Session(init, second.ephemeral, true)) &&
         r[x].links == net[x].links[p := r[x].links[p]]
      && JustOpened(r[y].links[q], Crypto.Session(init, second.ephemeral, false)) &&
         r[y].links == net[y].links[q := r[y].links[q]]
      && Sent(r[x], at, Envelope(T.MSG_HANDSHAKE_INIT, p.sender, 0, InitBody(x, init)))
  {
    hide Handlers.Receive, Handlers.TickPeer, Node.Inv, Run, Deliverable, Sent, SameAddresses;
    var init := Init(Key(x), Key(y), first.ephemeral);
    var net := Run(start, events);
    LessAsymmetric(x, y);
    TickedStraight(net[x], p, at, first);
    more := Then(start, events, TickOne(x, p, false, first));
    var ticked := Run(start, more);
    var packet := Envelope(T.MSG_HANDSHAKE_INIT, p.sender, 0, InitBody(x, init));
    SentIsDeliverable(ticked, x, at, packet);
    FindsStill(net[x], ticked[x], p, at);
    more := InitArrives(start, more, y, q, end, packet, init, second);
    var answered := Run(start, more);
    more := ResponseArrives(start, more, x, p, at, y, end, q.sender, Response(init, second.ephemeral), first);
    KeptTwice(net[x], answered[x], Run(start, more)[x]);
    SentStill(ticked[x], Run(start, more)[x], at, packet);
  }
}
