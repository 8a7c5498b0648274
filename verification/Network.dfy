/** Daemons together: any number of nodes, each taking one step at a time, over a network that may
    lose, repeat, reorder, alter, redirect or invent datagrams, so long as it cannot produce what only
    an honest daemon's keys can make: a handshake message of an honest daemon's, or a ciphertext of a
    session between two of them. */
module Network {
  import opened Handlers
  import opened Netip
  import opened Nodes
  import opened Packets
  import opened Peers
  import opened Safety
  import opened Session
  import Crypto = Session
  import L = PeerRuns
  import T = Transport

  /** The honest daemons, by device id. */
  type Net = map<DeviceId, Node>

  datatype Event =
    | Arrive(at: DeviceId, packet: Packet, from: AddrPort, env: Env)
    | TickOne(at: DeviceId, peer: Peer, keepalives: bool, env: Env)
    | Add(at: DeviceId, newcomer: Peer, endpoint: AddrPort, env: Env)
    | Remove(at: DeviceId, id: DeviceId, env: Env)
    | Move(at: DeviceId, id: DeviceId, endpoint: AddrPort, env: Env)
    | Retry(at: DeviceId, id: DeviceId, env: Env)
    | Restart(at: DeviceId, peers: seq<Peer>, envs: seq<Env>)
    | SendIP(at: DeviceId, destination: Addr, ip: seq<byte>)
    | Shout(at: DeviceId, peers: seq<Peer>, ip: seq<byte>)
    | Take(at: DeviceId)

  /** Whose end of a session this is, and whose the other is. */
  function Holder(s: Session): DeviceId { if s.initiator then s.init.author.owner else s.init.reader.owner }

  /** Only honest daemons have the keys it takes to make this. */
  predicate Ours(net: Net, a: Atom) {
    match a
    case InitAtom(i) => i.author.owner in net
    case ResponseAtom(r) => r.init.reader.owner in net
    case SealedAtom(text) => Holder(text.session) in net && Holder(text.session.OtherEnd()) in net
  }

  /** Some honest daemon has put it on the wire. */
  ghost predicate Said(net: Net, a: Atom) {
    exists d, k | d in net && 0 <= k < |net[d].wire| :: a in Atoms(net[d].wire[k].packet)
  }

  /** What the network can deliver: what only honest daemons can make, only after they made it. */
  ghost predicate Deliverable(net: Net, packet: Packet) {
    forall a | a in Atoms(packet) && Ours(net, a) :: Said(net, a)
  }

  /** An event that can happen: the packet can exist, the peers are the daemon's own, and the
      server hands out each device's own key. */
  ghost predicate Possible(net: Net, e: Event) {
    e.at in net && net[e.at].Inv() &&
    match e
    case Arrive(_, packet, _, _) => Deliverable(net, packet)
    case TickOne(at, peer, _, _) => peer in net[at].links
    case Add(at, newcomer, _, _) => newcomer !in net[at].links && newcomer.transportKey == Key(newcomer.deviceID)
    case Restart(at, peers, envs) => AllIn(peers, net[at].links.Keys) && |envs| == |peers|
    case Shout(at, peers, _) => AllIn(peers, net[at].links.Keys)
    case _ => true
  }

  /** The node an event happens at, after it. */
  ghost function Act(net: Net, e: Event): (r: Node)
    requires Possible(net, e)
    ensures r.Inv() && net[e.at].Grows(r)
  {
    hide Node.Inv, Deliverable;
    var s := net[e.at];
    match e
    case Arrive(_, packet, from, env) => Receive(s, packet, from, env)
    case TickOne(_, peer, keepalives, env) => TickPeer(s, peer, keepalives, env)
    case Add(_, newcomer, endpoint, env) => AddPeer(s, newcomer, endpoint, env)
    case Remove(_, id, env) => RemovePeer(s, id, env)
    case Move(_, id, endpoint, env) => SetPeerEndpoint(s, id, endpoint, env)
    case Retry(_, id, env) => RetryPeer(s, id, env)
    case Restart(_, peers, envs) => RestartLinks(s, peers, envs)
    case SendIP(_, destination, ip) => Send(s, destination, ip).0
    case Shout(_, peers, ip) => Broadcast(s, peers, ip).0
    case Take(_) => Dequeue(s)
  }

  ghost function Step(net: Net, e: Event): (r: Net)
    ensures r.Keys == net.Keys
  {
    if Possible(net, e) then net[e.at := Act(net, e)] else net
  }

  /** A daemon before its first peer. */
  ghost predicate Blank(s: Node, d: DeviceId) {
    s == Node(d, Key(d), s.virtualIP, map[], map[], map[], map[], [], [], [], {}, {}, [], [])
  }

  ghost predicate AllBlank(start: Net) {
    forall d | d in start :: Blank(start[d], d)
  }

  ghost function Run(start: Net, events: seq<Event>): (r: Net)
    ensures r.Keys == start.Keys
  {
    if events == [] then start else Step(Run(start, events[..|events| - 1]), events[|events| - 1])
  }

  lemma RunThen(start: Net, events: seq<Event>, e: Event)
    ensures Run(start, events + [e]) == Step(Run(start, events), e)
  {
    hide Step;
    assert (events + [e])[..|events|] == events;
  }

  lemma RunNothing(start: Net)
    ensures Run(start, []) == start
  {}

  // ----- the invariant -----

  /** An init was begun by an attempt of its author's, toward a device that is not lower; behind a response
      is a session its author has opened with the device that asked; a ciphertext was sealed by its end. */
  ghost predicate Good(net: Net, a: Atom) {
    Ours(net, a) ==>
      match a
      case InitAtom(i) => !Less(i.reader.owner, i.author.owner) && net[i.author.owner].OwnInit(i)
      case ResponseAtom(r) =>
        Opening(r.init.author.owner, Crypto.Session(r.init, r.ephemeral, false)) in net[r.init.reader.owner].openings
      case SealedAtom(text) => net[Holder(text.session)].OwnText(text)
  }

  /** The k-th thing done by a daemon was to accept, from a device that is not one of the honest, a forward
      that carries this packet. */
  ghost predicate BroughtIn(net: Net, d: DeviceId, k: nat, packet: Packet) {
    d in net && net[d].Carries(k, packet) && net[d].log[k].peer.deviceID !in net
  }

  /** A packet is no forward, or it was brought in from outside. */
  ghost predicate Flat(net: Net, packet: Packet) {
    packet.header.kind == T.MSG_FORWARD ==> exists d, k :: BroughtIn(net, d, k, packet)
  }

  ghost predicate Wraps(net: Net, d: DeviceId, k: nat)
    requires d in net && k < |net[d].log|
  {
    var e := net[d].log[k].op;
    e.Seal? && e.text.plain.Forwarded? ==> Flat(net, e.text.plain.carried.packet)
  }

  ghost predicate NodeOk(net: Net, d: DeviceId)
    requires d in net
  {
    var s := net[d];
    && s.Inv() && s.Safe() && s.device == d && s.key == Key(d)
    && (forall p | p in s.links :: p.transportKey == Key(p.deviceID))
    && (forall a | a in s.heard :: Good(net, a))
    && (forall k | 0 <= k < |s.log| :: Wraps(net, d, k))
  }

  ghost predicate NetOk(net: Net) {
    forall d | d in net :: NodeOk(net, d)
  }

  // ----- what an honest daemon holds and does -----

  /** A session on record is between this daemon and that device. */
  lemma OpeningIsBetween(net: Net, d: DeviceId, o: Opening)
    requires d in net && NodeOk(net, d) && o in net[d].openings
    ensures Holder(o.session) == d && Holder(o.session.OtherEnd()) == o.peer
  {
    hide Node.Inv, Node.QueueSound, Node.Once, Node.Proven, Node.MayWrite, Good, Wraps;
    assert net[d].SafeOpening(o);
  }

  /** What a daemon seals is of a session of its own with the device of that link. */
  lemma SealsOwnSessions(net: Net, d: DeviceId, k: nat)
    requires d in net && NodeOk(net, d) && k < |net[d].log| && net[d].log[k].op.Seal?
    ensures
      var text := net[d].log[k].op.text;
      && Holder(text.session) == d && Holder(text.session.OtherEnd()) == net[d].log[k].peer.deviceID
      && net[d].WellSealed(text)
  {
    hide Node.Inv, Node.QueueSound, Node.Once, Node.MayWrite, Node.SafeOpening, Node.WellSealed, Good, Wraps;
    var s, text := net[d], net[d].log[k].op.text;
    assert s.Proven(s.log[k].peer, s.log[k].op);
    OpeningIsBetween(net, d, Opening(s.log[k].peer.deviceID, text.session));
  }

  /** And what it accepts is of a session with the device of that link, and was handed to it. */
  lemma AcceptsOwnSessions(net: Net, d: DeviceId, k: nat)
    requires d in net && NodeOk(net, d) && k < |net[d].log| && net[d].log[k].op.Accept?
    ensures
      var text := net[d].log[k].op.text;
      && Holder(text.session) == net[d].log[k].peer.deviceID && Holder(text.session.OtherEnd()) == d
      && SealedAtom(text) in net[d].heard
  {
    hide Node.Inv, Node.QueueSound, Node.Once, Node.MayWrite, Node.SafeOpening, Node.WellSealed, Good, Wraps;
    var s, text := net[d], net[d].log[k].op.text;
    assert s.Proven(s.log[k].peer, s.log[k].op);
    OpeningIsBetween(net, d, Opening(s.log[k].peer.deviceID, text.session.OtherEnd()));
    assert text.session.OtherEnd().OtherEnd() == text.session;
  }

  lemma SayableIsGood(net: Net, d: DeviceId, a: Atom)
    requires d in net && NodeOk(net, d) && net[d].MaySay(a)
    ensures Good(net, a)
  {
    hide Node.Inv, Node.QueueSound, Node.Once, Node.MayWrite, Node.SafeOpening, Node.WellSealed, Wraps;
    var s := net[d];
    if a !in s.heard {
      match a
      case InitAtom(i) =>
        var k: nat :| s.Tried(k, i);
        assert s.Proven(s.log[k].peer, s.log[k].op);
        assert s.log[k].peer in s.links by { LogOfLinks(s, k); }
      case ResponseAtom(r) =>
        var p :| p in s.links && p.transportKey == r.init.author &&
                 Opening(p.deviceID, Crypto.Session(r.init, r.ephemeral, false)) in s.openings;
        OpeningIsBetween(net, d, Opening(p.deviceID, Crypto.Session(r.init, r.ephemeral, false)));
      case SealedAtom(text) =>
        var k :| s.Sealed(k, text);
        SealsOwnSessions(net, d, k);
    }
  }

  lemma LogOfLinks(s: Node, k: nat)
    requires s.Inv() && k < |s.log|
    ensures s.log[k].peer in s.links
  {
    hide L.Reached, L.Of, Link.Consistent;
  }

  lemma SaidIsGood(net: Net, a: Atom)
    requires NetOk(net) && Said(net, a)
    ensures Good(net, a)
  {
    hide Node.Inv, Node.QueueSound, Node.Once, Node.SafeOpening, Node.Proven, Node.MaySay, Good, Wraps;
    var d, k :| d in net && 0 <= k < |net[d].wire| && a in Atoms(net[d].wire[k].packet);
    assert NodeOk(net, d) && net[d].MayWrite(net[d].wire[k].packet);
    SayableIsGood(net, d, a);
  }

  // ----- it is kept -----

  lemma DeliverableIsGood(net: Net, packet: Packet)
    requires NetOk(net) && Deliverable(net, packet)
    ensures forall a | a in Atoms(packet) :: Good(net, a)
  {
    hide NodeOk, Said;
    forall a | a in Atoms(packet) && Ours(net, a) ensures Good(net, a) { SaidIsGood(net, a); }
  }

  lemma GoodStays(net: Net, d: DeviceId, r: Node, a: Atom)
    requires d in net && net[d].Grows(r) && Good(net, a)
    ensures Good(net[d := r], a)
  {
    if Ours(net, a) {
      match a
      case InitAtom(i) =>
        var k :| net[i.author.owner].Tried(k, i);
        assert net[d := r][i.author.owner].Tried(k, i);
      case ResponseAtom(_) =>
      case SealedAtom(text) =>
        var k :| net[Holder(text.session)].Sealed(k, text);
        assert net[d := r][Holder(text.session)].Sealed(k, text);
    }
  }

  lemma FlatStays(net: Net, d: DeviceId, r: Node, packet: Packet)
    requires d in net && net[d].Grows(r) && Flat(net, packet)
    ensures Flat(net[d := r], packet)
  {
    if packet.header.kind == T.MSG_FORWARD {
      var f, k :| BroughtIn(net, f, k, packet);
      assert BroughtIn(net[d := r], f, k, packet);
    }
  }

  lemma ActSafe(net: Net, e: Event)
    requires Possible(net, e) && net[e.at].Safe()
    ensures Act(net, e).Safe()
  {
    hide Node.Inv, Node.Safe, Node.Grows, Deliverable;
    hide Handlers.Receive, Handlers.TickPeer, Handlers.AddPeer, Handlers.SetPeerEndpoint, Handlers.RetryPeer;
    hide Handlers.RestartLinks, Handlers.Broadcast, Handlers.RemovePeer, Handlers.Dequeue, Handlers.Send;
    var s := net[e.at];
    match e
    case Arrive(_, packet, from, env) => ReceiveSafe(s, packet, from, env);
    case TickOne(_, peer, keepalives, env) => TickPeerSafe(s, peer, keepalives, env);
    case Add(_, newcomer, endpoint, env) => AddPeerSafe(s, newcomer, endpoint, env);
    case Remove(_, id, env) => RemovePeerSafe(s, id, env);
    case Move(_, id, endpoint, env) => SetPeerEndpointSafe(s, id, endpoint, env);
    case Retry(_, id, env) => RetryPeerSafe(s, id, env);
    case Restart(_, peers, envs) => RestartLinksSafe(s, peers, envs);
    case SendIP(_, destination, ip) => SendSafe(s, destination, ip);
    case Shout(_, peers, ip) => BroadcastSafe(s, peers, ip);
    case Take(_) => DequeueSafe(s);
  }

  /** What an event leaves of what a daemon has heard, and who its peers are. */
  lemma ActHears(net: Net, e: Event)
    requires Possible(net, e)
    ensures forall a | a in Act(net, e).heard :: a in net[e.at].heard || (e.Arrive? && a in Atoms(e.packet))
    ensures forall p | p in Act(net, e).links :: p in net[e.at].links || (e.Add? && p == e.newcomer)
  {
    hide Node.Inv, Node.Grows, Deliverable;
    hide Handlers.Receive, Handlers.TickPeer, Handlers.AddPeer, Handlers.SetPeerEndpoint, Handlers.RetryPeer;
    hide Handlers.RestartLinks, Handlers.Broadcast, Handlers.RemovePeer, Handlers.Dequeue, Handlers.Send;
  }

  lemma HeardIsGood(net: Net, e: Event)
    requires NetOk(net) && Possible(net, e)
    ensures forall a | a in Act(net, e).heard :: Good(net, a)
  {
    hide Good, Act, Node.Inv, Node.Safe, Wraps, Deliverable;
    assert NodeOk(net, e.at);
    ActHears(net, e);
    if e.Arrive? {
      assert Deliverable(net, e.packet);
      DeliverableIsGood(net, e.packet);
    }
  }

  /** What a daemon wraps is flat: it is no forward, or it came from outside, or from an honest daemon that
      had wrapped it before, and then it was flat there. */
  lemma WrapsFlat(net: Net, e: Event, k: nat)
    requires NetOk(net) && Possible(net, e) && k < |Act(net, e).log|
    requires Sound(net, e)
    ensures Wraps(net[e.at := Act(net, e)], e.at, k)
  {
    hide NodeOk, Act, Node.Inv, Node.Safe, Good, Possible, Flat, Node.Grows;
    var after, r := net[e.at := Act(net, e)], Act(net, e);
    var op := r.log[k].op;
    if op.Seal? && op.text.plain.Forwarded? && op.text.plain.carried.packet.header.kind == T.MSG_FORWARD {
      var packet := op.text.plain.carried.packet;
      SealedWell(r, k);
      var j :| r.Carries(j, packet);
      CarriedFlat(net, e, j, packet);
    } else if op.Seal? && op.text.plain.Forwarded? {
      NoForwardIsFlat(after, op.text.plain.carried.packet);
    }
  }

  lemma NoForwardIsFlat(net: Net, packet: Packet)
    requires packet.header.kind != T.MSG_FORWARD
    ensures Flat(net, packet)
  {}

  lemma SealedWell(s: Node, k: nat)
    requires s.Safe() && k < |s.log| && s.log[k].op.Seal?
    ensures s.WellSealed(s.log[k].op.text)
  {
    hide Node.QueueSound, Node.Once, Node.MayWrite, Node.SafeOpening, Node.WellSealed;
    assert s.Proven(s.log[k].peer, s.log[k].op);
  }

  /** What has been shown of the daemon that acts, before what it wraps. */
  ghost predicate Sound(net: Net, e: Event)
    requires Possible(net, e)
  {
    var r := Act(net, e);
    && r.Inv() && r.Safe() && r.device == e.at && r.key == Key(e.at)
    && (forall p | p in r.links :: p.transportKey == Key(p.deviceID))
    && (forall a | a in r.heard :: Good(net, a))
  }

  lemma CarriedFlat(net: Net, e: Event, j: nat, packet: Packet)
    requires NetOk(net) && Possible(net, e) && Sound(net, e) && Act(net, e).Carries(j, packet)
    ensures Flat(net[e.at := Act(net, e)], packet)
  {
    hide NodeOk, Act, Node.Inv, Node.Safe, Deliverable, Node.Grows, Flat;
    var after, r := net[e.at := Act(net, e)], Act(net, e);
    var from, text := r.log[j].peer.deviceID, r.log[j].op.text;
    if from !in net {
      FromOutside(after, e.at, j, packet);
    } else {
      AcceptedHere(net, e, j);
      assert Good(net, SealedAtom(text));
      var i :| net[from].Sealed(i, text);
      assert NodeOk(net, from);
      WrappedFlat(net, from, i);
      FlatStays(net, e.at, r, packet);
    }
  }

  lemma FromOutside(net: Net, d: DeviceId, k: nat, packet: Packet)
    requires d in net && net[d].Carries(k, packet) && net[d].log[k].peer.deviceID !in net
    ensures Flat(net, packet)
  {
    assert BroughtIn(net, d, k, packet);
  }

  lemma WrappedFlat(net: Net, d: DeviceId, k: nat)
    requires d in net && NodeOk(net, d) && k < |net[d].log|
    requires net[d].log[k].op.Seal? && net[d].log[k].op.text.plain.Forwarded?
    ensures Flat(net, net[d].log[k].op.text.plain.carried.packet)
  {
    hide Node.Inv, Node.Safe, Good, Flat;
    assert Wraps(net, d, k);
  }

  lemma AcceptedHere(net: Net, e: Event, j: nat)
    requires Possible(net, e) && Sound(net, e) && j < |Act(net, e).log| && Act(net, e).log[j].op.Accept?
    ensures
      var text := Act(net, e).log[j].op.text;
      && Holder(text.session) == Act(net, e).log[j].peer.deviceID && Holder(text.session.OtherEnd()) == e.at
      && SealedAtom(text) in Act(net, e).heard
  {
    hide Act, Node.Inv, Node.QueueSound, Node.Once, Node.MayWrite, Node.WellSealed, Good, Possible, Node.Grows;
    var r, text := Act(net, e), Act(net, e).log[j].op.text;
    assert r.Proven(r.log[j].peer, r.log[j].op);
    assert r.SafeOpening(Opening(r.log[j].peer.deviceID, text.session.OtherEnd()));
  }

  lemma ActorIsOk(net: Net, e: Event)
    requires NetOk(net) && Possible(net, e)
    ensures NodeOk(net[e.at := Act(net, e)], e.at)
  {
    hide Act, Node.Inv, Node.Safe, Good, Wraps;
    var r, after := Act(net, e), net[e.at := Act(net, e)];
    assert NodeOk(net, e.at);
    ActSafe(net, e);
    ActHears(net, e);
    HeardIsGood(net, e);
    assert Sound(net, e);
    forall a | a in r.heard ensures Good(after, a) { GoodStays(net, e.at, r, a); }
    forall k | 0 <= k < |r.log| ensures Wraps(after, e.at, k) { WrapsFlat(net, e, k); }
  }

  lemma OthersAreOk(net: Net, e: Event, d: DeviceId)
    requires NetOk(net) && Possible(net, e) && d in net && d != e.at
    ensures NodeOk(net[e.at := Act(net, e)], d)
  {
    hide Act, Good, Node.Inv, Node.Safe, Node.Grows, Deliverable, Flat;
    assert NodeOk(net, d);
    var after := net[e.at := Act(net, e)];
    forall a | a in net[d].heard ensures Good(after, a) { GoodStays(net, e.at, Act(net, e), a); }
    forall k | 0 <= k < |net[d].log| ensures Wraps(after, d, k) {
      assert Wraps(net, d, k);
      var op := net[d].log[k].op;
      if op.Seal? && op.text.plain.Forwarded? { FlatStays(net, e.at, Act(net, e), op.text.plain.carried.packet); }
    }
  }

  lemma StepKeeps(net: Net, e: Event)
    requires NetOk(net)
    ensures NetOk(Step(net, e))
  {
    hide NodeOk;
    if Possible(net, e) {
      ActorIsOk(net, e);
      forall d | d in net && d != e.at ensures NodeOk(Step(net, e), d) { OthersAreOk(net, e, d); }
    }
  }

  lemma {:induction false} RunKeeps(start: Net, events: seq<Event>)
    requires AllBlank(start)
    ensures NetOk(Run(start, events))
  {
    hide Step;
    if events != [] {
      RunKeeps(start, events[..|events| - 1]);
      StepKeeps(Run(start, events[..|events| - 1]), events[|events| - 1]);
    }
  }

  // ----- what it means -----

  /** Only the lower id ever opens a handshake: an init of an honest daemon, wherever it turns up, was begun
      by an attempt of that daemon's, and is addressed to a device that is higher, or to its own id. */
  lemma OnlyTheLowerIdOpens(start: Net, events: seq<Event>, init: Init)
    requires AllBlank(start)
    requires Said(Run(start, events), InitAtom(init)) && init.author.owner in start
    ensures init.author.owner == init.reader.owner || Less(init.author.owner, init.reader.owner)
    ensures Run(start, events)[init.author.owner].OwnInit(init)
  {
    hide NodeOk, Said;
    RunKeeps(start, events);
    SaidIsGood(Run(start, events), InitAtom(init));
    LessTotal(init.author.owner, init.reader.owner);
  }

  /** Every session an initiator has opened with an honest daemon is one that daemon opened, as the
      responder, for the very init the initiator wrote. */
  lemma SessionsAgree(start: Net, events: seq<Event>, a: DeviceId, b: DeviceId, s: Session)
    requires AllBlank(start)
    requires a in start && b in start
    requires Opening(b, s) in Run(start, events)[a].openings && s.initiator
    ensures s.init.author == Key(a) && s.init.reader == Key(b)
    ensures Opening(a, s.OtherEnd()) in Run(start, events)[b].openings
  {
    RunKeeps(start, events);
    AgreedNow(Run(start, events), a, b, s);
  }

  lemma AgreedNow(net: Net, a: DeviceId, b: DeviceId, s: Session)
    requires NetOk(net) && a in net && b in net && Opening(b, s) in net[a].openings && s.initiator
    ensures s.init.author == Key(a) && s.init.reader == Key(b)
    ensures Opening(a, s.OtherEnd()) in net[b].openings
  {
    hide Node.Inv, Node.QueueSound, Node.Once, Node.Proven, Node.MayWrite, Wraps;
    assert NodeOk(net, a) && net[a].SafeOpening(Opening(b, s));
    assert Good(net, ResponseAtom(Response(s.init, s.ephemeral)));
  }

  /** And the responder opened it first: before the step that opens the initiator's end. */
  lemma ResponderOpensFirst(net: Net, e: Event, b: DeviceId, s: Session)
    requires NetOk(net) && Possible(net, e) && b in net && b != e.at
    requires Opening(b, s) in Step(net, e)[e.at].openings && s.initiator
    ensures Opening(e.at, s.OtherEnd()) in net[b].openings
  {
    hide NodeOk, Act;
    StepKeeps(net, e);
    AgreedNow(Step(net, e), e.at, b, s);
  }

  /** A session held by a link is one that was opened with that peer. */
  lemma HeldIsOpened(start: Net, events: seq<Event>, a: DeviceId, p: Peer)
    requires AllBlank(start)
    requires a in start && p in Run(start, events)[a].links
    ensures
      var l := Run(start, events)[a].links[p];
      && l.Consistent()
      && (l.session.Some? ==> Opening(p.deviceID, l.session.value) in Run(start, events)[a].openings)
  {
    RunKeeps(start, events);
    var s := Run(start, events)[a];
    assert NodeOk(Run(start, events), a);
    hide Run, Node.Safe, Good, Wraps, L.Reached, L.Of;
    if s.links[p].session.Some? { SessionIsRecorded(s, p); }
  }
}
