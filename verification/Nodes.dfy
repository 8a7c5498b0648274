/** One daemon's mesh as a value, and every handler, tick and call as a function on it.
    The class in Mesh.dfy is proved against these functions. */
module Nodes {
  import opened Netip
  import opened Packets
  import opened Peers
  import Crypto = Session
  import opened Session
  import opened Wrappers
  import L = PeerRuns
  import T = Transport

  const INBOUND_CAPACITY := 256
  const INITIAL_HOP_LIMIT: byte := 1

  type Op = L.Op

  /** A session this daemon has opened with a device, kept as a record of the run. */
  datatype Opening = Opening(peer: DeviceId, session: Session)

  datatype Tables = Tables(byIP: map<Addr, Peer>, byUDP: map<AddrPort, Peer>)

  /** What a step takes from outside: the clock, a random token, a fresh ephemeral key,
      and the tables a rebuild gives (map iteration order decides between equal addresses). */
  datatype Env = Env(now: Time, token: uint64, ephemeral: nat, tables: Tables)

  /** Where a packet came from: an address and whoever is indexed there, or a peer and its relay. */
  datatype Source = Source(addr: AddrPort, peer: Peer?, relay: Peer?)

  datatype SendError = ErrNoSession | ErrNoPath | ErrNotIPv4 | ErrNoPeer

  /** The ephemeral key that an end of a session drew itself. */
  function Own(s: Session): nat {
    if s.initiator then s.init.ephemeral else s.ephemeral
  }

  /** Where each link is pointed. */
  ghost function Ends(links: map<Peer, Link>): map<Peer, AddrPort> {
    map p | p in links :: links[p].endpoint
  }

  /** Tables hold exactly the current peers' valid addresses. */
  ghost predicate Indexes(t: Tables, peers: map<DeviceId, Peer>, ends: map<Peer, AddrPort>)
    requires forall d | d in peers :: peers[d] in ends
  {
    && (forall ip | ip in t.byIP ::
          t.byIP[ip] in peers.Values && t.byIP[ip].virtualIP == ip && ip.IsValid())
    && (forall d | d in peers :: peers[d].virtualIP.IsValid() ==> peers[d].virtualIP in t.byIP)
    && (forall a | a in t.byUDP ::
          t.byUDP[a] in peers.Values && ends[t.byUDP[a]] == a && a.IsValid())
    && (forall d | d in peers :: ends[peers[d]].IsValid() ==> ends[peers[d]] in t.byUDP)
  }

  /** A daemon, and the record of its run: what was done to its links, one operation at a time, what it
      was handed, what it opened, which accepted packets it queued and the ephemeral keys it drew. */
  datatype Node = Node(
    device: DeviceId,
    key: Key,
    virtualIP: Addr,
    peers: map<DeviceId, Peer>,
    byIP: map<Addr, Peer>,
    byUDP: map<AddrPort, Peer>,
    links: map<Peer, Link>,
    inbound: seq<Plain>,
    wire: seq<Datagram>,
    log: seq<L.Deed>,
    heard: set<Atom>,
    openings: set<Opening>,
    queued: seq<nat>,
    drawn: seq<nat>)
  {
    /** Every peer object in use has a link, and every link is consistent and is what was done to it. */
    ghost predicate Inv() {
      && (forall d | d in peers :: peers[d] in links && peers[d].deviceID == d)
      && (forall ip | ip in byIP :: byIP[ip] in links)
      && (forall a | a in byUDP :: byUDP[a] in links)
      && (forall p | p in links :: links[p].Consistent() && (links[p].via != null ==> links[p].via in links))
      && (forall k | 0 <= k < |log| :: log[k].peer in links)
      && (forall p | p in links :: L.Reached(L.Of(log, p), links[p]))
    }

    /** The lookup tables agree with the peers. */
    ghost predicate Indexed() {
      Inv() && Indexes(Tables(byIP, byUDP), peers, Ends(links))
    }

    /** The k-th thing done was to attempt a link with this init. */
    ghost predicate Tried(k: nat, i: Init) {
      k < |log| && log[k].op.Attempt? && log[k].op.handshake == Some(Handshake(i))
    }

    /** The k-th thing done was to seal this packet. */
    ghost predicate Sealed(k: nat, text: Text) {
      k < |log| && log[k].op == L.Seal(text)
    }

    /** The k-th thing done was to accept this packet. */
    ghost predicate Accepted(k: nat, text: Text) {
      k < |log| && log[k].op.Accept? && log[k].op.text == text
    }

    /** The k-th thing done was to open this session. */
    ghost predicate Opened(k: nat, s: Session) {
      k < |log| && log[k].op.Open? && log[k].op.session == s
    }

    /** An init that an attempt of this daemon's own began. */
    ghost predicate OwnInit(i: Init) {
      exists k :: Tried(k, i)
    }

    /** A response for which this daemon has opened its own end of the session. */
    ghost predicate Answered(r: Response) {
      exists p | p in links :: p.transportKey == r.init.author &&
        Opening(p.deviceID, Crypto.Session(r.init, r.ephemeral, false)) in openings
    }

    /** A packet that this daemon sealed itself. */
    ghost predicate OwnText(text: Text) {
      exists k :: Sealed(k, text)
    }

    /** What this daemon may put on the wire: its own, or what it was handed. */
    ghost predicate MaySay(a: Atom) {
      a in heard ||
      match a
      case InitAtom(i) => OwnInit(i)
      case ResponseAtom(r) => Answered(r)
      case SealedAtom(text) => OwnText(text)
    }

    ghost predicate MaySend(p: Packet) {
      forall a | a in Atoms(p) :: MaySay(a)
    }

    /** What it may put on the wire itself: a sealed packet only if it sealed it. */
    ghost predicate MayWrite(p: Packet) {
      MaySend(p) && (p.body.SealedBody? ==> OwnText(p.body.text))
    }

    /** The k-th thing done was to accept a forward that carries this packet. */
    ghost predicate Carries(k: nat, packet: Packet) {
      && k < |log| && log[k].op.Accept?
      && log[k].op.text.plain.Forwarded? && log[k].op.text.plain.carried.packet == packet
    }

    /** What a forward may wrap: a packet that is no forward, or one that came in a forward accepted here. */
    ghost predicate MayCarry(packet: Packet) {
      packet.header.kind == T.MSG_FORWARD ==> exists k :: Carries(k, packet)
    }

    /** What this daemon seals: IP packets as data, and as a forward what a forward may wrap. */
    ghost predicate WellSealed(text: Text) {
      match text.plain
      case IPPacket(_) => text.header.kind == T.MSG_DATA
      case Forwarded(c) => text.header.kind == T.MSG_FORWARD && MayCarry(c.packet)
    }

    /** What may have been done to a link: an init for that peer, if it is not lower; a session on record;
        a packet sealed or accepted under such a session. */
    ghost predicate Proven(p: Peer, e: Op) {
      match e
      case Attempt(h, _) =>
        && !Less(p.deviceID, device)
        && (h.Some? ==> h.value.init.author == key && h.value.init.reader == p.transportKey)
      case Open(s, _) => Opening(p.deviceID, s) in openings
      case Seal(text) => Opening(p.deviceID, text.session) in openings && WellSealed(text)
      case Accept(text, _) => Opening(p.deviceID, text.session.OtherEnd()) in openings && SealedAtom(text) in heard
      case _ => true
    }

    /** A session was opened by a response heard to an init of our own, or for an init heard. */
    ghost predicate SafeOpening(o: Opening) {
      var s := o.session;
      exists p | p in links :: p.deviceID == o.peer &&
        if s.initiator then s.init.author == key && s.init.reader == p.transportKey &&
                            ResponseAtom(Response(s.init, s.ephemeral)) in heard
        else s.init.reader == key && s.init.author == p.transportKey && InitAtom(s.init) in heard
    }

    /** The k-th thing done was to accept a data packet. */
    ghost predicate GotData(k: nat) {
      k < |log| && log[k].op.Accept? && log[k].op.text.header.kind == T.MSG_DATA
    }

    /** And this is what the adapter gets of it. */
    ghost predicate Arrived(k: nat, plain: Plain) {
      GotData(k) && log[k].op.text.plain == plain
    }

    /** The queue holds the last of what was ever put on it, and each accepted packet was put there once. */
    ghost predicate QueueSound() {
      && (forall i | 0 <= i < |queued| :: GotData(queued[i]))
      && L.Distinct(queued)
      && |inbound| <= |queued|
      && (forall i | 0 <= i < |inbound| :: Arrived(queued[|queued| - |inbound| + i], inbound[i]))
    }

    /** If no ephemeral key was drawn twice: no session was opened twice, on one link or on two, and the
        answer to a pending handshake opens a session that was not opened yet. */
    ghost predicate Once() {
      && (forall j, k, s | Opened(j, s) && Opened(k, s) :: j == k)
      && (forall k, s | Opened(k, s) :: Own(s) in drawn)
      && (forall p | p in links && links[p].handshake.Some? :: links[p].handshake.value.init.ephemeral in drawn)
      && (forall p, k, s | p in links && links[p].handshake.Some? && Opened(k, s) && s.initiator ::
            s.init != links[p].handshake.value.init)
      && (forall p, q | p in links && q in links && links[p].handshake.Some? &&
                        links[q].handshake == links[p].handshake :: p == q)
    }

    ghost predicate Safe() {
      && (forall k | 0 <= k < |log| :: Proven(log[k].peer, log[k].op))
      && (forall o | o in openings :: SafeOpening(o))
      && (forall k | 0 <= k < |wire| :: MayWrite(wire[k].packet))
      && QueueSound()
      && (L.Distinct(drawn) ==> Once())
    }

    /** The records only grow and the identity stays. */
    ghost predicate Grows(r: Node) {
      && r.device == device && r.key == key && r.virtualIP == virtualIP
      && links.Keys <= r.links.Keys && log <= r.log
      && heard <= r.heard && openings <= r.openings && wire <= r.wire && queued <= r.queued && drawn <= r.drawn
    }

    /** As Grows, with nothing heard and no peer object added. */
    ghost predicate Stays(r: Node) {
      Grows(r) && r.heard == heard && r.links.Keys == links.Keys
    }

    /** As Grows, with the table of peers, their addresses and everything received left alone. */
    ghost predicate Steady(r: Node) {
      && r == Node(device, key, virtualIP, peers, byIP, byUDP, r.links, inbound, r.wire, r.log, heard, openings,
         queued, r.drawn)
      && Ends(r.links) == Ends(links)
      && Stays(r)
    }

    /** One operation on one link that leaves its address. */
    ghost function Do(p: Peer, e: Op): (r: Node)
      requires Inv() && p in links
      requires L.Allowed(links[p], e) && !e.SetEndpoint?
      requires e.RelayThrough? ==> e.relay in links
      requires e.AnswerVia? ==> e.carrier in links
      ensures r.Inv() && Steady(r)
    {
      hide Inv, Steady, L.After, L.Allowed, L.Reached;
      DoSteady(this, p, e);
      this.(links := links[p := L.After(links[p], e)], log := log + [L.Deed(p, e)])
    }

    ghost function Write(to: AddrPort, packet: Packet): (r: Node)
      requires Inv()
      ensures r.Inv() && Steady(r)
    {
      hide Inv;
      SameInv(this, this.(wire := wire + [Datagram(to, packet)]));
      this.(wire := wire + [Datagram(to, packet)])
    }

    /** Draws a fresh ephemeral key. */
    ghost function Draw(ephemeral: nat): (r: Node)
      requires Inv()
      ensures r.Inv() && Steady(r)
    {
      hide Inv;
      SameInv(this, this.(drawn := drawn + [ephemeral]));
      this.(drawn := drawn + [ephemeral])
    }
  }

  lemma DoInv(s: Node, p: Peer, e: Op)
    requires s.Inv() && p in s.links && L.Allowed(s.links[p], e)
    requires e.RelayThrough? ==> e.relay in s.links
    requires e.AnswerVia? ==> e.carrier in s.links
    ensures s.(links := s.links[p := L.After(s.links[p], e)], log := s.log + [L.Deed(p, e)]).Inv()
  {
    hide L.Reached, L.After, L.Allowed, L.Of, Link.Consistent;
    L.AfterKeeps(s.links[p], e);
    L.ReachedNext(L.Of(s.log, p), s.links[p], e);
    L.OfNext(s.log, p, e);
    ViaAfter(s.links[p], e);
  }

  lemma DoSteady(s: Node, p: Peer, e: Op)
    requires s.Inv() && p in s.links && L.Allowed(s.links[p], e) && !e.SetEndpoint?
    requires e.RelayThrough? ==> e.relay in s.links
    requires e.AnswerVia? ==> e.carrier in s.links
    ensures
      var r := s.(links := s.links[p := L.After(s.links[p], e)], log := s.log + [L.Deed(p, e)]);
      r.Inv() && s.Steady(r)
  {
    hide Node.Inv, L.After, L.Allowed, L.Reached, Ends;
    DoInv(s, p, e);
    DoEnds(s, p, e);
  }

  lemma ViaAfter(l: Link, e: Op)
    requires L.Allowed(l, e)
    ensures
      var via := L.After(l, e).via;
      via == l.via || via == null || (e.RelayThrough? && via == e.relay) || (e.AnswerVia? && via == e.carrier)
  {
    hide Link.Consistent;
  }

  lemma DoEnds(s: Node, p: Peer, e: Op)
    requires p in s.links && L.Allowed(s.links[p], e) && !e.SetEndpoint?
    ensures Ends(s.links[p := L.After(s.links[p], e)]) == Ends(s.links)
  {
    hide Link.Consistent;
    assert L.After(s.links[p], e).endpoint == s.links[p].endpoint;
  }

  /** The invariant speaks of the links, of what was done to them, and of the tables. */
  lemma SameInv(s: Node, r: Node)
    requires s.Inv() && r.links == s.links && r.log == s.log
    requires r.peers == s.peers && r.byIP == s.byIP && r.byUDP == s.byUDP
    ensures r.Inv()
  {
    hide L.Reached, L.Of, Link.Consistent;
  }

  /** A new peer object gets a link, and the first thing done to it is to point it at its address. */
  ghost function Enrol(s: Node, peer: Peer, endpoint: AddrPort): (r: Node)
    requires s.Inv() && peer !in s.links && peer.deviceID !in s.peers
    ensures r.Inv() && s.Grows(r)
  {
    EnrolInv(s, peer, endpoint);
    hide Node.Inv;
    s.(peers := s.peers[peer.deviceID := peer], links := s.links[peer := NewLink(endpoint)],
       log := s.log + [L.Deed(peer, L.SetEndpoint(endpoint))])
  }

  lemma EnrolInv(s: Node, peer: Peer, endpoint: AddrPort)
    requires s.Inv() && peer !in s.links && peer.deviceID !in s.peers
    ensures s.(peers := s.peers[peer.deviceID := peer], links := s.links[peer := NewLink(endpoint)],
               log := s.log + [L.Deed(peer, L.SetEndpoint(endpoint))]).Inv()
  {
    hide L.Reached, L.Of, Link.Consistent;
    L.ReachedFirst(endpoint);
    L.OfStranger(s.log, peer);
    L.OfNext(s.log, peer, L.SetEndpoint(endpoint));
    assert [] + [L.SetEndpoint(endpoint)] == [L.SetEndpoint(endpoint)];
  }

  lemma GrowsSelf(s: Node)
    ensures s.Grows(s)
  {}

  lemma GrowsTwice(s: Node, m: Node, r: Node)
    requires s.Grows(m) && m.Grows(r)
    ensures s.Grows(r)
  {}

  lemma SteadySelf(s: Node)
    ensures s.Steady(s)
  {}

  lemma SteadyTwice(s: Node, m: Node, r: Node)
    requires s.Steady(m) && m.Steady(r)
    ensures s.Steady(r)
  {}

  lemma TabledIsKnown(t: Tables, peers: map<DeviceId, Peer>, ends: map<Peer, AddrPort>)
    requires forall d | d in peers :: peers[d] in ends
    requires Indexes(t, peers, ends)
    ensures forall ip | ip in t.byIP :: t.byIP[ip] in ends
    ensures forall a | a in t.byUDP :: t.byUDP[a] in ends
  {}
}
