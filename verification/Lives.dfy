/** What a run says of every link of every daemon: how often it was tried, whom it asked to carry it, and
    that the handshake messages on the wire are those attempts and no others. */
module Lives {
  import opened Handlers
  import opened Netip
  import opened Network
  import opened Nodes
  import opened Packets
  import opened Peers
  import opened Session
  import opened Wrappers
  import L = PeerRuns
  import T = Transport

  /** In any run, whatever was done to a link since it was last sent direct, it has begun at most ten
      attempts and three more for each relay it tried, and asked no relay twice. */
  lemma AttemptsAreBounded(start: Net, events: seq<Event>, d: DeviceId, p: Peer)
    requires AllBlank(start) && d in start && p in Run(start, events)[d].links
    ensures
      var s := Run(start, events)[d];
      var life := L.Run(L.Of(s.log, p));
      && life.link == s.links[p]
      && |life.begun| <= 10 + 3 * |s.links[p].relaysTried|
      && L.Distinct(life.asked) && (forall r | r in life.asked :: r in s.links[p].relaysTried)
  {
    hide Node.Safe, Run, Good, Wraps, L.Of, Link.Consistent;
    RunKeeps(start, events);
    var s := Run(start, events)[d];
    assert NodeOk(Run(start, events), d);
    assert L.Reached(L.Of(s.log, p), s.links[p]);
    L.AttemptsAreBounded(L.Of(s.log, p));
  }

  // ----- attempts and what is on the wire -----

  /** The attempts a daemon made toward a device. */
  ghost function Attempts(s: Node, to: DeviceId): set<nat> {
    set k: nat | k < |s.log| && s.log[k].op.Attempt? && s.log[k].peer.deviceID == to
  }

  /** An init on the wire is one of them. */
  lemma InitWasAttempt(net: Net, init: Init) returns (k: nat)
    requires NetOk(net) && Said(net, InitAtom(init)) && init.author.owner in net
    ensures net[init.author.owner].Tried(k, init) && k in Attempts(net[init.author.owner], init.reader.owner)
  {
    hide Node.Inv, Said, Node.QueueSound, Node.Once, Node.MayWrite, Node.SafeOpening, Wraps;
    SaidIsGood(net, InitAtom(init));
    var s := net[init.author.owner];
    assert NodeOk(net, init.author.owner);
    var i: nat :| s.Tried(i, init);
    assert s.Proven(s.log[i].peer, s.log[i].op);
    LogOfLinks(s, i);
    k := i;
  }

  /** So the inits of a daemon's own toward a device, anywhere on the wire, however often repeated or passed
      on, are no more than its attempts. */
  lemma {:induction false} InitsAreAttempts(start: Net, events: seq<Event>, d: DeviceId, to: DeviceId, inits: set<Init>)
    requires AllBlank(start) && d in start
    requires forall i | i in inits ::
               i.author.owner == d && i.reader.owner == to && Said(Run(start, events), InitAtom(i))
    ensures |inits| <= |Attempts(Run(start, events)[d], to)|
  {
    hide Run, Said, NodeOk;
    RunKeeps(start, events);
    CountInits(Run(start, events), d, inits, Attempts(Run(start, events)[d], to));
  }

  lemma {:induction false} CountInits(net: Net, d: DeviceId, inits: set<Init>, places: set<nat>)
    requires NetOk(net) && d in net
    requires forall i | i in inits :: i.author.owner == d && Said(net, InitAtom(i))
    requires forall i, k | i in inits && net[d].Tried(k, i) && k in Attempts(net[d], i.reader.owner) :: k in places
    ensures |inits| <= |places|
    decreases |inits|
  {
    hide Said, NodeOk;
    if inits != {} {
      var i :| i in inits;
      var k := InitWasAttempt(net, i);
      CountInits(net, d, inits - {i}, places - {k});
    }
  }

  /** Beginning a handshake is one attempt, and puts its init on the wire once or, for want of a path, not
      at all; or it is nothing. */
  lemma BeginningIsOneAttempt(s: Node, peer: Peer, env: Env)
    requires s.Inv() && peer in s.links && |s.device| <= 255
    ensures
      var r := BeginHandshake(s, peer, env);
      var h := WriteInit(s.key, peer.transportKey, env.ephemeral);
      if !Opens(s, peer, env.now) then r == s
      else
        && |s.log| < |r.log| <= |s.log| + 2
        && r.log[|s.log|] == L.Deed(peer, L.Attempt(Some(h), env.now))
        && (forall k | |s.log| < k < |r.log| :: !r.log[k].op.Attempt?)
        && (r.wire == s.wire ||
            (|r.wire| == |s.wire| + 1 && r.wire[..|s.wire|] == s.wire &&
              InitAtom(h.init) in Atoms(r.wire[|s.wire|].packet)))
  {
    hide Node.Inv, Link.Consistent, Handlers.SendPacket;
    if Opens(s, peer, env.now) {
      var h := WriteInit(s.key, peer.transportKey, env.ephemeral);
      var begun := s.Draw(env.ephemeral).Do(peer, L.Attempt(Some(h), env.now));
      SendingIsOneDatagram(begun, peer, T.MSG_HANDSHAKE_INIT, InitBody(s.device, h.init));
    }
  }

  lemma SendingIsOneDatagram(s: Node, peer: Peer, kind: byte, body: Body)
    requires s.Inv() && peer in s.links
    ensures OneDatagram(s, SendPacket(s, peer, kind, body), Envelope(kind, peer.sender, 0, body))
  {
    hide L.Reached, L.Of, Link.Consistent, Handlers.Forward, Atoms, Node.Steady;
    var packet := Envelope(kind, peer.sender, 0, body);
    if s.links[peer].via != null {
      ForwardingIsOneDatagram(s, s.links[peer].via, Carried(INITIAL_HOP_LIMIT, s.virtualIP, peer.virtualIP, packet));
    }
  }

  /** A packet may have been sealed, and may have been written, with what it contains. */
  ghost predicate OneDatagram(s: Node, r: Node, packet: Packet) {
    && (r.log == s.log || (|r.log| == |s.log| + 1 && r.log[..|s.log|] == s.log && r.log[|s.log|].op.Seal?))
    && (r.wire == s.wire ||
        (|r.wire| == |s.wire| + 1 && r.wire[..|s.wire|] == s.wire && Atoms(packet) <= Atoms(r.wire[|s.wire|].packet)))
  }

  lemma ForwardingIsOneDatagram(s: Node, relay: Peer, carried: Carried)
    requires s.Inv() && relay in s.links
    ensures OneDatagram(s, Forward(s, relay, carried).0, carried.packet)
  {
    hide Node.Inv, Node.Steady, L.After, L.Allowed;
  }
}
