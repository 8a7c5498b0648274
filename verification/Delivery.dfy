/** What a whole run promises of the packets themselves: forwards do not nest, no counter seals two packets,
    and what ends on a queue is what an honest peer sent, once. */
module Delivery {
  import opened Handlers
  import opened Netip
  import opened Network
  import opened Nodes
  import opened Packets
  import opened Peers
  import opened Session
  import opened Wrappers
  import L = PeerRuns
  import Replay
  import T = Transport

  // ----- forwards -----

  /** Every forward that an honest daemon writes is one it sealed, and what it wraps is no forward, unless a
      device that is not honest brought that very packet in. */
  lemma ForwardsNestOnlyFromOutside(start: Net, events: seq<Event>, d: DeviceId, k: nat)
    requires AllBlank(start) && d in start && k < |Run(start, events)[d].wire|
    requires Run(start, events)[d].wire[k].packet.body.SealedBody?
    ensures
      var net := Run(start, events);
      var text := net[d].wire[k].packet.body.text;
      && net[d].OwnText(text)
      && (text.plain.Forwarded? <==> text.header.kind == T.MSG_FORWARD)
      && (Nested(net[d].wire[k].packet) ==> exists f, j :: BroughtIn(net, f, j, text.plain.carried.packet))
  {
    hide Run, Node.Inv, Node.QueueSound, Node.Once, Node.SafeOpening, Node.Proven, Node.MaySend, Good;
    RunKeeps(start, events);
    var net := Run(start, events);
    assert NodeOk(net, d) && net[d].MayWrite(net[d].wire[k].packet);
    var text := net[d].wire[k].packet.body.text;
    var i: nat :| net[d].Sealed(i, text);
    SealsOwnSessions(net, d, i);
    assert Wraps(net, d, i);
  }

  /** So where every peer is honest, no forward ever wraps a forward, whatever the network does. */
  lemma ForwardsNeverNest(start: Net, events: seq<Event>, d: DeviceId, k: nat)
    requires AllBlank(start) && d in start && k < |Run(start, events)[d].wire|
    requires forall f, p | f in start && p in Run(start, events)[f].links :: p.deviceID in start
    ensures !Nested(Run(start, events)[d].wire[k].packet)
  {
    hide Run, NodeOk, Node.OwnText;
    var net := Run(start, events);
    if Nested(net[d].wire[k].packet) {
      ForwardsNestOnlyFromOutside(start, events, d, k);
      RunKeeps(start, events);
      var f, j: nat :| BroughtIn(net, f, j, net[d].wire[k].packet.body.text.plain.carried.packet);
      LinkedIsHonest(start, events, f, j);
    }
  }

  lemma LinkedIsHonest(start: Net, events: seq<Event>, d: DeviceId, k: nat)
    requires AllBlank(start) && d in start && k < |Run(start, events)[d].log|
    requires forall f, p | f in start && p in Run(start, events)[f].links :: p.deviceID in start
    ensures Run(start, events)[d].log[k].peer.deviceID in start
  {
    hide Run, Node.Inv, Node.Safe, Good, Wraps;
    RunKeeps(start, events);
    assert NodeOk(Run(start, events), d);
    LogOfLinks(Run(start, events)[d], k);
  }

  // ----- sessions, counters -----

  /** A packet is sealed and accepted only under a session that was opened on that very link before. */
  lemma UsedWasOpened(s: Node, k: nat) returns (i: nat)
    requires s.Inv() && k < |s.log| && (s.log[k].op.Seal? || s.log[k].op.Accept?)
    ensures
      var text := s.log[k].op.text;
      s.Opened(i, if s.log[k].op.Seal? then text.session else text.session.OtherEnd()) && s.log[i].peer == s.log[k].peer
  {
    hide Node.Safe, Link.Consistent, L.Of, L.Run, L.Counters;
    var p, op := s.log[k].peer, s.log[k].op;
    assert L.Reached(L.Of(s.log, p), s.links[p]);
    var es, place := L.Of(s.log, p), L.Place(s.log, k);
    L.DeedInPlace(s.log, k);
    L.ProperPrefix(es, place);
    var session := if op.Seal? then op.text.session else op.text.session.OtherEnd();
    HoldsSession(L.Run(es[..place]).link, op, session);
    L.Origins(es[..place]);
    var at :| L.Opened(es[..place], at, session);
    i := L.DeedOf(s.log, p, at);
  }

  lemma HoldsSession(l: Link, e: Op, s: Session)
    requires L.Allowed(l, e) && (e.Seal? || e.Accept?)
    requires s == if e.Seal? then e.text.session else e.text.session.OtherEnd()
    ensures l.session == Some(s)
  {
    hide Link.Consistent;
    assert s.OtherEnd().OtherEnd() == s;
  }

  /** If no ephemeral key was drawn twice, a session is used on one link only. */
  lemma OneLinkEach(s: Node, j: nat, k: nat)
    requires s.Inv() && s.Once() && j < |s.log| && k < |s.log|
    requires (s.log[j].op.Seal? && s.log[k].op.Seal?) || (s.log[j].op.Accept? && s.log[k].op.Accept?)
    requires s.log[j].op.text.session == s.log[k].op.text.session
    ensures s.log[j].peer == s.log[k].peer
  {
    hide Node.Inv;
    var a := UsedWasOpened(s, j);
    var b := UsedWasOpened(s, k);
  }

  lemma LinkOpensOnce(s: Node, p: Peer)
    requires s.Once()
    ensures L.OpensOnce(L.Of(s.log, p))
  {
    var es := L.Of(s.log, p);
    forall i, j, t | L.Opened(es, i, t) && L.Opened(es, j, t) ensures i == j {
      var a := L.DeedOf(s.log, p, i);
      var b := L.DeedOf(s.log, p, j);
      assert s.Opened(a, t) && s.Opened(b, t);
    }
  }

  /** How many packets a daemon sealed on a link under a session. */
  ghost function SealedOn(s: Node, p: Peer, t: Session): nat {
    |L.Counters(L.Of(s.log, p), t)|
  }

  /** No two packets are sealed under one session and counter, on one link or on two, if no ephemeral key
      was drawn twice and no session sealed more than 2^64. */
  lemma SealedOnce(s: Node, j: nat, k: nat)
    requires s.Inv() && s.Once() && j < k < |s.log| && s.log[j].op.Seal? && s.log[k].op.Seal?
    requires SealedOn(s, s.log[j].peer, s.log[j].op.text.session) <= Replay.TWO_TO_THE_64
    ensures s.log[j].op.text.session != s.log[k].op.text.session || s.log[j].op.text.counter != s.log[k].op.text.counter
  {
    hide Node.Once, L.Of, L.OpensOnce, L.Proper, L.Run, Link.Consistent;
    if s.log[j].op.text.session == s.log[k].op.text.session {
      OneLinkEach(s, j, k);
      var p := s.log[j].peer;
      assert L.Reached(L.Of(s.log, p), s.links[p]);
      LinkOpensOnce(s, p);
      L.DeedInPlace(s.log, j);
      L.DeedInPlace(s.log, k);
      L.PlacesAscend(s.log, j, k);
      L.SealedOnce(L.Of(s.log, p), L.Place(s.log, j), L.Place(s.log, k));
    }
  }

  /** And none is accepted twice. */
  lemma AcceptedOnce(s: Node, j: nat, k: nat)
    requires s.Inv() && s.Once() && j < k < |s.log| && s.log[j].op.Accept? && s.log[k].op.Accept?
    ensures s.log[j].op.text.session != s.log[k].op.text.session || s.log[j].op.text.counter != s.log[k].op.text.counter
  {
    hide Node.Once, L.Of, L.OpensOnce, L.Proper, L.Run, Link.Consistent;
    if s.log[j].op.text.session == s.log[k].op.text.session {
      OneLinkEach(s, j, k);
      var p := s.log[j].peer;
      assert L.Reached(L.Of(s.log, p), s.links[p]);
      LinkOpensOnce(s, p);
      L.DeedInPlace(s.log, j);
      L.DeedInPlace(s.log, k);
      L.PlacesAscend(s.log, j, k);
      L.AcceptedOnce(L.Of(s.log, p), L.Place(s.log, j), L.Place(s.log, k));
    }
  }

  /** In any run in which no daemon draws an ephemeral key twice, and none seals more than 2^64 packets under
      one session, no two packets of any daemons are ever sealed under one session and counter. */
  lemma NoncesAreUsedOnce(start: Net, events: seq<Event>, a: DeviceId, j: nat, b: DeviceId, k: nat)
    requires AllBlank(start) && a in start && b in start
    requires
      var net := Run(start, events);
      && L.Distinct(net[a].drawn)
      && j < |net[a].log| && k < |net[b].log| && net[a].log[j].op.Seal? && net[b].log[k].op.Seal?
      && SealedOn(net[a], net[a].log[j].peer, net[a].log[j].op.text.session) <= Replay.TWO_TO_THE_64
      && (a != b || j < k)
    ensures
      var text, other := Run(start, events)[a].log[j].op.text, Run(start, events)[b].log[k].op.text;
      text.session != other.session || text.counter != other.counter
  {
    hide Run, Node.Inv, Node.QueueSound, Node.Proven, Node.SafeOpening, Node.MayWrite, Node.Once, Good, Wraps;
    hide SealedOn, Node.WellSealed;
    RunKeeps(start, events);
    var net := Run(start, events);
    assert NodeOk(net, a) && NodeOk(net, b);
    if a == b {
      SealedOnce(net[a], j, k);
    } else {
      SealsOwnSessions(net, a, j);
      SealsOwnSessions(net, b, k);
    }
  }

  /** And in any run in which a daemon draws no ephemeral key twice, nothing it accepts is ever accepted again
      under that session and counter, by itself or by another. */
  lemma PacketsAreAcceptedOnce(start: Net, events: seq<Event>, a: DeviceId, j: nat, b: DeviceId, k: nat)
    requires AllBlank(start) && a in start && b in start
    requires
      var net := Run(start, events);
      && L.Distinct(net[a].drawn)
      && j < |net[a].log| && k < |net[b].log| && net[a].log[j].op.Accept? && net[b].log[k].op.Accept?
      && (a != b || j < k)
    ensures
      var text, other := Run(start, events)[a].log[j].op.text, Run(start, events)[b].log[k].op.text;
      text.session != other.session || text.counter != other.counter
  {
    hide Run, Node.Inv, Node.QueueSound, Node.Proven, Node.SafeOpening, Node.MayWrite, Node.Once, Good, Wraps;
    RunKeeps(start, events);
    var net := Run(start, events);
    assert NodeOk(net, a) && NodeOk(net, b);
    if a == b {
      AcceptedOnce(net[a], j, k);
    } else {
      AcceptsOwnSessions(net, a, j);
      AcceptsOwnSessions(net, b, k);
    }
  }

  // ----- what is queued -----

  /** The packet that the i-th on a daemon's queue was, counted from the first ever put there. */
  ghost function Queued(s: Node, i: nat): Text
    requires s.QueueSound() && i < |s.queued|
  {
    s.log[s.queued[i]].op.text
  }

  /** In any run, every packet on an honest daemon's queue from an honest peer is one that peer sealed for it
      to carry an IP packet, and no packet is ever queued twice if no ephemeral key is drawn twice. */
  lemma QueuedAsSentAndOnce(start: Net, events: seq<Event>, b: DeviceId, i: nat)
    requires AllBlank(start) && b in start && i < |Run(start, events)[b].queued|
    ensures
      var net := Run(start, events);
      var s := net[b];
      && s.QueueSound()
      && var a := s.log[s.queued[i]].peer.deviceID;
         && (a in net ==> exists k: nat :: net[a].Sealed(k, Queued(s, i)) && net[a].log[k].peer.deviceID == b &&
                                           Queued(s, i).plain.IPPacket?)
         && (L.Distinct(s.drawn) ==> forall j: nat | j < |s.queued| && j != i ::
               Queued(s, j).session != Queued(s, i).session || Queued(s, j).counter != Queued(s, i).counter)
  {
    hide Run, Node.Inv, Node.Proven, Node.SafeOpening, Node.MayWrite, Node.Once, Wraps, Good, Node.WellSealed;
    RunKeeps(start, events);
    var net := Run(start, events);
    assert NodeOk(net, b);
    var s := net[b];
    var place := s.queued[i];
    assert s.GotData(place);
    var a := s.log[place].peer.deviceID;
    if a in net {
      var k := SentByPeer(net, b, place);
      assert net[a].Sealed(k, Queued(s, i)) && net[a].log[k].peer.deviceID == b;
    }
    if L.Distinct(s.drawn) {
      forall j: nat | j < |s.queued| && j != i
        ensures Queued(s, j).session != Queued(s, i).session || Queued(s, j).counter != Queued(s, i).counter
      {
        QueuedApart(s, i, j);
      }
    }
  }

  lemma SentByPeer(net: Net, b: DeviceId, place: nat) returns (k: nat)
    requires NetOk(net) && b in net && net[b].GotData(place) && net[b].log[place].peer.deviceID in net
    ensures
      var text, a := net[b].log[place].op.text, net[b].log[place].peer.deviceID;
      net[a].Sealed(k, text) && net[a].log[k].peer.deviceID == b && text.plain.IPPacket?
  {
    hide Node.Inv, Node.Safe, Wraps;
    assert NodeOk(net, b);
    AcceptsOwnSessions(net, b, place);
    var text, a := net[b].log[place].op.text, net[b].log[place].peer.deviceID;
    assert Good(net, SealedAtom(text));
    assert NodeOk(net, a);
    var i: nat :| net[a].Sealed(i, text);
    SealsOwnSessions(net, a, i);
    k := i;
  }

  lemma QueuedApart(s: Node, i: nat, j: nat)
    requires s.Inv() && s.QueueSound() && s.Once() && i < |s.queued| && j < |s.queued| && i != j
    ensures Queued(s, j).session != Queued(s, i).session || Queued(s, j).counter != Queued(s, i).counter
  {
    hide Node.Inv, Node.Once;
    assert s.GotData(s.queued[i]) && s.GotData(s.queued[j]);
    if s.queued[i] < s.queued[j] {
      AcceptedOnce(s, s.queued[i], s.queued[j]);
    } else {
      AcceptedOnce(s, s.queued[j], s.queued[i]);
    }
  }

  /** And the queue holds the plaintexts of the last of them, in order: nothing else is ever handed up. */
  lemma QueueHoldsTheLast(start: Net, events: seq<Event>, b: DeviceId, i: nat)
    requires AllBlank(start) && b in start && i < |Run(start, events)[b].inbound|
    ensures
      var s := Run(start, events)[b];
      && s.QueueSound() && |s.inbound| <= |s.queued|
      && s.inbound[i] == Queued(s, |s.queued| - |s.inbound| + i).plain
  {
    hide Run, Node.Inv, Node.Proven, Node.SafeOpening, Node.MayWrite, Node.Once, Wraps, Good;
    RunKeeps(start, events);
    assert NodeOk(Run(start, events), b);
    var s := Run(start, events)[b];
    assert s.Arrived(s.queued[|s.queued| - |s.inbound| + i], s.inbound[i]);
  }
}
