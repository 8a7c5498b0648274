/** What a daemon may have said, done and queued. What is on its wire is its own or was handed to it; an
    init of its own goes to a peer that is not lower, an answer has an opened session behind it, and a
    forward wraps no forward but one it was asked to carry. It opened nothing that a message it was
    handed did not call for, it queued each packet it accepted once, and so long as it draws no
    ephemeral key twice it opened no session twice. */
module Safety {
  import opened Handlers
  import opened Netip
  import opened Nodes
  import opened Packets
  import opened Peers
  import opened Session
  import opened Wrappers
  import Crypto = Session
  import L = PeerRuns
  import T = Transport

  // ----- what was safe stays so as the records grow -----

  lemma ProvenAgain(s: Node, r: Node, p: Peer, e: Op)
    requires s.Grows(r) && s.Proven(p, e)
    ensures r.Proven(p, e)
  {
    if e.Seal? { WellSealedAgain(s, r, e.text); }
  }

  lemma WellSealedAgain(s: Node, r: Node, text: Text)
    requires s.Grows(r) && s.WellSealed(text)
    ensures r.WellSealed(text)
  {
    if text.plain.Forwarded? { MayCarryAgain(s, r, text.plain.carried.packet); }
  }

  lemma MayCarryAgain(s: Node, r: Node, packet: Packet)
    requires s.Grows(r) && s.MayCarry(packet)
    ensures r.MayCarry(packet)
  {
    if packet.header.kind == T.MSG_FORWARD {
      var k :| s.Carries(k, packet);
      assert r.Carries(k, packet);
    }
  }

  lemma SayAgain(s: Node, r: Node, a: Atom)
    requires s.Grows(r) && s.MaySay(a)
    ensures r.MaySay(a)
  {
    if a !in s.heard {
      match a
      case InitAtom(i) =>
        var k :| s.Tried(k, i);
        assert r.Tried(k, i);
      case ResponseAtom(_) =>
      case SealedAtom(text) =>
        var k :| s.Sealed(k, text);
        assert r.Sealed(k, text);
    }
  }

  lemma SendAgain(s: Node, r: Node, packet: Packet)
    requires s.Grows(r) && s.MaySend(packet)
    ensures r.MaySend(packet)
  {
    hide Node.Grows, Node.MaySay;
    forall a | a in Atoms(packet) ensures r.MaySay(a) { SayAgain(s, r, a); }
  }

  lemma WriteAgain(s: Node, r: Node, packet: Packet)
    requires s.Grows(r) && s.MayWrite(packet)
    ensures r.MayWrite(packet)
  {
    SendAgain(s, r, packet);
    if packet.body.SealedBody? {
      var k :| s.Sealed(k, packet.body.text);
      assert r.Sealed(k, packet.body.text);
    }
  }

  lemma WireAgain(s: Node, r: Node)
    requires s.Grows(r) && forall k | 0 <= k < |s.wire| :: s.MayWrite(s.wire[k].packet)
    ensures forall k | 0 <= k < |s.wire| :: r.MayWrite(r.wire[k].packet)
  {
    hide Node.MayWrite;
    forall k | 0 <= k < |s.wire| ensures r.MayWrite(r.wire[k].packet) { WriteAgain(s, r, s.wire[k].packet); }
  }

  lemma OpeningsAgain(s: Node, r: Node)
    requires s.Grows(r) && forall o | o in s.openings :: s.SafeOpening(o)
    ensures forall o | o in s.openings :: r.SafeOpening(o)
  {
    forall o | o in s.openings ensures r.SafeOpening(o) { assert s.SafeOpening(o); }
  }

  lemma LogAgain(s: Node, r: Node)
    requires s.Grows(r) && forall k | 0 <= k < |s.log| :: s.Proven(s.log[k].peer, s.log[k].op)
    ensures forall k | 0 <= k < |s.log| :: r.Proven(r.log[k].peer, r.log[k].op)
  {
    hide Node.Proven;
    forall k | 0 <= k < |s.log| ensures r.Proven(r.log[k].peer, r.log[k].op) {
      ProvenAgain(s, r, s.log[k].peer, s.log[k].op);
    }
  }

  lemma QueueAgain(s: Node, r: Node)
    requires s.Grows(r) && s.QueueSound() && r.queued == s.queued && r.inbound == s.inbound
    ensures r.QueueSound()
  {}

  /** The same links, and the same things done to them. */
  lemma OnceAgain(s: Node, r: Node)
    requires s.Grows(r) && r.log == s.log && r.links == s.links && (L.Distinct(s.drawn) ==> s.Once())
    ensures L.Distinct(r.drawn) ==> r.Once()
  {
    if L.Distinct(r.drawn) {
      DistinctPrefix(s.drawn, r.drawn);
      assert forall k, t :: r.Opened(k, t) <==> s.Opened(k, t);
    }
  }

  lemma DistinctPrefix<X>(s: seq<X>, r: seq<X>)
    requires L.Distinct(r) && s <= r
    ensures L.Distinct(s)
  {}

  /** A step that does nothing to a link, says nothing, opens nothing and queues nothing. */
  lemma SafeAgain(s: Node, r: Node)
    requires s.Safe() && s.Grows(r) && r.log == s.log && r.links == s.links && r.wire == s.wire
    requires r.openings == s.openings && r.queued == s.queued && r.inbound == s.inbound
    ensures r.Safe()
  {
    hide Node.Proven, Node.SafeOpening, Node.MayWrite, Node.QueueSound, Node.Once, Node.Grows;
    LogAgain(s, r);
    OpeningsAgain(s, r);
    WireAgain(s, r);
    QueueAgain(s, r);
    OnceAgain(s, r);
  }

  // ----- the steps every handler is made of -----

  /** What makes an operation keep every session opened once: a session opened is a new one, and so is the
      init of an attempt, with an ephemeral key of this daemon's. */
  ghost predicate New(s: Node, p: Peer, e: Op) {
    && (e.Open? ==>
          && Own(e.session) in s.drawn && (forall k :: !s.Opened(k, e.session))
          && (e.session.initiator ==> forall q | q in s.links && q != p && s.links[q].handshake.Some? ::
                                        e.session.init != s.links[q].handshake.value.init))
    && (e.Attempt? && e.handshake.Some? ==>
          && e.handshake.value.init.ephemeral in s.drawn
          && (forall k, t | s.Opened(k, t) && t.initiator :: t.init != e.handshake.value.init)
          && (forall q | q in s.links && q != p && s.links[q].handshake.Some? ::
                e.handshake.value.init != s.links[q].handshake.value.init))
  }

  /** One operation done, and noted. */
  ghost predicate Done(s: Node, r: Node, p: Peer, e: Op) {
    && s.Inv() && r.Inv() && p in s.links && L.Allowed(s.links[p], e)
    && r == s.(links := s.links[p := L.After(s.links[p], e)], log := s.log + [L.Deed(p, e)],
               byIP := r.byIP, byUDP := r.byUDP)
  }

  lemma DoneSafe(s: Node, r: Node, p: Peer, e: Op)
    requires Done(s, r, p, e) && s.Safe() && s.Proven(p, e) && (L.Distinct(s.drawn) ==> New(s, p, e))
    ensures r.Safe()
  {
    assert s.Grows(r) by { hide Node.Inv, L.After; }
    hide Node.Proven, Node.SafeOpening, Node.MayWrite, Node.QueueSound, Node.Once, Node.Grows, Node.Inv, L.After, New;
    LogAgain(s, r);
    ProvenAgain(s, r, p, e);
    OpeningsAgain(s, r);
    WireAgain(s, r);
    QueueAgain(s, r);
    if L.Distinct(s.drawn) { OnceDone(s, r, p, e); }
  }

  /** Where a pending handshake can come from. */
  lemma PendingAfter(l: Link, e: Op)
    ensures
      var h := L.After(l, e).handshake;
      && (h.Some? ==> h == l.handshake || (e.Attempt? && h == e.handshake))
      && (e.Open? ==> h.None?)
  {
    hide Link.Consistent;
  }

  lemma OnceDone(s: Node, r: Node, p: Peer, e: Op)
    requires Done(s, r, p, e) && s.Once() && New(s, p, e)
    ensures r.Once()
  {
    hide Node.Inv, L.After, L.Allowed, Node.Opened;
    PendingAfter(s.links[p], e);
    OpenedAfter(s, r, p, e);
    PendingsApart(s, r, p, e);
    forall q, k, t | q in r.links && r.links[q].handshake.Some? && r.Opened(k, t) && t.initiator
      ensures t.init != r.links[q].handshake.value.init
    {
      if q != p { assert r.links[q] == s.links[q]; }
    }
  }

  lemma PendingsApart(s: Node, r: Node, p: Peer, e: Op)
    requires Done(s, r, p, e) && s.Once() && New(s, p, e)
    ensures forall q | q in r.links && r.links[q].handshake.Some? ::
            r.links[q].handshake.value.init.ephemeral in r.drawn
    ensures forall q, o | q in r.links && o in r.links && r.links[q].handshake.Some? &&
                          r.links[o].handshake == r.links[q].handshake :: q == o
  {
    hide Node.Inv, L.After, L.Allowed, Node.Opened;
    PendingAfter(s.links[p], e);
  }

  lemma OpenedAfter(s: Node, r: Node, p: Peer, e: Op)
    requires r.log == s.log + [L.Deed(p, e)]
    ensures forall k, t :: r.Opened(k, t) <==> s.Opened(k, t) || (k == |s.log| && e.Open? && t == e.session)
  {}

  lemma DoSafe(s: Node, p: Peer, e: Op)
    requires s.Inv() && p in s.links && L.Allowed(s.links[p], e) && !e.SetEndpoint?
    requires e.RelayThrough? ==> e.relay in s.links
    requires e.AnswerVia? ==> e.carrier in s.links
    requires s.Safe() && s.Proven(p, e) && (L.Distinct(s.drawn) ==> New(s, p, e))
    ensures s.Do(p, e).Safe()
  {
    hide Node.Inv, Node.Safe, Node.Proven, New, L.After, L.Allowed;
    DoneSafe(s, s.Do(p, e), p, e);
  }

  lemma WriteSafe(s: Node, to: AddrPort, packet: Packet)
    requires s.Inv() && s.Safe() && s.MayWrite(packet)
    ensures s.Write(to, packet).Safe()
  {
    hide Node.Proven, Node.SafeOpening, Node.MayWrite, Node.QueueSound, Node.Once, Node.Inv;
    var r := s.Write(to, packet);
    LogAgain(s, r);
    OpeningsAgain(s, r);
    WireAgain(s, r);
    WriteAgain(s, r, packet);
    QueueAgain(s, r);
    OnceAgain(s, r);
  }

  lemma DrawSafe(s: Node, ephemeral: nat)
    requires s.Inv() && s.Safe()
    ensures s.Draw(ephemeral).Safe()
  {
    hide Node.Safe, Node.Inv;
    SafeAgain(s, s.Draw(ephemeral));
  }

  lemma HearSafe(s: Node, packet: Packet)
    requires s.Inv() && s.Safe()
    ensures Hear(s, packet).Safe() && Atoms(packet) <= Hear(s, packet).heard
  {
    hide Node.Safe, Node.Inv;
    SafeAgain(s, Hear(s, packet));
  }

  lemma ReindexSafe(s: Node, suggested: Tables)
    requires s.Inv() && s.Safe()
    ensures Reindex(s, suggested).Safe()
  {
    hide Node.Safe, Node.Inv, Indexes;
    SafeAgain(s, Reindex(s, suggested));
  }

  lemma RecordSafe(s: Node, peer: Peer, session: Session)
    requires s.Inv() && s.Safe() && peer in s.links && s.SafeOpening(Opening(peer.deviceID, session))
    ensures Record(s, peer, session).Safe()
  {
    hide Node.Proven, Node.SafeOpening, Node.MayWrite, Node.QueueSound, Node.Once, Node.Inv;
    var r := Record(s, peer, session);
    var o := Opening(peer.deviceID, session);
    LogAgain(s, r);
    OpeningsAgain(s, r);
    OpeningAgain(s, r, o);
    WireAgain(s, r);
    QueueAgain(s, r);
    OnceAgain(s, r);
  }

  lemma OpeningAgain(s: Node, r: Node, o: Opening)
    requires s.Grows(r) && s.SafeOpening(o)
    ensures r.SafeOpening(o)
  {}

  lemma EnrolSafe(s: Node, peer: Peer, endpoint: AddrPort)
    requires s.Inv() && s.Safe() && peer !in s.links && peer.deviceID !in s.peers
    ensures Enrol(s, peer, endpoint).Safe()
  {
    hide Node.Proven, Node.SafeOpening, Node.MayWrite, Node.QueueSound, Node.Once, Node.Inv;
    var r := Enrol(s, peer, endpoint);
    LogAgain(s, r);
    assert r.Proven(peer, L.SetEndpoint(endpoint)) by { NothingToProve(r, peer, endpoint); }
    OpeningsAgain(s, r);
    WireAgain(s, r);
    QueueAgain(s, r);
    if L.Distinct(r.drawn) { OnceEnrolled(s, r, peer, endpoint); }
  }

  lemma NothingToProve(s: Node, p: Peer, endpoint: AddrPort)
    ensures s.Proven(p, L.SetEndpoint(endpoint))
  {}

  lemma OnceEnrolled(s: Node, r: Node, peer: Peer, endpoint: AddrPort)
    requires s.Once() && r.drawn == s.drawn && r.log == s.log + [L.Deed(peer, L.SetEndpoint(endpoint))]
    requires r.links == s.links[peer := NewLink(endpoint)]
    ensures r.Once()
  {
    OpenedAfter(s, r, peer, L.SetEndpoint(endpoint));
    hide Node.Opened;
  }

  // ----- what follows for a link -----

  /** The session a link holds is on record, as opened with that device. */
  lemma SessionIsRecorded(s: Node, p: Peer)
    requires s.Inv() && s.Safe() && p in s.links && s.links[p].session.Some?
    ensures Opening(p.deviceID, s.links[p].session.value) in s.openings
  {
    var es, session := L.Of(s.log, p), s.links[p].session.value;
    assert L.Reached(es, s.links[p]);
    L.Origins(es);
    var i :| L.Opened(es, i, session);
    var k := L.DeedOf(s.log, p, i);
    assert s.Proven(s.log[k].peer, s.log[k].op);
  }

  /** A pending handshake was begun by this daemon, for that device's key, which is not the lower one's. */
  lemma PendingIsOwn(s: Node, p: Peer)
    requires s.Inv() && s.Safe() && p in s.links && s.links[p].handshake.Some?
    ensures s.OwnInit(s.links[p].handshake.value.init)
    ensures s.links[p].handshake.value.init.author == s.key
    ensures s.links[p].handshake.value.init.reader == p.transportKey
    ensures !Less(p.deviceID, s.device)
  {
    hide Node.Proven, Node.SafeOpening, Node.MayWrite, Node.QueueSound, Node.Once, Link.Consistent, L.Of;
    var es, h := L.Of(s.log, p), s.links[p].handshake.value;
    assert L.Reached(es, s.links[p]);
    L.Origins(es);
    var i :| L.Began(es, i, h);
    var k := L.DeedOf(s.log, p, i);
    ProvenAttempt(s, p, s.log[k].op);
    assert s.Tried(k, h.init);
  }

  lemma LowerAttempts(s: Node, p: Peer)
    requires s.Inv() && s.Safe() && p in s.links && s.links[p].handshakes > 0
    ensures !Less(p.deviceID, s.device)
  {
    hide Node.Proven, Node.SafeOpening, Node.MayWrite, Node.QueueSound, Node.Once, Link.Consistent, L.Of;
    var es := L.Of(s.log, p);
    assert L.Reached(es, s.links[p]);
    L.Origins(es);
    var i :| 0 <= i < |es| && es[i].Attempt?;
    var k := L.DeedOf(s.log, p, i);
    ProvenAttempt(s, p, s.log[k].op);
  }

  lemma ProvenAttempt(s: Node, p: Peer, e: Op)
    requires s.Proven(p, e) && e.Attempt?
    ensures !Less(p.deviceID, s.device)
    ensures e.handshake.Some? ==>
              e.handshake.value.init.author == s.key &&
              e.handshake.value.init.reader == p.transportKey
  {}

  /** The side with the higher device id never spends an attempt. */
  lemma HigherNeverAttempts(s: Node, p: Peer)
    requires s.Inv() && s.Safe() && p in s.links && Less(p.deviceID, s.device)
    ensures s.links[p].handshakes == 0 && s.links[p].handshake.None?
  {
    hide Node.Inv, Node.Safe;
    if s.links[p].handshake.Some? { PendingIsOwn(s, p); }
    if s.links[p].handshakes > 0 { LowerAttempts(s, p); }
  }

  // ----- sending -----

  lemma SealSafe(s: Node, p: Peer, text: Text)
    requires s.Inv() && s.Safe() && p in s.links && L.Allowed(s.links[p], L.Seal(text)) && s.WellSealed(text)
    ensures s.Do(p, L.Seal(text)).Safe() && s.Do(p, L.Seal(text)).OwnText(text)
  {
    hide Node.Inv, Node.Safe, Node.WellSealed, L.After;
    SessionIsRecorded(s, p);
    DoSafe(s, p, L.Seal(text));
    assert s.Do(p, L.Seal(text)).Sealed(|s.log|, text);
  }

  lemma ForwardSafe(s: Node, relay: Peer, carried: Carried)
    requires s.Inv() && s.Safe() && relay in s.links && s.MaySend(carried.packet) && s.MayCarry(carried.packet)
    ensures Forward(s, relay, carried).0.Safe()
  {
    hide Node.Inv, Node.Safe, Node.OwnText, Node.MayCarry, Node.Steady;
    var l := s.links[relay];
    if carried.source.V4? && carried.destination.V4? && l.session.Some? {
      var text := SealedText(l.session.value, T.MSG_FORWARD, relay.sender, l.counter, Forwarded(carried));
      SealSafe(s, relay, text);
      if l.endpoint.IsValid() {
        var s1 := s.Do(relay, L.Seal(text));
        assert s.Grows(s1) by { Steadily(s, s1); }
        SendAgain(s, s1, carried.packet);
        WriteSafe(s1, l.endpoint, Packet(text.header, SealedBody(text)));
      }
    }
  }

  lemma Steadily(s: Node, r: Node)
    requires s.Steady(r)
    ensures s.Grows(r)
  {}

  lemma DeliverSafe(s: Node, peer: Peer, packet: Packet)
    requires s.Inv() && s.Safe() && peer in s.links && s.MayWrite(packet) && packet.header.kind != T.MSG_FORWARD
    ensures Deliver(s, peer, packet).0.Safe()
  {
    hide Node.Safe, Handlers.Forward, Node.MaySend, L.Reached, L.Of, Link.Consistent;
    var l := s.links[peer];
    if l.via != null {
      ForwardSafe(s, l.via, Carried(INITIAL_HOP_LIMIT, s.virtualIP, peer.virtualIP, packet));
    } else if l.endpoint.IsValid() {
      WriteSafe(s, l.endpoint, packet);
    }
  }

  lemma SendDataSafe(s: Node, peer: Peer, ip: seq<byte>)
    requires s.Inv() && s.Safe() && peer in s.links
    ensures SendData(s, peer, ip).0.Safe()
  {
    hide Node.Safe, Node.Inv, Handlers.Deliver, Node.OwnText;
    var l := s.links[peer];
    if l.session.Some? {
      var text := SealedText(l.session.value, T.MSG_DATA, peer.sender, l.counter, IPPacket(ip));
      SealSafe(s, peer, text);
      DeliverSafe(s.Do(peer, L.Seal(text)), peer, Packet(text.header, SealedBody(text)));
    }
  }

  lemma SendSafe(s: Node, destination: Addr, ip: seq<byte>)
    requires s.Inv() && s.Safe()
    ensures Send(s, destination, ip).0.Safe()
  {
    hide Node.Safe, Handlers.SendData, L.Reached, L.Of, Link.Consistent;
    if destination in s.byIP { SendDataSafe(s, s.byIP[destination], ip); }
  }

  lemma {:induction false} BroadcastSafe(s: Node, peers: seq<Peer>, ip: seq<byte>)
    requires s.Inv() && s.Safe() && AllIn(peers, s.links.Keys)
    ensures Broadcast(s, peers, ip).0.Safe()
    decreases |peers|
  {
    hide Node.Safe, Node.Inv, Handlers.SendData;
    if peers != [] {
      SendDataSafe(s, peers[0], ip);
      BroadcastSafe(SendData(s, peers[0], ip).0, peers[1..], ip);
    }
  }

  /** Nothing in the clear but what a daemon may say. */
  lemma SendPacketSafe(s: Node, peer: Peer, kind: byte, body: Body)
    requires s.Inv() && s.Safe() && peer in s.links && kind != T.MSG_FORWARD
    requires s.MaySend(Envelope(kind, peer.sender, 0, body)) && !body.SealedBody?
    ensures SendPacket(s, peer, kind, body).Safe()
  {
    hide Node.Safe, Node.Inv, Handlers.Deliver, Node.MaySend;
    DeliverSafe(s, peer, Envelope(kind, peer.sender, 0, body));
  }

  lemma ReplyToSafe(s: Node, src: Source, kind: byte, sender: uint64, body: Body)
    requires s.Inv() && s.Safe() && KnownSource(s, src)
    requires s.MaySend(Envelope(kind, sender, 0, body)) && !body.SealedBody? && kind != T.MSG_FORWARD
    ensures ReplyTo(s, src, kind, sender, body).Safe()
  {
    hide Node.Safe, Node.Inv, Handlers.Forward, Node.MaySend;
    var packet := Envelope(kind, sender, 0, body);
    if src.relay == null {
      WriteSafe(s, src.addr, packet);
    } else {
      ForwardSafe(s, src.relay, Carried(INITIAL_HOP_LIMIT, s.virtualIP, src.peer.virtualIP, packet));
    }
  }

  lemma PunchSafe(s: Node, peer: Peer, env: Env)
    requires s.Inv() && s.Safe() && peer in s.links
    ensures Punch(s, peer, env).Safe()
  {
    hide Node.Safe, Node.Inv, Node.MaySay;
    var l := s.links[peer];
    if l.endpoint.IsValid() {
      DoSafe(s, peer, L.Expect(env.token, env.now));
      WriteSafe(s.Do(peer, L.Expect(env.token, env.now)), l.endpoint,
                Envelope(T.MSG_PROBE, 0, 0, PingBody(env.token, false)));
    }
  }

  lemma SendKeepaliveSafe(s: Node, peer: Peer, env: Env)
    requires s.Inv() && s.Safe() && peer in s.links
    ensures SendKeepalive(s, peer, env).Safe()
  {
    hide Node.Safe, Node.Inv, Node.MaySay, Handlers.SendPacket;
    DoSafe(s, peer, L.Expect(env.token, env.now));
    SendPacketSafe(s.Do(peer, L.Expect(env.token, env.now)), peer, T.MSG_KEEPALIVE, PingBody(env.token, false));
  }

  // ----- the handshake -----

  /** An ephemeral key that has just been drawn is behind nothing opened or pending. */
  lemma JustDrawn(s: Node, ephemeral: nat)
    requires s.Inv() && s.Safe() && L.Distinct(s.Draw(ephemeral).drawn)
    ensures forall k, t | s.Opened(k, t) :: Own(t) != ephemeral
    ensures forall q | q in s.links && s.links[q].handshake.Some? ::
            s.links[q].handshake.value.init.ephemeral != ephemeral
  {
    hide Node.Inv, Node.Steady;
    var drawn := s.Draw(ephemeral).drawn;
    DistinctPrefix(s.drawn, drawn);
    forall e | e in s.drawn ensures e != ephemeral {
      var i :| 0 <= i < |s.drawn| && s.drawn[i] == e;
      assert drawn[i] == e && drawn[|s.drawn|] == ephemeral;
    }
  }

  /** The attempt that BeginHandshake makes. */
  lemma AttemptSafe(s: Node, peer: Peer, env: Env)
    requires s.Inv() && s.Safe() && peer in s.links && Opens(s, peer, env.now)
    ensures
      var h := WriteInit(s.key, peer.transportKey, env.ephemeral);
      var r := s.Draw(env.ephemeral).Do(peer, L.Attempt(Some(h), env.now));
      r.Safe() && r.OwnInit(h.init)
  {
    hide Node.Inv, Node.Safe, Node.Steady;
    var h, drawn := WriteInit(s.key, peer.transportKey, env.ephemeral), s.Draw(env.ephemeral);
    DrawSafe(s, env.ephemeral);
    if L.Distinct(drawn.drawn) {
      JustDrawn(s, env.ephemeral);
      assert drawn.drawn[|s.drawn|] == env.ephemeral;
      forall k, t | drawn.Opened(k, t) && t.initiator ensures t.init != h.init { assert s.Opened(k, t); }
    }
    DoSafe(drawn, peer, L.Attempt(Some(h), env.now));
    assert drawn.Do(peer, L.Attempt(Some(h), env.now)).Tried(|s.log|, h.init);
  }

  lemma BeginHandshakeSafe(s: Node, peer: Peer, env: Env)
    requires s.Inv() && s.Safe() && peer in s.links
    ensures BeginHandshake(s, peer, env).Safe()
  {
    hide Node.Inv, Node.Safe, Node.Steady, Handlers.SendPacket, Link.Consistent;
    if Opens(s, peer, env.now) {
      var drawn := s.Draw(env.ephemeral);
      if |s.device| > 255 {
        DrawSafe(s, env.ephemeral);
        DoSafe(drawn, peer, L.Attempt(None, env.now));
      } else {
        AttemptSafe(s, peer, env);
        var h := WriteInit(s.key, peer.transportKey, env.ephemeral);
        SendPacketSafe(drawn.Do(peer, L.Attempt(Some(h), env.now)), peer, T.MSG_HANDSHAKE_INIT,
          InitBody(s.device, h.init));
      }
    }
  }

  lemma TryRelaySafe(s: Node, peer: Peer, env: Env)
    requires s.Inv() && s.Safe() && peer in s.links
    ensures TryRelay(s, peer, env).0.Safe()
  {
    hide Node.Safe, Node.Steady, Handlers.BeginHandshake, Link.Consistent, L.Reached, L.Of;
    var candidates := Candidates(s, peer);
    if candidates != {} {
      var relay := s.peers[Lowest(candidates)];
      DoSafe(s, peer, L.RelayThrough(relay));
      BeginHandshakeSafe(s.Do(peer, L.RelayThrough(relay)), peer, env);
    }
  }

  lemma MovedSafe(s: Node, peer: Peer, addr: AddrPort)
    requires s.Inv() && s.Safe() && peer in s.links
    ensures Moved(s, peer, addr).Safe()
  {
    hide Node.Inv, Node.Safe, L.After;
    DoneSafe(s, Moved(s, peer, addr), peer, L.SetEndpoint(addr));
  }

  lemma FollowSafe(s: Node, peer: Peer, addr: AddrPort, env: Env)
    requires s.Inv() && s.Safe() && peer in s.links
    ensures Follow(s, peer, addr, env).Safe()
  {
    hide Node.Inv, Node.Safe, Handlers.Reindex, Moved;
    if s.links[peer].endpoint != addr {
      MovedSafe(s, peer, addr);
      ReindexSafe(Moved(s, peer, addr), env.tables);
    }
  }

  lemma AnswerViaSafe(s: Node, peer: Peer, relay: Peer)
    requires s.Inv() && s.Safe() && peer in s.links && relay in s.links
    ensures AnswerVia(s, peer, relay).Safe()
  {
    hide Node.Inv, Node.Safe, L.After;
    DoSafe(s, peer, L.AnswerVia(relay));
  }

  lemma OpenLinkSafe(s: Node, peer: Peer, session: Session, env: Env)
    requires s.Inv() && s.Safe() && peer in s.links && Opening(peer.deviceID, session) in s.openings
    requires L.Distinct(s.drawn) ==> New(s, peer, L.Open(session, env.now))
    ensures OpenLink(s, peer, session, env).Safe()
  {
    hide Node.Inv, Node.Safe, New, L.After, Handlers.SendKeepalive;
    DoSafe(s, peer, L.Open(session, env.now));
    SendKeepaliveSafe(s.Do(peer, L.Open(session, env.now)), peer, env);
  }

  // ----- the handlers -----

  lemma HandleInitSafe(s: Node, packet: Packet, src: Source, env: Env)
    requires s.Inv() && s.Safe() && KnownSource(s, src) && Atoms(packet) <= s.heard
    ensures HandleInit(s, packet, src, env).Safe()
  {
    hide Node.Safe, Handlers.AnswerVia, Handlers.Follow, Handlers.Record, Handlers.SendPacket, Handlers.OpenLink;
    hide L.Reached, L.Of, Link.Consistent;
    if packet.body.InitBody? && packet.body.device in s.peers {
      var peer, init := s.peers[packet.body.device], packet.body.init;
      if ReadInit(s.key, init) == Some(peer.transportKey) {
        var drew := s.Draw(env.ephemeral);
        DrawSafe(s, env.ephemeral);
        DrawnIsUnused(s, env.ephemeral);
        if src.relay != null {
          AnswerViaSafe(drew, peer, src.relay);
          UnusedAnswering(drew, peer, src.relay, env.ephemeral);
          AnswerInitSafe(AnswerVia(drew, peer, src.relay), peer, init, env);
        } else {
          FollowSafe(drew, peer, src.addr, env);
          UnusedFollowing(drew, peer, src.addr, env, env.ephemeral);
          AnswerInitSafe(Follow(drew, peer, src.addr, env), peer, init, env);
        }
      }
    }
  }

  /** No session was opened with this ephemeral key yet, if none is drawn twice. */
  ghost predicate Unused(s: Node, ephemeral: nat) {
    L.Distinct(s.drawn) ==> ephemeral in s.drawn && forall k, t | s.Opened(k, t) :: Own(t) != ephemeral
  }

  lemma DrawnIsUnused(s: Node, ephemeral: nat)
    requires s.Inv() && s.Safe()
    ensures Unused(s.Draw(ephemeral), ephemeral)
  {
    hide Node.Inv, Node.Safe, Node.Steady;
    var r := s.Draw(ephemeral);
    if L.Distinct(r.drawn) {
      JustDrawn(s, ephemeral);
      assert r.drawn[|s.drawn|] == ephemeral;
      forall k, t | r.Opened(k, t) ensures Own(t) != ephemeral { assert s.Opened(k, t); }
    }
  }

  lemma StillUnused(s: Node, r: Node, p: Peer, e: Op, ephemeral: nat)
    requires Unused(s, ephemeral) && r.drawn == s.drawn
    requires r.log == s.log || (r.log == s.log + [L.Deed(p, e)] && !e.Open?)
    ensures Unused(r, ephemeral)
  {
    forall k, t | r.Opened(k, t) ensures s.Opened(k, t) {}
  }

  lemma UnusedAnswering(s: Node, peer: Peer, relay: Peer, ephemeral: nat)
    requires s.Inv() && peer in s.links && relay in s.links && Unused(s, ephemeral)
    ensures Unused(AnswerVia(s, peer, relay), ephemeral)
  {
    hide Node.Inv, Node.Steady, Unused, L.After;
    StillUnused(s, AnswerVia(s, peer, relay), peer, L.AnswerVia(relay), ephemeral);
  }

  lemma UnusedFollowing(s: Node, peer: Peer, addr: AddrPort, env: Env, ephemeral: nat)
    requires s.Inv() && peer in s.links && Unused(s, ephemeral)
    ensures Unused(Follow(s, peer, addr, env), ephemeral)
  {
    hide Node.Inv, Node.Stays, Unused, L.After, Indexes;
    StillUnused(s, Follow(s, peer, addr, env), peer, L.SetEndpoint(addr), ephemeral);
  }

  /** Putting a packet on a link seals at most once. */
  lemma UnusedSending(s: Node, peer: Peer, kind: byte, body: Body, ephemeral: nat)
    requires s.Inv() && peer in s.links && Unused(s, ephemeral)
    ensures Unused(SendPacket(s, peer, kind, body), ephemeral)
  {
    hide L.Reached, L.Of, Link.Consistent, Unused, Node.Grows, L.After, L.Allowed, Ends;
    var l, r := s.links[peer], SendPacket(s, peer, kind, body);
    if l.via != null {
      var carrier := s.links[l.via];
      if carrier.session.Some? {
        var carried := Carried(INITIAL_HOP_LIMIT, s.virtualIP, peer.virtualIP, Envelope(kind, peer.sender, 0, body));
        var text := SealedText(carrier.session.value, T.MSG_FORWARD, l.via.sender, carrier.counter, Forwarded(carried));
        StillUnused(s, r, l.via, L.Seal(text), ephemeral);
        return;
      }
    }
    StillUnused(s, r, peer, L.Fail, ephemeral);
  }

  /** The second half of HandleInit: the answer goes out for a session that is on record. */
  lemma AnswerInitSafe(s: Node, peer: Peer, init: Init, env: Env)
    requires s.Inv() && s.Safe() && peer in s.links && Unused(s, env.ephemeral)
    requires InitAtom(init) in s.heard && init.reader == s.key && init.author == peer.transportKey
    ensures
      var (reply, session) := WriteResponse(init, env.ephemeral);
      OpenLink(SendPacket(Record(s, peer, session), peer, T.MSG_HANDSHAKE_RESPONSE, ResponseBody(reply)),
               peer, session, env).Safe()
  {
    hide Node.Inv, Node.Safe, Node.Grows, Unused, Handlers.SendPacket, Handlers.OpenLink;
    var (reply, session) := WriteResponse(init, env.ephemeral);
    RecordSafe(s, peer, session);
    var r := Record(s, peer, session);
    assert peer in r.links && r.Answered(reply);
    SendPacketSafe(r, peer, T.MSG_HANDSHAKE_RESPONSE, ResponseBody(reply));
    StillUnused(s, r, peer, L.Fail, env.ephemeral);
    UnusedSending(r, peer, T.MSG_HANDSHAKE_RESPONSE, ResponseBody(reply), env.ephemeral);
    var sent := SendPacket(r, peer, T.MSG_HANDSHAKE_RESPONSE, ResponseBody(reply));
    UnusedIsNew(sent, peer, session, env.now);
    OpenLinkSafe(sent, peer, session, env);
  }

  lemma UnusedIsNew(s: Node, peer: Peer, session: Session, now: Time)
    requires Unused(s, session.ephemeral) && !session.initiator
    ensures L.Distinct(s.drawn) ==> New(s, peer, L.Open(session, now))
  {
    hide Node.Opened;
  }

  lemma HandleResponseSafe(s: Node, packet: Packet, src: Source, env: Env)
    requires s.Inv() && s.Safe() && KnownSource(s, src) && Atoms(packet) <= s.heard
    ensures HandleResponse(s, packet, src, env).Safe()
  {
    hide Node.Inv, Node.Safe, Handlers.AnswerVia, Handlers.Record, Handlers.OpenLink;
    if packet.body.ResponseBody? && src.peer != null && s.links[src.peer].handshake.Some? {
      var h, response := s.links[src.peer].handshake.value, packet.body.response;
      if ReadResponse(h, response).Some? {
        if src.relay != null {
          AnswerViaSafe(s, src.peer, src.relay);
          AnsweringKeepsPending(s, src.peer, src.relay);
          TakeResponseSafe(AnswerVia(s, src.peer, src.relay), src.peer, response, env);
        } else {
          TakeResponseSafe(s, src.peer, response, env);
        }
      }
    }
  }

  lemma AnsweringKeepsPending(s: Node, peer: Peer, relay: Peer)
    requires s.Inv() && peer in s.links && relay in s.links
    ensures AnswerVia(s, peer, relay).links[peer].handshake == s.links[peer].handshake
  {
    hide Node.Inv, Node.Steady, Link.Consistent;
  }

  /** The answer to a pending handshake opens a session that was not opened yet. */
  lemma TakeResponseSafe(s: Node, peer: Peer, response: Response, env: Env)
    requires s.Inv() && s.Safe() && peer in s.links && ResponseAtom(response) in s.heard
    requires s.links[peer].handshake == Some(Handshake(response.init))
    ensures
      var session := Crypto.Session(response.init, response.ephemeral, true);
      OpenLink(Record(s, peer, session), peer, session, env).Safe()
  {
    hide Node.Inv, Node.Safe, Node.Stays, Handlers.OpenLink, New;
    var session := Crypto.Session(response.init, response.ephemeral, true);
    PendingIsOwn(s, peer);
    assert Response(session.init, session.ephemeral) == response;
    RecordSafe(s, peer, session);
    AnswerIsNew(s, peer, session, env.now);
    OpenLinkSafe(Record(s, peer, session), peer, session, env);
  }

  lemma AnswerIsNew(s: Node, peer: Peer, session: Session, now: Time)
    requires s.Inv() && s.Safe() && peer in s.links && session.initiator
    requires s.links[peer].handshake == Some(Handshake(session.init))
    ensures L.Distinct(s.drawn) ==> New(Record(s, peer, session), peer, L.Open(session, now))
  {
    hide Node.Inv, Node.Stays, Node.Proven, Node.SafeOpening, Node.MayWrite, Node.QueueSound;
    var r := Record(s, peer, session);
    assert forall k, t :: r.Opened(k, t) <==> s.Opened(k, t);
  }

  lemma AcceptSafe(s: Node, peer: Peer, packet: Packet, env: Env)
    requires s.Inv() && s.Safe() && peer in s.links && Atoms(packet) <= s.heard
    ensures Accept(s, peer, packet, env).0.Safe()
    ensures Accept(s, peer, packet, env).1.Success? ==>
              Accept(s, peer, packet, env).0.log == s.log + [L.Deed(peer, L.Accept(packet.body.text, env.now))]
  {
    hide Node.Inv, Node.Safe, Node.Steady, L.After, Link.Consistent;
    var plain := s.links[peer].Accept(packet.header, packet.body, env.now).1;
    if plain.Success? {
      SessionIsRecorded(s, peer);
      var text := packet.body.text;
      assert text.session.OtherEnd() == s.links[peer].session.value;
      DoSafe(s, peer, L.Accept(text, env.now));
    }
  }

  lemma HandleDataSafe(s: Node, packet: Packet, src: Source, env: Env)
    requires s.Inv() && s.Safe() && KnownSource(s, src) && Atoms(packet) <= s.heard
    requires packet.header.kind == T.MSG_DATA
    ensures HandleData(s, packet, src, env).Safe()
  {
    hide Node.Inv, Node.Safe, Node.Grows, Handlers.Accept, Handlers.AnswerVia, Handlers.Enqueue;
    if src.peer != null {
      AcceptSafe(s, src.peer, packet, env);
      var (s1, plain) := Accept(s, src.peer, packet, env);
      if plain.Success? {
        ArrivedNow(s, s1, src.peer, packet, env);
        if src.relay != null {
          AnswerViaSafe(s1, src.peer, src.relay);
          var s2 := AnswerVia(s1, src.peer, src.relay);
          Steadily(s1, s2);
          StillArrived(s1, s2, |s.log|, plain.value);
          QueuedSame(s, s1, s2);
          EnqueueSafe(s2, plain.value, |s.log|);
        } else {
          QueuedSame(s, s1, s1);
          EnqueueSafe(s1, plain.value, |s.log|);
        }
      }
    }
  }

  lemma ArrivedNow(s: Node, r: Node, peer: Peer, packet: Packet, env: Env)
    requires packet.body.SealedBody? && packet.header.kind == T.MSG_DATA && packet.body.text.header == packet.header
    requires r.log == s.log + [L.Deed(peer, L.Accept(packet.body.text, env.now))]
    ensures r.Arrived(|s.log|, packet.body.text.plain)
  {}

  lemma StillArrived(s: Node, r: Node, k: nat, plain: Plain)
    requires s.Grows(r) && s.Arrived(k, plain)
    ensures r.Arrived(k, plain)
  {}

  /** What is queued was accepted before. */
  lemma QueuedSame(s: Node, m: Node, r: Node)
    requires s.Safe() && s.Steady(m) && m.Steady(r)
    ensures r.queued == s.queued && |s.log| !in r.queued
  {
    assert s.QueueSound();
    assert forall i | 0 <= i < |s.queued| :: s.GotData(s.queued[i]);
  }

  lemma EnqueueSafe(s: Node, plain: Plain, place: nat)
    requires s.Inv() && s.Safe() && s.Arrived(place, plain) && place !in s.queued
    ensures Enqueue(s, plain, place).Safe()
  {
    hide Node.Proven, Node.SafeOpening, Node.MayWrite, Node.QueueSound, Node.Once, Node.Inv;
    var r := Enqueue(s, plain, place);
    LogAgain(s, r);
    OpeningsAgain(s, r);
    WireAgain(s, r);
    OnceAgain(s, r);
    if |s.inbound| < INBOUND_CAPACITY { EnqueuedSound(s, r, plain, place); } else { QueueAgain(s, r); }
  }

  lemma EnqueuedSound(s: Node, r: Node, plain: Plain, place: nat)
    requires s.QueueSound() && s.Arrived(place, plain) && place !in s.queued && r.log == s.log
    requires r.queued == s.queued + [place] && r.inbound == s.inbound + [plain]
    ensures r.QueueSound()
  {
    hide Node.GotData;
    L.DistinctAppend(s.queued, place);
    SameData(s, r);
    forall i | 0 <= i < |r.inbound| ensures r.Arrived(r.queued[|r.queued| - |r.inbound| + i], r.inbound[i]) {
      if i < |s.inbound| { assert s.Arrived(s.queued[|s.queued| - |s.inbound| + i], s.inbound[i]); }
    }
  }

  lemma SameData(s: Node, r: Node)
    requires r.log == s.log
    ensures forall k :: r.GotData(k) <==> s.GotData(k)
  {}

  lemma DequeueSafe(s: Node)
    requires s.Inv() && s.Safe()
    ensures Dequeue(s).Safe()
  {
    hide Node.Proven, Node.SafeOpening, Node.MayWrite, Node.QueueSound, Node.Once, Node.Inv;
    var r := Dequeue(s);
    LogAgain(s, r);
    OpeningsAgain(s, r);
    WireAgain(s, r);
    OnceAgain(s, r);
    if s.inbound != [] { DequeuedSound(s, r); } else { QueueAgain(s, r); }
  }

  lemma DequeuedSound(s: Node, r: Node)
    requires s.QueueSound() && r.log == s.log && r.queued == s.queued && s.inbound != [] && r.inbound == s.inbound[1..]
    ensures r.QueueSound()
  {
    hide Node.GotData;
    SameData(s, r);
    forall i | 0 <= i < |r.inbound| ensures r.Arrived(r.queued[|r.queued| - |r.inbound| + i], r.inbound[i]) {
      assert s.Arrived(s.queued[|s.queued| - |s.inbound| + (i + 1)], s.inbound[i + 1]);
    }
  }

  lemma HandleKeepaliveSafe(s: Node, packet: Packet, src: Source, env: Env)
    requires s.Inv() && s.Safe() && KnownSource(s, src)
    ensures HandleKeepalive(s, packet, src, env).Safe()
  {
    hide Node.Inv, Node.Safe, Node.MaySay, Handlers.ReplyTo;
    if packet.body.PingBody? && src.peer != null {
      if packet.body.reply {
        DoSafe(s, src.peer, L.Measure(packet.body.token, env.now));
      } else {
        DoSafe(s, src.peer, L.Heard(env.now));
        ReplyToSafe(s.Do(src.peer, L.Heard(env.now)), src, T.MSG_KEEPALIVE, src.peer.sender,
                    PingBody(packet.body.token, true));
      }
    }
  }

  lemma HandleCloseSafe(s: Node, src: Source)
    requires s.Inv() && s.Safe() && KnownSource(s, src)
    ensures HandleClose(s, src).Safe()
  {
    hide Node.Inv, Node.Safe;
    if src.peer != null { DoSafe(s, src.peer, L.Fail); }
  }

  lemma DispatchSafe(s: Node, packet: Packet, src: Source, env: Env)
    requires s.Inv() && s.Safe() && KnownSource(s, src) && Atoms(packet) <= s.heard
    ensures Dispatch(s, packet, src, env).Safe()
  {
    hide Node.Inv, Node.Safe, KnownSource, Handlers.HandleInit, Handlers.HandleResponse, Handlers.HandleKeepalive;
    hide Handlers.HandleData, Handlers.HandleClose;
    var kind := packet.header.kind;
    if kind == T.MSG_HANDSHAKE_INIT {
      HandleInitSafe(s, packet, src, env);
    } else if kind == T.MSG_HANDSHAKE_RESPONSE {
      HandleResponseSafe(s, packet, src, env);
    } else if kind == T.MSG_KEEPALIVE {
      HandleKeepaliveSafe(s, packet, src, env);
    } else if kind == T.MSG_DATA {
      HandleDataSafe(s, packet, src, env);
    } else if kind == T.MSG_CLOSE {
      HandleCloseSafe(s, src);
    }
  }

  lemma HandleProbeSafe(s: Node, packet: Packet, from: AddrPort, env: Env)
    requires s.Inv() && s.Safe()
    ensures HandleProbe(s, packet, from, env).Safe()
  {
    hide Node.Inv, Node.Safe, Node.MaySay, Handlers.BeginHandshake, Handlers.PeerAt;
    var peer := PeerAt(s, from);
    if packet.body.PingBody? {
      if packet.body.reply {
        if peer != null {
          DoSafe(s, peer, L.Measure(packet.body.token, env.now));
          BeginHandshakeSafe(s.Do(peer, L.Measure(packet.body.token, env.now)), peer, env);
        }
      } else {
        var answer := Envelope(T.MSG_PROBE, 0, 0, PingBody(packet.body.token, true));
        WriteSafe(s, from, answer);
        if peer != null { BeginHandshakeSafe(s.Write(from, answer), peer, env); }
      }
    }
  }

  lemma DeliverForwardedSafe(s: Node, carried: Carried, relay: Peer, env: Env)
    requires s.Inv() && s.Safe() && relay in s.links && Atoms(carried.packet) <= s.heard
    ensures DeliverForwarded(s, carried, relay, env).Safe()
  {
    hide Node.Safe, Handlers.Dispatch, L.Reached, L.Of, Link.Consistent;
    if carried.source in s.byIP && s.byIP[carried.source] != relay {
      DispatchSafe(s, carried.packet, Source(NO_ENDPOINT, s.byIP[carried.source], relay), env);
    }
  }

  lemma PassOnSafe(s: Node, carried: Carried, origin: Peer)
    requires s.Inv() && s.Safe() && origin in s.links && Atoms(carried.packet) <= s.heard && s.MayCarry(carried.packet)
    ensures PassOn(s, carried, origin).Safe()
  {
    hide Node.Safe, Node.MayCarry, Handlers.Forward, L.Reached, L.Of, Link.Consistent;
    if carried.hopLimit != 0 && carried.destination in s.byIP {
      ForwardSafe(s, s.byIP[carried.destination], carried.(hopLimit := carried.hopLimit - 1));
    }
  }

  lemma HandleForwardSafe(s: Node, packet: Packet, from: AddrPort, env: Env)
    requires s.Inv() && s.Safe() && Atoms(packet) <= s.heard
    ensures HandleForward(s, packet, from, env).Safe()
  {
    hide Node.Safe, Node.Inv, Node.Grows, Handlers.Dispatch, Handlers.DeliverForwarded, Handlers.PassOn;
    hide Handlers.Accept;
    hide Handlers.PeerAt;
    var relay := PeerAt(s, from);
    if relay != null {
      AcceptSafe(s, relay, packet, env);
      var (s1, plain) := Accept(s, relay, packet, env);
      if plain.Success? && plain.value.Forwarded? {
        var carried := plain.value.carried;
        assert Atoms(carried.packet) <= Atoms(packet);
        if carried.destination == s.virtualIP {
          DeliverForwardedSafe(s1, carried, relay, env);
        } else {
          assert s1.Carries(|s.log|, carried.packet);
          PassOnSafe(s1, carried, relay);
        }
      }
    }
  }

  lemma ReceiveSafe(s: Node, packet: Packet, from: AddrPort, env: Env)
    requires s.Inv() && s.Safe()
    ensures Receive(s, packet, from, env).Safe()
  {
    hide Node.Safe, Handlers.HandleProbe, Handlers.HandleForward, Handlers.Dispatch, L.Reached, L.Of, Link.Consistent;
    var s1 := Hear(s, packet);
    HearSafe(s, packet);
    if packet.header.version == T.VERSION {
      if packet.header.kind == T.MSG_PROBE {
        HandleProbeSafe(s1, packet, from, env);
      } else if packet.header.kind == T.MSG_FORWARD {
        HandleForwardSafe(s1, packet, from, env);
      } else {
        DispatchSafe(s1, packet, Source(from, PeerAt(s1, from), null), env);
      }
    }
  }

  // ----- maintenance and the server's events -----

  lemma TickPeerSafe(s: Node, peer: Peer, keepalives: bool, env: Env)
    requires s.Inv() && s.Safe() && peer in s.links
    ensures TickPeer(s, peer, keepalives, env).Safe()
  {
    hide Node.Inv, Node.Safe, Node.Grows, Link.Consistent;
    hide Handlers.Punch, Handlers.SendKeepalive, Handlers.TryRelay, Handlers.BeginHandshake;
    var l := s.links[peer];
    if l.Silent(env.now) {
      RestartLinkSafe(s, peer, env);
    } else if l.session.Some? {
      if keepalives { SendKeepaliveSafe(s, peer, env); }
    } else if l.state == Failed || l.handshakes >= HandshakeBudget(l.via) {
      TryRelaySafe(s, peer, env);
      if l.state != Failed { DoSafe(s, peer, L.Fail); }
    } else if l.via != null {
      BeginHandshakeSafe(s, peer, env);
    } else {
      PunchSafe(s, peer, env);
      BeginHandshakeSafe(Punch(s, peer, env), peer, env);
    }
  }

  lemma RestartLinkSafe(s: Node, peer: Peer, env: Env)
    requires s.Inv() && s.Safe() && peer in s.links
    ensures RestartLink(s, peer, env).Safe()
  {
    hide Node.Inv, Node.Safe, Handlers.Punch;
    DoSafe(s, peer, L.Restart);
    PunchSafe(s.Do(peer, L.Restart), peer, env);
  }

  lemma {:induction false} RestartLinksSafe(s: Node, peers: seq<Peer>, envs: seq<Env>)
    requires s.Inv() && s.Safe() && AllIn(peers, s.links.Keys) && |envs| == |peers|
    ensures RestartLinks(s, peers, envs).Safe()
    decreases |peers|
  {
    hide Node.Inv, Node.Safe, Handlers.RestartLink;
    if peers != [] {
      RestartLinkSafe(s, peers[0], envs[0]);
      RestartLinksSafe(RestartLink(s, peers[0], envs[0]), peers[1..], envs[1..]);
    }
  }

  lemma RetryPeerSafe(s: Node, id: DeviceId, env: Env)
    requires s.Inv() && s.Safe()
    ensures RetryPeer(s, id, env).Safe()
  {
    hide Node.Safe, Handlers.RestartLink, Handlers.BeginHandshake, L.Reached, L.Of, Link.Consistent;
    if id in s.peers {
      RestartLinkSafe(s, s.peers[id], env);
      BeginHandshakeSafe(RestartLink(s, s.peers[id], env), s.peers[id], env);
    }
  }

  lemma SetPeerEndpointSafe(s: Node, id: DeviceId, endpoint: AddrPort, env: Env)
    requires s.Inv() && s.Safe()
    ensures SetPeerEndpoint(s, id, endpoint, env).Safe()
  {
    hide Node.Safe, Handlers.Follow, Handlers.Punch, L.Reached, L.Of, Link.Consistent;
    if id in s.peers && endpoint.IsValid() && s.links[s.peers[id]].endpoint != endpoint {
      FollowSafe(s, s.peers[id], endpoint, env);
      PunchSafe(Follow(s, s.peers[id], endpoint, env), s.peers[id], env);
    }
  }

  lemma AddPeerSafe(s: Node, peer: Peer, endpoint: AddrPort, env: Env)
    requires s.Inv() && s.Safe() && peer !in s.links
    ensures AddPeer(s, peer, endpoint, env).Safe()
  {
    hide Node.Safe, Handlers.Follow, Handlers.Punch, Handlers.Reindex, L.Reached, L.Of, Link.Consistent;
    if peer.deviceID in s.peers {
      FollowSafe(s, s.peers[peer.deviceID], endpoint, env);
    } else {
      var s1 := Enrol(s, peer, endpoint);
      EnrolSafe(s, peer, endpoint);
      ReindexSafe(s1, env.tables);
      PunchSafe(Reindex(s1, env.tables), peer, env);
    }
  }

  lemma RemovePeerSafe(s: Node, id: DeviceId, env: Env)
    requires s.Inv() && s.Safe()
    ensures RemovePeer(s, id, env).Safe()
  {
    hide Node.Safe, Handlers.Reindex, L.Reached, L.Of, Link.Consistent;
    var s1 := s.(peers := s.peers - {id});
    SafeAgain(s, s1);
    ReindexSafe(s1, env.tables);
  }
}
