/** How an open link is kept alive: what a tick sends, how it is answered, and that two ends whose keepalives get
    through in time are never restarted. */
module Alive {
  import opened Handlers
  import opened Lookup
  import opened Netip
  import opened Network
  import opened Nodes
  import opened Packets
  import opened Peers
  import opened Retry
  import opened Runs
  import opened Sending
  import opened Session
  import opened Wrappers
  import L = PeerRuns
  import T = Transport

  function Ask(p: Peer, token: uint64): Packet { Envelope(T.MSG_KEEPALIVE, p.sender, 0, PingBody(token, false)) }

  function Answer(p: Peer, token: uint64): Packet { Envelope(T.MSG_KEEPALIVE, p.sender, 0, PingBody(token, true)) }

  // ----- what a tick sends -----

  /** A tick of an open link that was heard from in the last 45 seconds changes nothing if no keepalive is due. If
      one is, it goes out once, by the link's path if it has one, and its token waits for the answer; nothing else
      of any link changes but counters. */
  lemma OpenLinkIsAsked(s: Node, p: Peer, env: Env, q: Peer)
    requires s.Inv() && p in s.links && q in s.links && s.links[p].session.Some?
    requires s.links[p].lastHeard.Some? ==> env.now - s.links[p].lastHeard.value <= 45_000_000_000
    ensures TickPeer(s, p, false, env) == s
    ensures
      var r := TickPeer(s, p, true, env);
      && r.wire == s.wire + (if HasPath(s, p) then [Outgoing(s, p, Ask(p, env.token))] else [])
      && q in r.links && env.token in s.links[p].Expect(env.token, env.now).pending
      && Still(r.links[q]) == Still(if q == p then s.links[p].Expect(env.token, env.now) else s.links[q])
  {
    hide Node.Inv, Node.Grows, Handlers.Punch, Handlers.TryRelay, Handlers.BeginHandshake, Link.Consistent;
    hide HasPath, Outgoing, Handlers.SendPacket, Still;
    var asked := s.Do(p, L.Expect(env.token, env.now));
    ExpectKeepsPath(s, p, env);
    SendsExactly(asked, p, T.MSG_KEEPALIVE, PingBody(env.token, false));
    SendPacketOnlyCounts(asked, p, T.MSG_KEEPALIVE, PingBody(env.token, false));
  }

  lemma ExpectKeepsPath(s: Node, p: Peer, env: Env)
    requires s.Inv() && p in s.links
    ensures
      var r := s.Do(p, L.Expect(env.token, env.now));
      && r.wire == s.wire && r.links == s.links[p := s.links[p].Expect(env.token, env.now)]
      && (HasPath(r, p) <==> HasPath(s, p))
      && forall packet | HasPath(s, p) :: Outgoing(r, p, packet) == Outgoing(s, p, packet)
  {
    hide L.Reached, L.Of, Link.Consistent, Node.Steady;
  }

  /** One that was not heard from for more than 45 seconds starts over, straight, with a probe to its address. */
  lemma SilentLinkStartsOver(s: Node, p: Peer, keepalives: bool, env: Env)
    requires s.Inv() && p in s.links && s.links[p].session.Some? && s.links[p].lastHeard.Some?
    requires env.now - s.links[p].lastHeard.value > 45_000_000_000
    ensures
      var r, l := TickPeer(s, p, keepalives, env), s.links[p];
      && r.links == s.links[p := l.Restart().(pending := r.links[p].pending)]
      && r.links[p].session.None? && r.links[p].via == null && r.links[p].state == Connecting
      && r.wire == s.wire + if l.endpoint.IsValid() then [Datagram(l.endpoint, Probe(env.token, false))] else []
  {
    hide Node.Inv, Node.Grows, Handlers.TryRelay, Handlers.BeginHandshake, Handlers.SendKeepalive, Link.Consistent;
  }

  function Probe(token: uint64, reply: bool): Packet { Envelope(T.MSG_PROBE, 0, 0, PingBody(token, reply)) }

  /** The init that a handshake with a peer would begin with. */
  function InitFor(s: Node, p: Peer, env: Env): Packet {
    Envelope(T.MSG_HANDSHAKE_INIT, p.sender, 0,
             InitBody(s.device, WriteInit(s.key, p.transportKey, env.ephemeral).init))
  }

  /** An attempt that is due goes out. */
  ghost predicate InitGoesOut(s: Node, p: Peer, env: Env)
    requires s.Inv() && p in s.links
  {
    Opens(s, p, env.now) && |s.device| <= 255 && HasPath(s, p)
  }

  /** Beginning a handshake writes its init if an attempt is due and there is a path, and nothing else. */
  lemma BeginningWrites(s: Node, p: Peer, env: Env)
    requires s.Inv() && p in s.links
    ensures
      BeginHandshake(s, p, env).wire ==
        s.wire + if InitGoesOut(s, p, env) then [Outgoing(s, p, InitFor(s, p, env))] else []
  {
    hide Node.Inv, Node.Grows, Link.Consistent, Handlers.SendPacket, HasPath, Outgoing;
    if Opens(s, p, env.now) && |s.device| <= 255 {
      var h := WriteInit(s.key, p.transportKey, env.ephemeral);
      var tried := s.Draw(env.ephemeral).Do(p, L.Attempt(Some(h), env.now));
      AttemptKeepsPath(s, p, h, env);
      SendsExactly(tried, p, T.MSG_HANDSHAKE_INIT, InitBody(s.device, h.init));
    }
  }

  lemma AttemptKeepsPath(s: Node, p: Peer, h: Handshake, env: Env)
    requires s.Inv() && p in s.links && s.links[p].MayAttempt(env.now)
    ensures
      var r := s.Draw(env.ephemeral).Do(p, L.Attempt(Some(h), env.now));
      && r.wire == s.wire && (HasPath(r, p) <==> HasPath(s, p))
      && forall packet | HasPath(s, p) :: Outgoing(r, p, packet) == Outgoing(s, p, packet)
  {
    hide L.Reached, L.Of, Link.Consistent, Node.Steady;
  }

  /** A link with attempts left and no relay is probed at its address, and its handshake begun if one is due. */
  lemma WaitingLinkIsProbed(s: Node, p: Peer, keepalives: bool, env: Env)
    requires s.Inv() && p in s.links && s.links[p].session.None? && s.links[p].via == null
    requires s.links[p].state != Failed && s.links[p].handshakes < 10 && s.links[p].endpoint.IsValid()
    ensures
      var r, end := TickPeer(s, p, keepalives, env), s.links[p].endpoint;
      r.wire == s.wire + ([Datagram(end, Probe(env.token, false))] +
                          if InitGoesOut(s, p, env) then [Datagram(end, InitFor(s, p, env))] else [])
  {
    hide Node.Inv, Node.Grows, Link.Consistent, Handlers.Punch, Handlers.TryRelay, Handlers.BeginHandshake;
    hide Handlers.SendKeepalive;
    PunchProbes(s, p, env);
    BeginningWrites(Punch(s, p, env), p, env);
  }

  /** A probe goes to a link's address, if it has one; of the link only the tokens that wait change. */
  lemma PunchProbes(s: Node, p: Peer, env: Env)
    requires s.Inv() && p in s.links
    ensures
      var r, end := Punch(s, p, env), s.links[p].endpoint;
      && r.wire == s.wire + (if end.IsValid() then [Datagram(end, Probe(env.token, false))] else [])
      && r.links == s.links[p := if end.IsValid() then s.links[p].Expect(env.token, env.now) else s.links[p]]
  {
    hide Node.Inv, Node.Steady, Link.Consistent;
  }

  /** A relayed one is not probed: only its handshake is begun, and that through the relay. */
  lemma RelayedLinkIsBegun(s: Node, p: Peer, keepalives: bool, env: Env)
    requires s.Inv() && p in s.links && s.links[p].session.None? && s.links[p].via != null
    requires s.links[p].state != Failed && s.links[p].handshakes < 3
    ensures
      TickPeer(s, p, keepalives, env).wire ==
        s.wire + if InitGoesOut(s, p, env) then [Outgoing(s, p, InitFor(s, p, env))] else []
  {
    hide Node.Inv, Handlers.TryRelay, Handlers.SendKeepalive, Handlers.BeginHandshake, Link.Consistent, HasPath;
    BeginningWrites(s, p, env);
  }

  /** A link that opens says so: a keepalive goes out by its path. */
  lemma OpeningSaysSo(s: Node, p: Peer, session: Session, env: Env)
    requires s.Inv() && p in s.links && s.links[p].via != p
    ensures
      OpenLink(s, p, session, env).wire ==
        s.wire + if HasPath(s, p) then [Outgoing(s, p, Ask(p, env.token))] else []
  {
    hide Node.Inv, Node.Grows, Link.Consistent, Handlers.SendPacket, HasPath, Outgoing;
    var unsaid := s.Do(p, L.Open(session, env.now));
    OpenKeepsPath(s, p, session, env);
    ExpectKeepsPath(unsaid, p, env);
    SendsExactly(unsaid.Do(p, L.Expect(env.token, env.now)), p, T.MSG_KEEPALIVE, PingBody(env.token, false));
  }

  lemma OpenKeepsPath(s: Node, p: Peer, session: Session, env: Env)
    requires s.Inv() && p in s.links && s.links[p].via != p
    ensures
      var r := s.Do(p, L.Open(session, env.now));
      && r.wire == s.wire && (HasPath(r, p) <==> HasPath(s, p))
      && forall packet | HasPath(s, p) :: Outgoing(r, p, packet) == Outgoing(s, p, packet)
  {
    hide L.Reached, L.Of, Link.Consistent, Node.Steady;
  }

  // ----- how it is answered -----

  /** An ask is answered with its own token, the way it came, and the peer counts as heard; of all else only
      counters change. */
  lemma AskIsAnswered(s: Node, packet: Packet, src: Source, env: Env, q: Peer)
    requires s.Inv() && KnownSource(s, src) && src.peer != null && q in s.links
    requires packet.body.PingBody? && !packet.body.reply
    ensures
      var r, p := HandleKeepalive(s, packet, src, env), src.peer;
      var answer := Answer(p, packet.body.token);
      && q in r.links && Still(r.links[q]) == Still(if q == p then s.links[p].Heard(env.now) else s.links[q])
      && if src.relay == null then r.wire == s.wire + [Datagram(src.addr, answer)]
         else
           var l := s.links[src.relay];
           l.session.Some? && l.endpoint.IsValid() && s.virtualIP.V4? && p.virtualIP.V4? ==>
             r.wire == s.wire + [Wrapped(l, src.relay, s.virtualIP, p, answer)]
  {
    hide L.Reached, L.Of, Link.Consistent, Node.Steady, Still;
    var heard := s.Do(src.peer, L.Heard(env.now));
    if src.relay != null {
      ForwardOnlyCounts(heard, src.relay, Carried(INITIAL_HOP_LIMIT, s.virtualIP, src.peer.virtualIP,
                                                  Answer(src.peer, packet.body.token)));
    }
  }

  /** An answer whose token waits clears it, and the peer counts as heard; any other changes nothing. Neither is
      answered. */
  lemma AnswerIsHeard(s: Node, packet: Packet, src: Source, env: Env)
    requires s.Inv() && KnownSource(s, src) && src.peer != null && packet.body.PingBody? && packet.body.reply
    ensures
      var r, l := HandleKeepalive(s, packet, src, env), s.links[src.peer];
      var token := packet.body.token;
      && r.wire == s.wire
      && r.links == if token in l.pending
                    then s.links[src.peer := l.(pending := l.pending - {token}, lastHeard := Some(env.now))]
                    else s.links
  {
    hide Node.Inv, Link.Consistent;
  }

  /** A probe is echoed to whoever asks, with its own token; and as it shows that a path may be open, a handshake
      that is due with a peer who is there is begun. */
  lemma ProbeIsEchoed(s: Node, packet: Packet, from: AddrPort, env: Env)
    requires s.Inv() && packet.body.PingBody? && !packet.body.reply
    ensures
      var r, echo := HandleProbe(s, packet, from, env), [Datagram(from, Probe(packet.body.token, true))];
      if from !in s.byUDP then r.wire == s.wire + echo
      else
        var p := s.byUDP[from];
        && p in s.links
        && r.wire == s.wire + (echo + if InitGoesOut(s, p, env) then [Outgoing(s, p, InitFor(s, p, env))] else [])
  {
    hide L.Reached, L.Of, Link.Consistent, Handlers.BeginHandshake, HasPath, Outgoing, Node.Steady;
    var echoed := s.Write(from, Probe(packet.body.token, true));
    if from in s.byUDP {
      BeginningWrites(echoed, s.byUDP[from], env);
      EchoedKeepsPath(s, echoed, s.byUDP[from], env);
    }
  }

  lemma EchoedKeepsPath(s: Node, r: Node, p: Peer, env: Env)
    requires s.Inv() && r.Inv() && p in s.links && r == s.(wire := r.wire)
    ensures HasPath(r, p) <==> HasPath(s, p)
    ensures forall packet | HasPath(s, p) :: Outgoing(r, p, packet) == Outgoing(s, p, packet)
  {
    hide L.Reached, L.Of, Link.Consistent;
  }

  /** Once the echo is back the path is open, and a handshake that is due is begun. */
  lemma EchoBegins(s: Node, packet: Packet, from: AddrPort, env: Env, p: Peer)
    requires s.Inv() && packet.body.PingBody? && packet.body.reply && from in s.byUDP && s.byUDP[from] == p
    ensures p in s.links
    ensures
      HandleProbe(s, packet, from, env).wire ==
        s.wire + if InitGoesOut(s, p, env) then [Outgoing(s, p, InitFor(s, p, env))] else []
  {
    hide L.Reached, L.Of, Link.Consistent, Handlers.BeginHandshake, HasPath, Outgoing, Node.Steady;
    var measured := s.Do(p, L.Measure(packet.body.token, env.now));
    MeasureKeepsPath(s, p, packet.body.token, env);
    BeginningWrites(measured, p, env);
  }

  lemma MeasureKeepsPath(s: Node, p: Peer, token: uint64, env: Env)
    requires s.Inv() && p in s.links
    ensures
      var r := s.Do(p, L.Measure(token, env.now));
      && r.wire == s.wire && (InitGoesOut(r, p, env) <==> InitGoesOut(s, p, env)) && (HasPath(r, p) <==> HasPath(s, p))
      && forall packet | HasPath(s, p) :: Outgoing(r, p, packet) == Outgoing(s, p, packet)
  {
    hide L.Reached, L.Of, Link.Consistent, Node.Steady;
  }

  // ----- two ends, kept alive -----

  /** Two daemons, as each names the other, and where they are. */
  datatype Duo = Duo(a: DeviceId, b: DeviceId, atA: Peer, atB: Peer, endA: AddrPort, endB: AddrPort) {
    /** The two hold the ends of one session, straight, and last heard from each other at these times. */
    ghost predicate Live(net: Net, session: Session, heardA: Time, heardB: Time) {
      && a != b && a in net && b in net && Finds(net[a], atA, endB) && Finds(net[b], atB, endA)
      && Hears(net[a].links[atA], session, heardA) && Hears(net[b].links[atB], session.OtherEnd(), heardB)
    }

    /** The same two, the other way round. */
    function Swapped(): Duo { Duo(b, a, atB, atA, endB, endA) }
  }

  /** A straight link that holds a session and was last heard from at a time. */
  predicate Hears(l: Link, session: Session, heard: Time) {
    l.via == null && l.session == Some(session) && l.lastHeard == Some(heard)
  }

  /** A keepalive that gets through: as it was sent, as it arrived, and as its answer came back. */
  datatype Exchange = Exchange(sent: Env, arrived: Env, back: Env)

  function Exchanged(t: Duo, x: Exchange): seq<Event> {
    [TickOne(t.a, t.atA, true, x.sent),
     Arrive(t.b, Ask(t.atA, x.sent.token), t.endA, x.arrived),
     Arrive(t.a, Answer(t.atB, x.sent.token), t.endB, x.back)]
  }

  /** What happens to two ends: one asks the other and hears back, or ticks in vain, a keepalive lost included. */
  datatype Beat =
    | AskedByA(x: Exchange)
    | AskedByB(x: Exchange)
    | TickAtA(keepalives: bool, env: Env)
    | TickAtB(keepalives: bool, env: Env)

  function Happening(t: Duo, beat: Beat): seq<Event> {
    match beat
    case AskedByA(x) => Exchanged(t, x)
    case AskedByB(x) => Exchanged(t.Swapped(), x)
    case TickAtA(keepalives, env) => [TickOne(t.a, t.atA, keepalives, env)]
    case TickAtB(keepalives, env) => [TickOne(t.b, t.atB, keepalives, env)]
  }

  function Script(t: Duo, beats: seq<Beat>): seq<Event> {
    if beats == [] then [] else Happening(t, beats[0]) + Script(t, beats[1..])
  }

  /** When the two have last heard from each other after it. */
  function HeardAfter(heard: (Time, Time), beat: Beat): (Time, Time) {
    match beat
    case AskedByA(x) => (x.back.now, x.arrived.now)
    case AskedByB(x) => (x.arrived.now, x.back.now)
    case _ => heard
  }

  function LastHeard(heard: (Time, Time), beats: seq<Beat>): (Time, Time)
    decreases |beats|
  {
    if beats == [] then heard else LastHeard(HeardAfter(heard, beats[0]), beats[1..])
  }

  /** Every tick is at most 45 seconds after its end last heard from the other. */
  predicate InTime(heard: (Time, Time), beats: seq<Beat>)
    decreases |beats|
  {
    beats == [] ||
    (&& (match beats[0]
         case AskedByA(x) => x.sent.now - heard.0 <= 45_000_000_000
         case AskedByB(x) => x.sent.now - heard.1 <= 45_000_000_000
         case TickAtA(_, env) => env.now - heard.0 <= 45_000_000_000
         case TickAtB(_, env) => env.now - heard.1 <= 45_000_000_000)
     && InTime(HeardAfter(heard, beats[0]), beats[1..]))
  }

  /** What is delivered in an exchange was written for it, to where the other is. */
  ghost predicate WasSent(t: Duo, net: Net, x: Exchange) {
    && t.a in net && t.b in net
    && Sent(net[t.a], t.endB, Ask(t.atA, x.sent.token)) && Sent(net[t.b], t.endA, Answer(t.atB, x.sent.token))
  }

  /** A tick in time leaves the link as it was, but for tokens; with keepalives due it asks. */
  lemma TickInTime(s: Node, p: Peer, at: AddrPort, keepalives: bool, env: Env, session: Session, heard: Time)
    requires Finds(s, p, at) && Hears(s.links[p], session, heard) && env.now - heard <= 45_000_000_000
    ensures
      var r := TickPeer(s, p, keepalives, env);
      && Kept(s, r) && Hears(r.links[p], session, heard)
      && (keepalives ==> env.token in r.links[p].pending && Sent(r, at, Ask(p, env.token)))
  {
    hide Node.Inv, Handlers.TickPeer;
    OpenLinkIsAsked(s, p, env, p);
    var r, l := TickPeer(s, p, keepalives, env), s.links[p];
    if keepalives {
      SameStill(r.links[p], l.Expect(env.token, env.now));
      StraightOut(s, p, Ask(p, env.token));
      assert r.wire[|s.wire|] == Datagram(at, Ask(p, env.token));
    }
  }

  lemma SameStill(l: Link, m: Link)
    requires Still(l) == Still(m)
    ensures l == m.(counter := l.counter)
  {
    assert Still(l).(counter := l.counter) == l && Still(m).(counter := l.counter) == m.(counter := l.counter);
  }

  lemma StraightOut(s: Node, p: Peer, packet: Packet)
    requires s.Inv() && p in s.links && s.links[p].via == null && s.links[p].endpoint.IsValid()
    ensures HasPath(s, p) && Outgoing(s, p, packet) == Datagram(s.links[p].endpoint, packet)
  {
    hide Node.Inv;
  }

  lemma KeepaliveArrives(s: Node, p: Peer, from: AddrPort, packet: Packet, env: Env)
    requires Finds(s, p, from) && packet.header.version == T.VERSION && packet.header.kind == T.MSG_KEEPALIVE
    ensures KnownSource(Hear(s, packet), Source(from, p, null))
    ensures Receive(s, packet, from, env) == HandleKeepalive(Hear(s, packet), packet, Source(from, p, null), env)
  {
    hide Handlers.Dispatch, Handlers.HandleProbe, Handlers.HandleForward, Node.Stays, Node.Inv;
    KeepaliveIsHandled(Hear(s, packet), packet, Source(from, p, null), env);
  }

  lemma KeepaliveIsHandled(s: Node, packet: Packet, src: Source, env: Env)
    requires s.Inv() && KnownSource(s, src) && packet.header.kind == T.MSG_KEEPALIVE
    ensures Dispatch(s, packet, src, env) == HandleKeepalive(s, packet, src, env)
  {
    hide Handlers.HandleInit, Handlers.HandleResponse, Handlers.HandleKeepalive, Handlers.HandleData;
    hide Handlers.HandleClose, Node.Inv, Node.Stays;
  }

  lemma AskArrives(s: Node, p: Peer, at: AddrPort, q: Peer, token: uint64, env: Env, session: Session, heard: Time)
    requires Finds(s, p, at) && Hears(s.links[p], session, heard)
    ensures
      var r := Receive(s, Ask(q, token), at, env);
      Kept(s, r) && Hears(r.links[p], session, env.now) && Sent(r, at, Answer(p, token))
  {
    hide Node.Inv, Handlers.Receive, Handlers.HandleKeepalive;
    var packet := Ask(q, token);
    KeepaliveArrives(s, p, at, packet, env);
    AskIsAnswered(Hear(s, packet), packet, Source(at, p, null), env, p);
    var r := Receive(s, packet, at, env);
    SameStill(r.links[p], s.links[p].Heard(env.now));
    assert r.wire[|s.wire|] == Datagram(at, Answer(p, token));
  }

  lemma AnswerArrives(s: Node, p: Peer, at: AddrPort, q: Peer, token: uint64, env: Env, session: Session, heard: Time)
    requires Finds(s, p, at) && Hears(s.links[p], session, heard) && token in s.links[p].pending
    ensures
      var r := Receive(s, Answer(q, token), at, env);
      Kept(s, r) && Hears(r.links[p], session, env.now)
  {
    hide Node.Inv, Handlers.Receive, Handlers.HandleKeepalive;
    var packet := Answer(q, token);
    KeepaliveArrives(s, p, at, packet, env);
    AnswerIsHeard(Hear(s, packet), packet, Source(at, p, null), env);
  }

  /** A keepalive that gets through in time leaves both ends open, each just heard from. */
  lemma ExchangeIsLive(t: Duo, start: Net, events: seq<Event>, session: Session, heardA: Time, heardB: Time,
                       x: Exchange)
    requires t.Live(Run(start, events), session, heardA, heardB) && x.sent.now - heardA <= 45_000_000_000
    ensures t.Live(Run(start, events + Exchanged(t, x)), session, x.back.now, x.arrived.now)
    ensures WasSent(t, Run(start, events + Exchanged(t, x)), x)
  {
    hide Run, Handlers.Receive, Handlers.TickPeer, Node.Inv, SameAddresses, Sent, Deliverable, Hears;
    var net := Run(start, events);
    var ask, answer := Ask(t.atA, x.sent.token), Answer(t.atB, x.sent.token);
    TickInTime(net[t.a], t.atA, t.endB, true, x.sent, session, heardA);
    var asked := Then(start, events, TickOne(t.a, t.atA, true, x.sent));
    var a1 := Run(start, asked)[t.a];
    FindsStill(net[t.a], a1, t.atA, t.endB);
    SentIsDeliverable(Run(start, asked), t.a, t.endB, ask);
    AskArrives(net[t.b], t.atB, t.endA, t.atA, x.sent.token, x.arrived, session.OtherEnd(), heardB);
    var arrived := Then(start, asked, Arrive(t.b, ask, t.endA, x.arrived));
    FindsStill(net[t.b], Run(start, arrived)[t.b], t.atB, t.endA);
    SentIsDeliverable(Run(start, arrived), t.b, t.endA, answer);
    AnswerArrives(a1, t.atA, t.endB, t.atB, x.sent.token, x.back, session, heardA);
    var back := Then(start, arrived, Arrive(t.a, answer, t.endB, x.back));
    FindsStill(a1, Run(start, back)[t.a], t.atA, t.endB);
    SentStill(a1, Run(start, back)[t.a], t.endB, ask);
    assert back == events + Exchanged(t, x);
  }

  lemma TickIsLive(t: Duo, start: Net, events: seq<Event>, session: Session, heardA: Time, heardB: Time,
                   keepalives: bool, env: Env)
    requires t.Live(Run(start, events), session, heardA, heardB) && env.now - heardA <= 45_000_000_000
    ensures t.Live(Run(start, events + [TickOne(t.a, t.atA, keepalives, env)]), session, heardA, heardB)
  {
    hide Run, Handlers.TickPeer, Node.Inv, SameAddresses, Sent, Hears;
    var net := Run(start, events);
    TickInTime(net[t.a], t.atA, t.endB, keepalives, env, session, heardA);
    var more := Then(start, events, TickOne(t.a, t.atA, keepalives, env));
    FindsStill(net[t.a], Run(start, more)[t.a], t.atA, t.endB);
  }

  lemma SwappedIsLive(t: Duo, net: Net, session: Session, heardA: Time, heardB: Time)
    ensures t.Live(net, session, heardA, heardB) <==> t.Swapped().Live(net, session.OtherEnd(), heardB, heardA)
  {
    hide Finds;
    assert session.OtherEnd().OtherEnd() == session;
  }

  lemma BeatIsLive(t: Duo, start: Net, events: seq<Event>, session: Session, heard: (Time, Time), beat: Beat)
    requires t.Live(Run(start, events), session, heard.0, heard.1) && InTime(heard, [beat])
    ensures
      var after := HeardAfter(heard, beat);
      t.Live(Run(start, events + Happening(t, beat)), session, after.0, after.1)
  {
    hide Run, Duo.Live;
    var net, r := Run(start, events), Run(start, events + Happening(t, beat));
    SwappedIsLive(t, net, session, heard.0, heard.1);
    match beat
    case AskedByA(x) => ExchangeIsLive(t, start, events, session, heard.0, heard.1, x);
    case AskedByB(x) =>
      ExchangeIsLive(t.Swapped(), start, events, session.OtherEnd(), heard.1, heard.0, x);
      SwappedIsLive(t, r, session, x.arrived.now, x.back.now);
    case TickAtA(keepalives, env) => TickIsLive(t, start, events, session, heard.0, heard.1, keepalives, env);
    case TickAtB(keepalives, env) =>
      TickIsLive(t.Swapped(), start, events, session.OtherEnd(), heard.1, heard.0, keepalives, env);
      SwappedIsLive(t, r, session, heard.0, heard.1);
  }

  /** Two open ends stay on their session through any number of ticks and keepalives, lost or not, so long as
      no tick comes more than 45 seconds after its end was last asked or answered. */
  lemma {:induction false} KeptAlive(t: Duo, start: Net, events: seq<Event>, session: Session, heard: (Time, Time),
                                     beats: seq<Beat>)
    requires t.Live(Run(start, events), session, heard.0, heard.1) && InTime(heard, beats)
    ensures
      var last := LastHeard(heard, beats);
      t.Live(Run(start, events + Script(t, beats)), session, last.0, last.1)
    decreases |beats|
  {
    hide Run, Duo.Live;
    if beats == [] {
      assert events + Script(t, beats) == events;
    } else {
      var more := events + Happening(t, beats[0]);
      assert [beats[0]][1..] == [];
      BeatIsLive(t, start, events, session, heard, beats[0]);
      KeptAlive(t, start, more, session, HeardAfter(heard, beats[0]), beats[1..]);
      assert more + Script(t, beats[1..]) == events + Script(t, beats);
    }
  }

  /** Both ends ask once, each no earlier than it could, and no later than a keepalive and a tick of the loop after
      the first of them asked last. */
  predicate Prompt(last: Time, rounds: seq<(Exchange, Exchange)>)
    decreases |rounds|
  {
    rounds == [] ||
    (var (x, y) := rounds[0];
     && x.sent.now - last <= 15_500_000_000
     && x.sent.now <= x.arrived.now && x.sent.now <= x.back.now
     && x.sent.now <= y.sent.now <= x.sent.now + 15_500_000_000
     && y.sent.now <= y.arrived.now && y.sent.now <= y.back.now
     && Prompt(x.sent.now, rounds[1..]))
  }

  function BeatsOf(rounds: seq<(Exchange, Exchange)>): seq<Beat> {
    if rounds == [] then [] else [AskedByA(rounds[0].0), AskedByB(rounds[0].1)] + BeatsOf(rounds[1..])
  }

  /** Keepalives every 15 seconds are in time. */
  lemma {:induction false} PromptIsInTime(last: Time, heard: (Time, Time), rounds: seq<(Exchange, Exchange)>)
    requires last <= heard.0 && Prompt(last, rounds)
    ensures InTime(heard, BeatsOf(rounds))
    decreases |rounds|
  {
    if rounds != [] {
      var (x, y) := rounds[0];
      var beats := BeatsOf(rounds);
      assert beats[0] == AskedByA(x) && beats[1..][0] == AskedByB(y) && beats[1..][1..] == BeatsOf(rounds[1..]);
      PromptIsInTime(x.sent.now, (y.arrived.now, y.back.now), rounds[1..]);
    }
  }
}
