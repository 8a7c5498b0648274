/** The mesh itself: one socket, the peers behind it and the tables that find them. Every method is
    proved to do to the object what its function in Handlers.dfy does to the value. */
module Mesh {
  import opened Handlers
  import opened Netip
  import opened Nodes
  import opened Packets
  import opened Peers
  import opened Replay
  import opened Session
  import opened Wrappers
  import L = PeerRuns
  import T = Transport

  ghost function Windows(objects: set<Peer>): set<ReplayWindow> {
    set p | p in objects :: p.replay
  }

  lemma WindowsGrow(objects: set<Peer>, peer: Peer)
    ensures Windows(objects + {peer}) == Windows(objects) + {peer.replay}
  {}

  datatype AddError = ErrKeySize | ErrNoRandomness

  /** No two peers share a replay window. */
  ghost predicate Separate(objects: set<Peer>) {
    forall p, q | p in objects && q in objects && p.replay == q.replay :: p == q
  }

  /** Every peer of the map, once each. */
  ghost predicate IsOrder(order: seq<Peer>, peers: map<DeviceId, Peer>) {
    && (forall p | p in order :: p in peers.Values) && (forall p | p in peers.Values :: p in order)
    && (forall i, j | 0 <= i < j < |order| :: order[i] != order[j])
  }

  class Mesh {
    const device: DeviceId
    const key: Key
    const virtualIP: Addr

    var peers: map<DeviceId, Peer>
    var byIP: map<Addr, Peer>
    var byUDP: map<AddrPort, Peer>
    var inbound: seq<Plain>

    /** What has been written to the socket. */
    var wire: seq<Datagram>

    // The record of the run.
    ghost var log: seq<L.Deed>
    ghost var heard: set<Atom>
    ghost var openings: set<Opening>
    ghost var queued: seq<nat>
    ghost var drawn: seq<nat>

    /** Every peer object ever made, a removed one included: a link may still run through it. */
    ghost var objects: set<Peer>

    ghost function Footprint(): set<object>
      reads this
    {
      {this} + objects + Windows(objects)
    }

    ghost function Links(): map<Peer, Link>
      reads `objects, objects, Windows(objects)
    {
      map p | p in objects :: p.View()
    }

    ghost function View(): Node
      reads Footprint()
    {
      Node(device, key, virtualIP, peers, byIP, byUDP, Links(), inbound, wire, log, heard, openings,
           queued, drawn)
    }

    ghost predicate Valid()
      reads Footprint()
    {
      Separate(objects) && View().Inv()
    }

    /** What a step took from outside, with the tables it left. */
    ghost function Here(now: Time, token: uint64, ephemeral: nat): Env
      reads this
    {
      Env(now, token, ephemeral, Tables(byIP, byUDP))
    }

    constructor (device: DeviceId, key: Key, virtualIP: Addr)
      ensures Valid() && fresh(Footprint())
      ensures View() == Node(device, key, virtualIP, map[], map[], map[], map[], [], [], [], {}, {}, [], [])
    {
      this.device, this.key, this.virtualIP := device, key, virtualIP;
      peers, byIP, byUDP, inbound, wire := map[], map[], map[], [], [];
      log, heard, openings, queued, drawn, objects := [], {}, {}, [], [], {};
    }

    // ----- sending -----

    method SendTo(to: AddrPort, packet: Packet)
      requires Valid()
      modifies `wire
      ensures Valid() && objects == old(objects) && View() == old(View()).Write(to, packet)
    {
      hide Node.Inv, Node.Steady;
      wire := wire + [Datagram(to, packet)];
      assert View() == old(View()).Write(to, packet);
    }

    method Forward(relay: Peer, carried: Carried) returns (err: Option<SendError>)
      requires Valid() && relay in objects
      modifies Footprint()
      ensures Valid() && objects == old(objects) && (View(), err) == Handlers.Forward(old(View()), relay, carried)
    {
      hide Node.Inv, Node.Steady, Link.Consistent;
      if !carried.source.V4? || !carried.destination.V4? {
        return Some(ErrNotIPv4);
      }
      KnownLink(this, relay);
      var sealing := relay.NextCounter();
      if sealing.None? {
        OneLinkSame(this, relay);
        return Some(SendError.ErrNoSession);
      }
      var text := SealedText(sealing.value.0, T.MSG_FORWARD, relay.sender, sealing.value.1, Forwarded(carried));
      log := log + [L.Deed(relay, L.Seal(text))];
      OneLinkDone(this, relay, L.Seal(text));
      if !relay.endpoint.IsValid() {
        return Some(ErrNoPath);
      }
      SendTo(relay.endpoint, Packet(text.header, SealedBody(text)));
      return None;
    }

    method Deliver(peer: Peer, packet: Packet) returns (err: Option<SendError>)
      requires Valid() && peer in objects
      modifies Footprint()
      ensures Valid() && objects == old(objects) && (View(), err) == Handlers.Deliver(old(View()), peer, packet)
    {
      var relay := peer.via;
      if relay != null {
        assert View().links[peer].via in View().links;
        err := Forward(relay, Carried(INITIAL_HOP_LIMIT, virtualIP, peer.virtualIP, packet));
        return;
      }
      if !peer.endpoint.IsValid() {
        return Some(ErrNoPath);
      }
      SendTo(peer.endpoint, packet);
      return None;
    }

    method SendPacket(peer: Peer, kind: byte, body: Body)
      requires Valid() && peer in objects
      modifies Footprint()
      ensures Valid() && objects == old(objects) && View() == Handlers.SendPacket(old(View()), peer, kind, body)
    {
      var _ := Deliver(peer, Envelope(kind, peer.sender, 0, body));
    }

    method SendData(peer: Peer, ip: seq<byte>) returns (err: Option<SendError>)
      requires Valid() && peer in objects
      modifies Footprint()
      ensures Valid() && objects == old(objects) && (View(), err) == Handlers.SendData(old(View()), peer, ip)
    {
      hide Node.Inv, Node.Steady, Link.Consistent, Handlers.Deliver;
      KnownLink(this, peer);
      var sealing := peer.NextCounter();
      if sealing.None? {
        OneLinkSame(this, peer);
        return Some(SendError.ErrNoSession);
      }
      var text := SealedText(sealing.value.0, T.MSG_DATA, peer.sender, sealing.value.1, IPPacket(ip));
      log := log + [L.Deed(peer, L.Seal(text))];
      OneLinkDone(this, peer, L.Seal(text));
      err := Deliver(peer, Packet(text.header, SealedBody(text)));
    }

    method Send(destination: Addr, ip: seq<byte>) returns (err: Option<SendError>)
      requires Valid()
      modifies Footprint()
      ensures Valid() && objects == old(objects) && (View(), err) == Handlers.Send(old(View()), destination, ip)
    {
      if destination !in byIP {
        return Some(ErrNoPeer);
      }
      err := SendData(byIP[destination], ip);
    }

    method ReplyTo(src: Source, kind: byte, sender: uint64, body: Body)
      requires Valid() && KnownSource(View(), src)
      modifies Footprint()
      ensures Valid() && objects == old(objects) && View() == Handlers.ReplyTo(old(View()), src, kind, sender, body)
    {
      var packet := Envelope(kind, sender, 0, body);
      if src.relay == null {
        SendTo(src.addr, packet);
        return;
      }
      var _ := Forward(src.relay, Carried(INITIAL_HOP_LIMIT, virtualIP, src.peer.virtualIP, packet));
    }

    method Punch(peer: Peer, now: Time, token: uint64)
      requires Valid() && peer in objects
      modifies Footprint()
      ensures Valid() && objects == old(objects) && View() == Handlers.Punch(old(View()), peer, Here(now, token, 0))
    {
      hide Node.Inv, Node.Steady, Link.Consistent;
      if !peer.endpoint.IsValid() {
        return;
      }
      KnownLink(this, peer);
      peer.Expect(token, now);
      log := log + [L.Deed(peer, L.Expect(token, now))];
      OneLinkDone(this, peer, L.Expect(token, now));
      SendTo(peer.endpoint, Envelope(T.MSG_PROBE, 0, 0, PingBody(token, false)));
    }

    method SendKeepalive(peer: Peer, now: Time, token: uint64)
      requires Valid() && peer in objects
      modifies Footprint()
      ensures Valid() && objects == old(objects) &&
              View() == Handlers.SendKeepalive(old(View()), peer, Here(now, token, 0))
    {
      hide Node.Inv, Node.Steady, Link.Consistent, Handlers.SendPacket;
      KnownLink(this, peer);
      peer.Expect(token, now);
      log := log + [L.Deed(peer, L.Expect(token, now))];
      OneLinkDone(this, peer, L.Expect(token, now));
      SendPacket(peer, T.MSG_KEEPALIVE, PingBody(token, false));
    }

    // ----- the tables -----

    /** Every current peer once, in whatever order the map gives. */
    method Peers() returns (all: seq<Peer>)
      requires Valid()
      ensures IsOrder(all, peers) && AllIn(all, View().links.Keys)
    {
      hide L.Reached, L.Of, Link.Consistent;
      var byId := peers;
      all := [];
      var rest := byId.Keys;
      assert forall d | d in byId :: byId[d].deviceID == d && byId[d] in View().links;
      while rest != {}
        invariant rest <= byId.Keys
        invariant forall p | p in all :: p.deviceID in byId && byId[p.deviceID] == p && p.deviceID !in rest
        invariant forall d | d in byId && d !in rest :: byId[d] in all
        invariant forall i, j | 0 <= i < j < |all| :: all[i] != all[j]
        decreases rest
      {
        var d :| d in rest;
        rest, all := rest - {d}, all + [byId[d]];
      }
      AllInSet(all, View().links.Keys);
    }

    /** Rebuilds the lookup tables from the peers. */
    method Reindex()
      requires Valid()
      modifies `byIP, `byUDP
      ensures Valid() && objects == old(objects)
      ensures View() == Handlers.Reindex(old(View()), Tables(byIP, byUDP)) && View().Indexed()
    {
      hide PartlyIndexes, Indexes, Node.Inv, Handlers.Reindex;
      ghost var before := View();
      var ips: map<Addr, Peer>, ends: map<AddrPort, Peer> := map[], map[];
      var rest := peers.Keys;
      NothingIndexed(before);
      while rest != {}
        invariant rest <= peers.Keys
        invariant PartlyIndexes(Tables(ips, ends), before, rest)
        decreases rest
      {
        var d :| d in rest;
        var peer := peers[d];
        OneMoreIndexed(Tables(ips, ends), before, rest, d);
        assert before.links[peer].endpoint == peer.endpoint;
        rest := rest - {d};
        if peer.virtualIP.IsValid() {
          ips := ips[peer.virtualIP := peer];
        }
        if peer.endpoint.IsValid() {
          ends := ends[peer.endpoint := peer];
        }
      }
      AllIndexed(Tables(ips, ends), before);
      byIP, byUDP := ips, ends;
      assert View() == before.(byIP := ips, byUDP := ends);
    }

    // ----- the handshake -----

    /** Notes, for the record of the run, that a fresh ephemeral key is drawn. */
    ghost method Draw(ephemeral: nat)
      requires Valid()
      modifies `drawn
      ensures Valid() && objects == old(objects) && View() == old(View()).Draw(ephemeral)
    {
      hide Node.Inv, Node.Steady;
      drawn := drawn + [ephemeral];
      assert View() == old(View()).Draw(ephemeral);
    }

    /** Counts one attempt, and keeps what it begins until the reply comes. */
    method SpendAttempt(peer: Peer, handshake: Option<Handshake>, now: Time)
      requires Valid() && peer in objects && peer.View().MayAttempt(now)
      modifies Footprint()
      ensures Valid() && objects == old(objects) && Tables(byIP, byUDP) == old(Tables(byIP, byUDP))
      ensures View() == old(View()).Do(peer, L.Attempt(handshake, now))
    {
      hide Node.Inv, Node.Steady, Link.Consistent;
      KnownLink(this, peer);
      peer.handshakes := peer.handshakes + 1;
      peer.lastHandshake := Some(now);
      if handshake.Some? {
        peer.handshake := handshake;
      }
      log := log + [L.Deed(peer, L.Attempt(handshake, now))];
      OneLinkDone(this, peer, L.Attempt(handshake, now));
    }

    method BeginHandshake(peer: Peer, now: Time, ephemeral: nat)
      requires Valid() && peer in objects
      modifies Footprint()
      ensures Valid() && objects == old(objects)
      ensures View() == Handlers.BeginHandshake(old(View()), peer, Here(now, 0, ephemeral))
    {
      hide Node.Inv, Node.Steady, Link.Consistent, Handlers.SendPacket;
      KnownLink(this, peer);
      if Less(peer.deviceID, device) {
        return;
      }
      var reachable := peer.endpoint.IsValid() || peer.via != null;
      var waiting := peer.handshake.Some? && peer.lastHandshake.Some? &&
        now - peer.lastHandshake.value < HANDSHAKE_RETRY;
      var busy := peer.session.Some? || waiting || peer.handshakes >= HandshakeBudget(peer.via);
      if busy || !reachable {
        return;
      }
      Draw(ephemeral);
      if |device| > 255 {
        SpendAttempt(peer, None, now);
        return;
      }
      var handshake := WriteInit(key, peer.transportKey, ephemeral);
      SpendAttempt(peer, Some(handshake), now);
      SendPacket(peer, T.MSG_HANDSHAKE_INIT, InitBody(device, handshake.init));
    }

    /** The lowest peer on an open direct link that has not been asked to carry this one. */
    method NextRelay(peer: Peer) returns (relay: Peer?)
      requires Valid() && peer in objects
      ensures relay == null <==> Candidates(View(), peer) == {}
      ensures relay != null ==> relay in objects && relay == peers[Lowest(Candidates(View(), peer))]
      ensures relay != null ==> relay.deviceID !in peer.relaysTried
    {
      hide Node.Inv, Link.Consistent, Candidates, BestOf;
      ghost var before := View();
      relay := null;
      var all := Peers();
      NoneSeen(before, peer);
      assert all[..0] == [];
      for i := 0 to |all|
        invariant BestOf(before, peer, all[..i], relay)
      {
        var candidate := all[i];
        NextCandidate(before, peer, all[..i], candidate, relay);
        assert all[..i + 1] == all[..i] + [candidate];
        if candidate == peer || candidate.state != Direct || candidate.deviceID in peer.relaysTried {
          continue;
        }
        if relay == null || Less(candidate.deviceID, relay.deviceID) {
          relay := candidate;
        }
      }
      assert all[..|all|] == all;
      BestIsLowest(before, peer, all, relay);
      assert Links() == before.links;
      assert View() == before;
    }

    method TryRelay(peer: Peer, now: Time, ephemeral: nat) returns (asked: bool)
      requires Valid() && peer in objects
      modifies Footprint()
      ensures Valid() && objects == old(objects)
      ensures (View(), asked) == Handlers.TryRelay(old(View()), peer, Here(now, 0, ephemeral))
    {
      hide Node.Inv, Node.Steady, Link.Consistent, Handlers.BeginHandshake, Candidates;
      KnownLink(this, peer);
      var relay := NextRelay(peer);
      if relay == null {
        return false;
      }
      peer.RelayThrough(relay);
      log := log + [L.Deed(peer, L.RelayThrough(relay))];
      OneLinkDone(this, peer, L.RelayThrough(relay));
      BeginHandshake(peer, now, ephemeral);
      return true;
    }

    /** Points a link at an address, and rebuilds the tables if that moved it. */
    method Follow(peer: Peer, addr: AddrPort)
      requires Valid() && peer in objects
      modifies Footprint()
      ensures Valid() && objects == old(objects)
      ensures View() == Handlers.Follow(old(View()), peer, addr, Here(0, 0, 0))
    {
      hide Node.Inv, Node.Grows, Link.Consistent, Handlers.Reindex;
      KnownLink(this, peer);
      var moved := peer.SetEndpoint(addr);
      if !moved {
        OneLinkSame(this, peer);
        return;
      }
      log := log + [L.Deed(peer, L.SetEndpoint(addr))];
      OneLinkMoved(this, peer, addr);
      Reindex();
    }

    method OpenLink(peer: Peer, session: Session, now: Time, token: uint64)
      requires Valid() && peer in objects
      modifies Footprint()
      ensures Valid() && objects == old(objects)
      ensures View() == Handlers.OpenLink(old(View()), peer, session, Here(now, token, 0))
    {
      hide Node.Inv, Node.Steady, Link.Consistent, Handlers.SendKeepalive;
      KnownLink(this, peer);
      peer.Open(session, now);
      log := log + [L.Deed(peer, L.Open(session, now))];
      OneLinkDone(this, peer, L.Open(session, now));
      SendKeepalive(peer, now, token);
    }

    method AnswerVia(peer: Peer, relay: Peer)
      requires Valid() && peer in objects && relay in objects
      modifies Footprint()
      ensures Valid() && objects == old(objects)
      ensures View() == Handlers.AnswerVia(old(View()), peer, relay)
    {
      hide Node.Inv, Node.Steady, Link.Consistent;
      KnownLink(this, peer);
      peer.AnswerVia(relay);
      log := log + [L.Deed(peer, L.AnswerVia(relay))];
      OneLinkDone(this, peer, L.AnswerVia(relay));
    }

    /** Notes, for the record of the run, that a session is opened with a peer. */
    ghost method Record(peer: Peer, session: Session)
      requires Valid() && peer in objects
      modifies `openings
      ensures Valid() && objects == old(objects) && View() == Handlers.Record(old(View()), peer, session)
    {
      hide Node.Inv, Node.Grows;
      openings := openings + {Opening(peer.deviceID, session)};
      assert View() == Handlers.Record(old(View()), peer, session);
    }

    method HandleInit(packet: Packet, src: Source, now: Time, token: uint64, ephemeral: nat)
      requires Valid() && KnownSource(View(), src)
      modifies Footprint()
      ensures Valid() && objects == old(objects)
      ensures View() == Handlers.HandleInit(old(View()), packet, src, Here(now, token, ephemeral))
    {
      hide Node.Inv, Node.Grows, Link.Consistent;
      hide Handlers.AnswerVia, Handlers.Record, Handlers.SendPacket, Handlers.OpenLink, Handlers.Follow;
      if !packet.body.InitBody? || packet.body.device !in peers {
        return;
      }
      KnownPeer(this, packet.body.device);
      var peer := peers[packet.body.device];
      var author := ReadInit(key, packet.body.init);
      if author != Some(peer.transportKey) {
        return;
      }
      var (reply, session) := WriteResponse(packet.body.init, ephemeral);
      Draw(ephemeral);
      ghost var drew := View();
      if src.relay != null {
        AnswerVia(peer, src.relay);
      } else {
        Follow(peer, src.addr);
        FollowUses(drew, peer, src.addr, Here(0, 0, 0), Here(now, token, ephemeral));
      }
      Record(peer, session);
      SendPacket(peer, T.MSG_HANDSHAKE_RESPONSE, ResponseBody(reply));
      ghost var answered := View();
      OpenLink(peer, session, now, token);
      OpenLinkUses(answered, peer, session, Here(now, token, 0), Here(now, token, ephemeral));
    }

    method HandleResponse(packet: Packet, src: Source, now: Time, token: uint64)
      requires Valid() && KnownSource(View(), src)
      modifies Footprint()
      ensures Valid() && objects == old(objects)
      ensures View() == Handlers.HandleResponse(old(View()), packet, src, Here(now, token, 0))
    {
      hide Node.Inv, Node.Steady, Node.Grows, Link.Consistent;
      hide Handlers.AnswerVia, Handlers.Record, Handlers.OpenLink;
      if !packet.body.ResponseBody? || src.peer == null {
        return;
      }
      var peer := src.peer;
      if peer.handshake.None? {
        return;
      }
      var session := ReadResponse(peer.handshake.value, packet.body.response);
      if session.None? {
        return;
      }
      if src.relay != null {
        AnswerVia(peer, src.relay);
      }
      Record(peer, session.value);
      OpenLink(peer, session.value, now, token);
    }

    // ----- what arrives -----

    /** Takes the echo of a token this side sent. */
    method CloseToken(peer: Peer, token: uint64, now: Time)
      requires Valid() && peer in objects
      modifies Footprint()
      ensures Valid() && objects == old(objects) && Tables(byIP, byUDP) == old(Tables(byIP, byUDP))
      ensures View() == old(View()).Do(peer, L.Measure(token, now))
    {
      hide Node.Inv, Node.Steady, Link.Consistent;
      KnownLink(this, peer);
      var _ := peer.Measure(token, now);
      log := log + [L.Deed(peer, L.Measure(token, now))];
      OneLinkDone(this, peer, L.Measure(token, now));
    }

    method HandleKeepalive(packet: Packet, src: Source, now: Time)
      requires Valid() && KnownSource(View(), src)
      modifies Footprint()
      ensures Valid() && objects == old(objects)
      ensures View() == Handlers.HandleKeepalive(old(View()), packet, src, Here(now, 0, 0))
    {
      hide Node.Inv, Node.Steady, Link.Consistent, Handlers.ReplyTo;
      if !packet.body.PingBody? || src.peer == null {
        return;
      }
      var peer := src.peer;
      if !packet.body.reply {
        KnownLink(this, peer);
        peer.Heard(now);
        log := log + [L.Deed(peer, L.Heard(now))];
        OneLinkDone(this, peer, L.Heard(now));
        ReplyTo(src, T.MSG_KEEPALIVE, peer.sender, PingBody(packet.body.token, true));
        return;
      }
      CloseToken(peer, packet.body.token, now);
    }

    /** Decrypts a packet with a peer's session and judges its counter. */
    method Accept(peer: Peer, packet: Packet, now: Time) returns (plain: Result<Plain, AcceptError>)
      requires Valid() && peer in objects
      modifies Footprint()
      ensures Valid() && objects == old(objects)
      ensures (View(), plain) == Handlers.Accept(old(View()), peer, packet, Here(now, 0, 0))
    {
      hide Node.Inv, Node.Steady, Link.Consistent;
      KnownLink(this, peer);
      plain := peer.Accept(packet.header, packet.body, now);
      if plain.Failure? {
        OneLinkSame(this, peer);
        return;
      }
      log := log + [L.Deed(peer, L.Accept(packet.body.text, now))];
      OneLinkDone(this, peer, L.Accept(packet.body.text, now));
    }

    /** The queue to the adapter drops what it has no room for. */
    method Enqueue(plain: Plain, ghost place: nat)
      requires Valid()
      modifies `inbound, `queued
      ensures Valid() && objects == old(objects) && View() == Handlers.Enqueue(old(View()), plain, place)
    {
      hide Node.Inv, Node.Grows;
      if |inbound| < INBOUND_CAPACITY {
        inbound := inbound + [plain];
        queued := queued + [place];
      }
      assert View() == Handlers.Enqueue(old(View()), plain, place);
    }

    /** The adapter takes the packet that has waited longest, if one waits. */
    method Dequeue() returns (plain: Option<Plain>)
      requires Valid()
      modifies `inbound
      ensures Valid() && objects == old(objects) && View() == Handlers.Dequeue(old(View()))
      ensures plain == if old(inbound) == [] then None else Some(old(inbound)[0])
    {
      hide Node.Inv, Node.Grows;
      if inbound == [] {
        return None;
      }
      plain := Some(inbound[0]);
      inbound := inbound[1..];
      assert View() == Handlers.Dequeue(old(View()));
    }

    method HandleData(packet: Packet, src: Source, now: Time)
      requires Valid() && KnownSource(View(), src)
      modifies Footprint()
      ensures Valid() && objects == old(objects)
      ensures View() == Handlers.HandleData(old(View()), packet, src, Here(now, 0, 0))
    {
      hide Node.Inv, Node.Grows, Link.Consistent;
      hide Handlers.Accept, Handlers.AnswerVia, Handlers.Enqueue;
      if src.peer == null {
        return;
      }
      ghost var place := |log|;
      var plain := Accept(src.peer, packet, now);
      ghost var accepted := Here(now, 0, 0);
      if plain.Failure? {
        return;
      }
      if src.relay != null {
        AnswerVia(src.peer, src.relay);
      }
      Enqueue(plain.value, place);
      AcceptUses(old(View()), src.peer, packet, accepted, Here(now, 0, 0));
    }

    method HandleClose(src: Source)
      requires Valid() && KnownSource(View(), src)
      modifies Footprint()
      ensures Valid() && objects == old(objects)
      ensures View() == Handlers.HandleClose(old(View()), src)
    {
      hide Node.Inv, Node.Steady, Link.Consistent;
      if src.peer == null {
        return;
      }
      GiveUp(src.peer);
    }

    method Dispatch(packet: Packet, src: Source, now: Time, token: uint64, ephemeral: nat)
      requires Valid() && KnownSource(View(), src)
      modifies Footprint()
      ensures Valid() && objects == old(objects)
      ensures View() == Handlers.Dispatch(old(View()), packet, src, Here(now, token, ephemeral))
    {
      hide Node.Inv, Node.Steady, Node.Grows, Link.Consistent;
      var kind := packet.header.kind;
      if kind == T.MSG_HANDSHAKE_INIT {
        HandleInit(packet, src, now, token, ephemeral);
      } else if kind == T.MSG_HANDSHAKE_RESPONSE {
        HandleResponse(packet, src, now, token);
      } else if kind == T.MSG_KEEPALIVE {
        HandleKeepalive(packet, src, now);
      } else if kind == T.MSG_DATA {
        HandleData(packet, src, now);
      } else if kind == T.MSG_CLOSE {
        HandleClose(src);
      }
    }

    method PeerAt(from: AddrPort) returns (peer: Peer?)
      requires Valid()
      ensures peer == Handlers.PeerAt(View(), from) && (peer != null ==> peer in objects)
    {
      peer := if from in byUDP then byUDP[from] else null;
    }

    method HandleProbe(packet: Packet, from: AddrPort, now: Time, ephemeral: nat)
      requires Valid()
      modifies Footprint()
      ensures Valid() && objects == old(objects)
      ensures View() == Handlers.HandleProbe(old(View()), packet, from, Here(now, 0, ephemeral))
    {
      hide Node.Inv, Node.Steady, Link.Consistent, Handlers.BeginHandshake, Handlers.PeerAt;
      if !packet.body.PingBody? {
        return;
      }
      var peer := PeerAt(from);
      if packet.body.reply {
        if peer != null {
          CloseToken(peer, packet.body.token, now);
          BeginHandshake(peer, now, ephemeral);
        }
        return;
      }
      SendTo(from, Envelope(T.MSG_PROBE, 0, 0, PingBody(packet.body.token, true)));
      if peer != null {
        BeginHandshake(peer, now, ephemeral);
      }
    }

    method DeliverForwarded(carried: Carried, relay: Peer, now: Time, token: uint64, ephemeral: nat)
      requires Valid() && relay in objects
      modifies Footprint()
      ensures Valid() && objects == old(objects)
      ensures View() == Handlers.DeliverForwarded(old(View()), carried, relay, Here(now, token, ephemeral))
    {
      hide Node.Steady, Node.Grows, Link.Consistent, Handlers.Dispatch;
      if carried.source !in byIP || byIP[carried.source] == relay {
        return;
      }
      if carried.packet.header.version != T.VERSION {
        return;
      }
      Dispatch(carried.packet, Source(NO_ENDPOINT, byIP[carried.source], relay), now, token, ephemeral);
    }

    method PassOn(carried: Carried, origin: Peer)
      requires Valid() && origin in objects
      modifies Footprint()
      ensures Valid() && objects == old(objects)
      ensures View() == Handlers.PassOn(old(View()), carried, origin)
    {
      hide Node.Inv, Node.Steady, Link.Consistent, Handlers.Forward;
      if carried.hopLimit == 0 || carried.destination !in byIP {
        return;
      }
      KnownAddress(this, carried.destination);
      var target := byIP[carried.destination];
      if target == origin || target.state != Direct {
        return;
      }
      var _ := Forward(target, carried.(hopLimit := carried.hopLimit - 1));
    }

    method HandleForward(packet: Packet, from: AddrPort, now: Time, token: uint64, ephemeral: nat)
      requires Valid()
      modifies Footprint()
      ensures Valid() && objects == old(objects)
      ensures View() == Handlers.HandleForward(old(View()), packet, from, Here(now, token, ephemeral))
    {
      hide Node.Inv, Node.Steady, Node.Grows, Link.Consistent, Handlers.PeerAt;
      hide Handlers.Accept, Handlers.DeliverForwarded, Handlers.PassOn;
      var relay := PeerAt(from);
      if relay == null {
        return;
      }
      var plain := Accept(relay, packet, now);
      ghost var accepted := Here(now, 0, 0);
      if plain.Failure? || !plain.value.Forwarded? {
        AcceptUses(old(View()), relay, packet, accepted, Here(now, token, ephemeral));
        return;
      }
      var carried := plain.value.carried;
      if carried.destination == virtualIP {
        DeliverForwarded(carried, relay, now, token, ephemeral);
      } else {
        PassOn(carried, relay);
      }
      AcceptUses(old(View()), relay, packet, accepted, Here(now, token, ephemeral));
    }

    /** Notes, for the record of the run, the handshake messages that arrive. */
    ghost method Hear(packet: Packet)
      requires Valid()
      modifies `heard
      ensures Valid() && objects == old(objects)
      ensures View() == Handlers.Hear(old(View()), packet)
    {
      hide Node.Inv, Node.Grows;
      heard := heard + Atoms(packet);
      assert View() == Handlers.Hear(old(View()), packet);
    }

    /** One datagram from the socket. */
    method Receive(packet: Packet, from: AddrPort, now: Time, token: uint64, ephemeral: nat)
      requires Valid()
      modifies Footprint()
      ensures Valid() && objects == old(objects)
      ensures View() == Handlers.Receive(old(View()), packet, from, Here(now, token, ephemeral))
    {
      hide Node.Inv, Node.Steady, Node.Grows, Link.Consistent, Handlers.PeerAt;
      hide Handlers.HandleProbe, Handlers.HandleForward, Handlers.Dispatch;
      Hear(packet);
      ghost var arrived := View();
      if packet.header.version != T.VERSION {
        return;
      }
      if packet.header.kind == T.MSG_PROBE {
        HandleProbe(packet, from, now, ephemeral);
        ProbeUses(arrived, packet, from, Here(now, 0, ephemeral), Here(now, token, ephemeral));
      } else if packet.header.kind == T.MSG_FORWARD {
        HandleForward(packet, from, now, token, ephemeral);
      } else {
        var peer := PeerAt(from);
        Dispatch(packet, Source(from, peer, null), now, token, ephemeral);
      }
    }

    // ----- maintenance and the server's events -----

    method TickPeer(peer: Peer, keepalives: bool, now: Time, token: uint64, ephemeral: nat)
      requires Valid() && peer in objects
      modifies Footprint()
      ensures Valid() && objects == old(objects)
      ensures View() == Handlers.TickPeer(old(View()), peer, keepalives, Here(now, token, ephemeral))
    {
      hide Node.Inv, Node.Steady, Link.Consistent;
      hide Handlers.Punch, Handlers.SendKeepalive, Handlers.BeginHandshake, Handlers.TryRelay;
      KnownLink(this, peer);
      var quiet := peer.session.Some? && peer.lastHeard.Some? && now - peer.lastHeard.value > DEAD_AFTER;
      var attempts, budget, relayed := peer.handshakes, HandshakeBudget(peer.via), peer.via != null;
      if quiet {
        peer.Restart();
        log := log + [L.Deed(peer, L.Restart)];
        OneLinkDone(this, peer, L.Restart);
        ghost var before := View();
        Punch(peer, now, token);
        PunchUses(before, peer, Here(now, token, 0), Here(now, token, ephemeral));
      } else if peer.session.Some? {
        if keepalives {
          SendKeepalive(peer, now, token);
          KeepaliveUses(old(View()), peer, Here(now, token, 0), Here(now, token, ephemeral));
        }
      } else if peer.state == Failed {
        var _ := TryRelay(peer, now, ephemeral);
        TryRelayUses(old(View()), peer, Here(now, 0, ephemeral), Here(now, token, ephemeral));
      } else if attempts >= budget {
        GiveUpOrRelay(peer, now, token, ephemeral);
      } else if relayed {
        BeginHandshake(peer, now, ephemeral);
        BeginUses(old(View()), peer, Here(now, 0, ephemeral), Here(now, token, ephemeral));
      } else {
        PunchAndBegin(peer, now, token, ephemeral);
      }
    }

    /** A link whose attempts are spent is given to a relay, and failed when there is none. */
    method GiveUpOrRelay(peer: Peer, now: Time, token: uint64, ephemeral: nat)
      requires Valid() && peer in objects
      modifies Footprint()
      ensures Valid() && objects == old(objects)
      ensures
        var (relayed, asked) := Handlers.TryRelay(old(View()), peer, Here(now, token, ephemeral));
        View() == if asked then relayed else old(View()).Do(peer, L.Fail)
    {
      hide Node.Inv, Node.Steady, Link.Consistent, Handlers.BeginHandshake, Candidates;
      KnownLink(this, peer);
      var asked := TryRelay(peer, now, ephemeral);
      TryRelayUses(old(View()), peer, Here(now, 0, ephemeral), Here(now, token, ephemeral));
      if !asked {
        GiveUp(peer);
      }
    }

    method GiveUp(peer: Peer)
      requires Valid() && peer in objects
      modifies Footprint()
      ensures Valid() && objects == old(objects) && Tables(byIP, byUDP) == old(Tables(byIP, byUDP))
      ensures View() == old(View()).Do(peer, L.Fail)
    {
      hide Node.Inv, Node.Steady, Link.Consistent;
      KnownLink(this, peer);
      var _ := peer.Fail();
      log := log + [L.Deed(peer, L.Fail)];
      OneLinkDone(this, peer, L.Fail);
    }

    method PunchAndBegin(peer: Peer, now: Time, token: uint64, ephemeral: nat)
      requires Valid() && peer in objects
      modifies Footprint()
      ensures Valid() && objects == old(objects)
      ensures View() == Handlers.BeginHandshake(Handlers.Punch(old(View()), peer, Here(now, token, ephemeral)),
                                                peer, Here(now, token, ephemeral))
    {
      hide Node.Inv, Link.Consistent, Handlers.BeginHandshake, Handlers.Punch;
      Punch(peer, now, token);
      ghost var punched := View();
      PunchUses(old(View()), peer, Here(now, token, 0), Here(now, token, ephemeral));
      BeginHandshake(peer, now, ephemeral);
      BeginUses(punched, peer, Here(now, 0, ephemeral), Here(now, token, ephemeral));
      PunchUses(old(View()), peer, Here(now, token, 0), Here(now, token, ephemeral));
    }

    method RestartLink(peer: Peer, now: Time, token: uint64)
      requires Valid() && peer in objects
      modifies Footprint()
      ensures Valid() && objects == old(objects)
      ensures View() == Handlers.RestartLink(old(View()), peer, Here(now, token, 0))
    {
      hide Node.Inv, Node.Steady, Link.Consistent, Handlers.Punch;
      KnownLink(this, peer);
      peer.Restart();
      log := log + [L.Deed(peer, L.Restart)];
      OneLinkDone(this, peer, L.Restart);
      Punch(peer, now, token);
    }

    method RetryPeer(id: DeviceId, now: Time, token: uint64, ephemeral: nat) returns (known: bool)
      requires Valid()
      modifies Footprint()
      ensures Valid() && objects == old(objects) && (known <==> id in old(peers))
      ensures View() == Handlers.RetryPeer(old(View()), id, Here(now, token, ephemeral))
    {
      hide Node.Inv, Link.Consistent, Handlers.BeginHandshake, Handlers.RestartLink;
      if id !in peers {
        return false;
      }
      KnownPeer(this, id);
      var peer := peers[id];
      RestartLink(peer, now, token);
      ghost var restarted := View();
      RestartUses(old(View()), peer, Here(now, token, 0), Here(now, token, ephemeral));
      BeginHandshake(peer, now, ephemeral);
      BeginUses(restarted, peer, Here(now, 0, ephemeral), Here(now, token, ephemeral));
      RestartUses(old(View()), peer, Here(now, token, 0), Here(now, token, ephemeral));
      return true;
    }

    method SetPeerEndpoint(id: DeviceId, endpoint: AddrPort, now: Time, token: uint64)
      requires Valid()
      modifies Footprint()
      ensures Valid() && objects == old(objects)
      ensures View() == Handlers.SetPeerEndpoint(old(View()), id, endpoint, Here(now, token, 0))
    {
      hide Node.Inv, Link.Consistent, Handlers.Follow, Handlers.Punch;
      if id !in peers || !endpoint.IsValid() {
        return;
      }
      KnownPeer(this, id);
      var peer := peers[id];
      if peer.endpoint == endpoint {
        return;
      }
      Follow(peer, endpoint);
      ghost var followed := View();
      FollowUses(old(View()), peer, endpoint, Here(0, 0, 0), Here(now, token, 0));
      Punch(peer, now, token);
    }

    method Enrol(peer: Peer, endpoint: AddrPort)
      requires Valid() && peer !in objects && peer.replay !in Windows(objects)
      requires peer.deviceID !in peers && peer.View() == NewLink(endpoint)
      modifies `peers, `objects, `log
      ensures Valid() && objects == old(objects) + {peer} && View() == Nodes.Enrol(old(View()), peer, endpoint)
    {
      hide Node.Inv, Node.Grows, Link.Consistent;
      peers := peers[peer.deviceID := peer];
      objects := objects + {peer};
      log := log + [L.Deed(peer, L.SetEndpoint(endpoint))];
      assert Links() == old(Links())[peer := peer.View()];
      assert View() == Nodes.Enrol(old(View()), peer, endpoint);
    }

    /** Starts trying to reach a device. A key that is not a key, or no random number to send under, is refused;
        the peer that was made is returned even when a known one is kept in its place. */
    method AddPeer(deviceID: DeviceId, virtualIP: Addr, transportKey: Option<Key>, endpoint: AddrPort,
                   sender: Option<uint64>, now: Time, token: uint64) returns (r: Result<Peer, AddError>)
      requires Valid()
      modifies Footprint()
      ensures Valid()
      ensures transportKey.None? ==> r == Failure(ErrKeySize)
      ensures transportKey.Some? && sender.None? ==> r == Failure(ErrNoRandomness)
      ensures r.Failure? <==> transportKey.None? || sender.None?
      ensures r.Failure? ==> View() == old(View()) && Footprint() == old(Footprint())
      ensures r.Success? ==>
                && fresh(r.value) && fresh(r.value.replay) &&
                   Footprint() <= old(Footprint()) + {r.value, r.value.replay}
                && r.value.deviceID == deviceID && r.value.virtualIP == virtualIP
                && Some(r.value.transportKey) == transportKey && Some(r.value.sender) == sender
                && View() == Handlers.AddPeer(old(View()), r.value, endpoint, Here(now, token, 0))
    {
      if transportKey.None? {
        return Failure(ErrKeySize);
      }
      if sender.None? {
        return Failure(ErrNoRandomness);
      }
      var peer := TakePeer(deviceID, virtualIP, transportKey.value, endpoint, sender.value, now, token);
      return Success(peer);
    }

    method TakePeer(deviceID: DeviceId, virtualIP: Addr, transportKey: Key, endpoint: AddrPort, sender: uint64,
                   now: Time, token: uint64) returns (peer: Peer)
      requires Valid()
      modifies Footprint()
      ensures Valid() && fresh(peer) && fresh(peer.replay) && Footprint() <= old(Footprint()) + {peer, peer.replay}
      ensures peer.deviceID == deviceID && peer.virtualIP == virtualIP
      ensures peer.transportKey == transportKey && peer.sender == sender
      ensures View() == Handlers.AddPeer(old(View()), peer, endpoint, Here(now, token, 0))
    {
      hide Node.Inv, Link.Consistent, Handlers.Follow, Handlers.Punch, Handlers.Reindex;
      hide Handlers.AddPeer, Node.Grows;
      ghost var before := View();
      peer := new Peer(deviceID, virtualIP, transportKey, endpoint, sender);
      assert Links() == before.links && View() == before;
      if deviceID in peers {
        KnownPeer(this, deviceID);
        Reconsider(peers[deviceID], endpoint, now, token);
        AddPeerKnown(before, peer, endpoint, Here(now, token, 0));
      } else {
        Introduce(peer, endpoint, now, token);
        AddPeerNew(before, peer, endpoint, Here(now, token, 0));
      }
    }

    /** A known peer is pointed at an address the server gives, unless it is open directly. */
    method Reconsider(existing: Peer, endpoint: AddrPort, now: Time, token: uint64)
      requires Valid() && existing in objects
      modifies Footprint()
      ensures Valid() && Footprint() == old(Footprint())
      ensures View() ==
              if old(existing.state) == Direct || !endpoint.IsValid() then old(View())
              else Handlers.Follow(old(View()), existing, endpoint, Here(now, token, 0))
    {
      hide Node.Inv, Link.Consistent, Handlers.Follow;
      if existing.state == Direct || !endpoint.IsValid() {
        return;
      }
      Follow(existing, endpoint);
      FollowUses(old(View()), existing, endpoint, Here(0, 0, 0), Here(now, token, 0));
    }

    /** A new peer takes its place in the tables, and the first probe goes out. */
    method Introduce(peer: Peer, endpoint: AddrPort, now: Time, token: uint64)
      requires Valid() && peer !in objects && peer.replay !in Windows(objects)
      requires peer.deviceID !in peers && peer.View() == NewLink(endpoint)
      modifies Footprint(), peer, peer.replay
      ensures Valid() && Footprint() == old(Footprint()) + {peer, peer.replay}
      ensures View() == Handlers.Punch(Handlers.Reindex(Nodes.Enrol(old(View()), peer, endpoint), Tables(byIP, byUDP)),
                                       peer, Here(now, token, 0))
    {
      hide Node.Inv, Link.Consistent, Handlers.Punch, Handlers.Reindex;
      Enrol(peer, endpoint);
      WindowsGrow(old(objects), peer);
      Reindex();
      Punch(peer, now, token);
    }

    method RemovePeer(id: DeviceId)
      requires Valid()
      modifies `peers, `byIP, `byUDP
      ensures Valid() && objects == old(objects)
      ensures View() == Handlers.RemovePeer(old(View()), id, Here(0, 0, 0))
    {
      hide Node.Inv, Link.Consistent, Handlers.Reindex;
      RemovedInv(View(), id);
      peers := peers - {id};
      assert Links() == old(Links());
      assert View() == old(View()).(peers := old(peers) - {id});
      Reindex();
    }

    // ----- over every peer -----

    /** One copy of a packet to each peer, in the map's order. */
    method Broadcast(ip: seq<byte>) returns (sent: nat, ghost order: seq<Peer>)
      requires Valid()
      modifies Footprint()
      ensures Valid() && objects == old(objects) && IsOrder(order, old(peers)) && AllIn(order, old(View()).links.Keys)
      ensures (View(), sent) == Handlers.Broadcast(old(View()), order, ip)
    {
      hide Node.Inv, Link.Consistent, Node.Steady, Handlers.SendData, Handlers.Broadcast, AllIn;
      var all := Peers();
      order, sent := all, 0;
      ghost var goal := Handlers.Broadcast(View(), all, ip);
      assert all[0..] == all;
      for i := 0 to |all|
        invariant Valid() && objects == old(objects) && AllIn(all[i..], View().links.Keys)
        invariant goal.0 == Handlers.Broadcast(View(), all[i..], ip).0
        invariant goal.1 == sent + Handlers.Broadcast(View(), all[i..], ip).1
      {
        BroadcastStep(View(), all, i, ip);
        var err := SendData(all[i], ip);
        if err.None? {
          sent := sent + 1;
        }
      }
      BroadcastEnd(View(), all[|all|..], ip);
    }

    /** Starts every link over, for when this machine's own address changed. */
    method RestartLinks(now: Time, tokens: nat -> uint64) returns (ghost order: seq<Peer>, ghost envs: seq<Env>)
      requires Valid()
      modifies Footprint()
      ensures Valid() && objects == old(objects) && IsOrder(order, old(peers)) && AllIn(order, old(View()).links.Keys)
      ensures |envs| == |order| && forall i | 0 <= i < |envs| :: envs[i] == Here(now, tokens(i), 0)
      ensures View() == Handlers.RestartLinks(old(View()), order, envs)
    {
      hide Node.Inv, Link.Consistent, Handlers.RestartLink, Handlers.RestartLinks, AllIn;
      var all := Peers();
      ghost var tables := Tables(byIP, byUDP);
      order, envs := all, seq(|all|, (i: nat) => Env(now, tokens(i), 0, tables));
      ghost var goal := Handlers.RestartLinks(View(), all, envs);
      assert all[0..] == all && envs[0..] == envs;
      for i := 0 to |all|
        invariant Valid() && objects == old(objects) && AllIn(all[i..], View().links.Keys) &&
                  Tables(byIP, byUDP) == tables
        invariant goal == Handlers.RestartLinks(View(), all[i..], envs[i..])
      {
        NextInOrder(View(), all, i);
        RestartStep(View(), Handlers.RestartLink(View(), all[i], envs[i]), all, envs, i);
        RestartLink(all[i], now, tokens(i));
      }
      RestartEnd(View(), all[|all|..], envs[|all|..]);
    }

    /** One tick of the maintenance loop. Keepalives go out when the last round is long enough ago. */
    method Maintain(now: Time, lastKeepalive: Time, tokens: nat -> uint64, ephemerals: nat -> nat)
      returns (last: Time, ghost order: seq<Peer>, ghost envs: seq<Env>)
      requires Valid()
      modifies Footprint()
      ensures Valid() && objects == old(objects) && IsOrder(order, old(peers)) && AllIn(order, old(View()).links.Keys)
      ensures |envs| == |order| && forall i | 0 <= i < |envs| :: envs[i] == Here(now, tokens(i), ephemerals(i))
      ensures last == if now - lastKeepalive >= 15_000_000_000 then now else lastKeepalive
      ensures View() == Handlers.Tick(old(View()), order, now - lastKeepalive >= 15_000_000_000, envs)
    {
      hide Node.Inv, Link.Consistent, Handlers.TickPeer, Handlers.Tick, AllIn;
      var keepalives := now - lastKeepalive >= KEEPALIVE_INTERVAL;
      last := lastKeepalive;
      if keepalives {
        last := now;
      }
      var all := Peers();
      ghost var tables := Tables(byIP, byUDP);
      order, envs := all, seq(|all|, (i: nat) => Env(now, tokens(i), ephemerals(i), tables));
      ghost var goal := Handlers.Tick(View(), all, keepalives, envs);
      assert all[0..] == all && envs[0..] == envs;
      for i := 0 to |all|
        invariant Valid() && objects == old(objects) && AllIn(all[i..], View().links.Keys) &&
                  Tables(byIP, byUDP) == tables
        invariant goal == Handlers.Tick(View(), all[i..], keepalives, envs[i..])
      {
        NextInOrder(View(), all, i);
        TickStep(View(), Handlers.TickPeer(View(), all[i], keepalives, envs[i]), all, keepalives, envs, i);
        TickPeer(all[i], keepalives, now, tokens(i), ephemerals(i));
      }
      TickEnd(View(), all[|all|..], keepalives, envs[|all|..]);
    }
  }

  /** The lowest candidate among the peers looked at so far, or none. */
  ghost predicate BestOf(s: Node, peer: Peer, seen: seq<Peer>, best: Peer?)
    requires s.Inv() && peer in s.links
  {
    var c := Candidates(s, peer);
    if best == null then forall p | p in seen :: p.deviceID !in c
    else
      && best in s.peers.Values && best.deviceID in c
      && forall p | p in seen && p.deviceID in c && p != best :: Less(best.deviceID, p.deviceID)
  }

  lemma NoneSeen(s: Node, peer: Peer)
    requires s.Inv() && peer in s.links
    ensures BestOf(s, peer, [], null)
  {}

  lemma IsCandidate(s: Node, peer: Peer, p: Peer)
    requires s.Inv() && peer in s.links && p in s.peers.Values
    ensures p in s.links && p.deviceID in s.peers && s.peers[p.deviceID] == p
    ensures p.deviceID in Candidates(s, peer) <==>
            p != peer && s.links[p].state == Direct && p.deviceID !in s.links[peer].relaysTried
  {}

  lemma NextCandidate(s: Node, peer: Peer, seen: seq<Peer>, p: Peer, best: Peer?)
    requires s.Inv() && peer in s.links && p in s.peers.Values && BestOf(s, peer, seen, best) && p !in seen
    requires forall q | q in seen :: q in s.peers.Values
    ensures p in s.links
    ensures
      var fits := p != peer && s.links[p].state == Direct && p.deviceID !in s.links[peer].relaysTried;
      BestOf(s, peer, seen + [p], if fits && (best == null || Less(p.deviceID, best.deviceID)) then p else best)
  {
    hide Candidates, Node.Inv;
    IsCandidate(s, peer, p);
    if best != null && p.deviceID in Candidates(s, peer) {
      IsCandidate(s, peer, best);
      LessTotal(p.deviceID, best.deviceID);
      if Less(p.deviceID, best.deviceID) {
        forall q | q in seen && q.deviceID in Candidates(s, peer) && q != best ensures Less(p.deviceID, q.deviceID) {
          LessTransitive(p.deviceID, best.deviceID, q.deviceID);
        }
      }
    }
  }

  lemma BestIsLowest(s: Node, peer: Peer, all: seq<Peer>, best: Peer?)
    requires s.Inv() && peer in s.links && BestOf(s, peer, all, best)
    requires forall p :: p in all <==> p in s.peers.Values
    ensures best == null <==> Candidates(s, peer) == {}
    ensures best != null ==> best in s.links && best == s.peers[Lowest(Candidates(s, peer))]
    ensures best != null ==> best.deviceID !in s.links[peer].relaysTried
  {
    var c := Candidates(s, peer);
    forall d | d in c ensures s.peers[d] in all && s.peers[d].deviceID == d {
      assert s.peers[d] in s.peers.Values;
    }
    if best != null {
      assert IsLowest(best.deviceID, c);
      LowestUnique(best.deviceID, Lowest(c), c);
    }
  }

  /** Tables hold exactly the addresses of the peers that are not in `rest`. */
  ghost predicate PartlyIndexes(t: Tables, s: Node, rest: set<DeviceId>)
    requires s.Inv()
  {
    && (forall ip | ip in t.byIP ::
          t.byIP[ip] in s.peers.Values && t.byIP[ip].virtualIP == ip && ip.IsValid())
    && (forall d | d in s.peers && d !in rest :: s.peers[d].virtualIP.IsValid() ==> s.peers[d].virtualIP in t.byIP)
    && (forall a | a in t.byUDP ::
          t.byUDP[a] in s.peers.Values && s.links[t.byUDP[a]].endpoint == a && a.IsValid())
    && (forall d | d in s.peers && d !in rest ::
          s.links[s.peers[d]].endpoint.IsValid() ==> s.links[s.peers[d]].endpoint in t.byUDP)
  }

  lemma NothingIndexed(s: Node)
    requires s.Inv()
    ensures PartlyIndexes(Tables(map[], map[]), s, s.peers.Keys)
  {}

  lemma OneMoreIndexed(t: Tables, s: Node, rest: set<DeviceId>, d: DeviceId)
    requires s.Inv() && PartlyIndexes(t, s, rest) && d in rest && d in s.peers
    ensures s.peers[d] in s.links
    ensures
      var p := s.peers[d];
      var end := s.links[p].endpoint;
      var byIP := if p.virtualIP.IsValid() then t.byIP[p.virtualIP := p] else t.byIP;
      var byUDP := if end.IsValid() then t.byUDP[end := p] else t.byUDP;
      PartlyIndexes(Tables(byIP, byUDP), s, rest - {d})
  {
    hide L.Reached, L.Of, Link.Consistent;
  }

  lemma AllIndexed(t: Tables, s: Node)
    requires s.Inv() && PartlyIndexes(t, s, {})
    ensures s.(byIP := t.byIP, byUDP := t.byUDP).Indexed()
    ensures s.(byIP := t.byIP, byUDP := t.byUDP) == Handlers.Reindex(s, t)
  {
    assert Indexes(t, s.peers, Ends(s.links));
    var r := Handlers.Reindex(s, t);
    assert r == s.(byIP := r.byIP, byUDP := r.byUDP);
  }

  twostate predicate SameObject(p: Peer)
    reads p, p.replay
  {
    p.View() == old(p.View())
  }

  lemma {:induction false} AllInSet(all: seq<Peer>, known: set<Peer>)
    requires forall p | p in all :: p in known
    ensures AllIn(all, known)
  {
    if all != [] { AllInSet(all[1..], known); }
  }

  lemma KnownLink(m: Mesh, p: Peer)
    requires m.Valid() && p in m.objects
    ensures p.View().Consistent() && (p.via != null ==> p.via in m.objects)
  {
    assert m.View().links[p] == p.View();
  }

  lemma RemovedInv(s: Node, id: DeviceId)
    requires s.Inv()
    ensures s.(peers := s.peers - {id}).Inv()
  {
    hide L.Reached, L.Of, Link.Consistent;
  }

  lemma BroadcastStep(s: Node, all: seq<Peer>, i: nat, ip: seq<byte>)
    requires s.Inv() && i < |all| && AllIn(all[i..], s.links.Keys)
    ensures all[i] in s.links && AllIn(all[i + 1..], s.links.Keys)
    ensures
      var (s1, err) := Handlers.SendData(s, all[i], ip);
      && s1.links.Keys == s.links.Keys
      && var rest := Handlers.Broadcast(s1, all[i + 1..], ip);
         Handlers.Broadcast(s, all[i..], ip) == (rest.0, if err.None? then rest.1 + 1 else rest.1)
  {
    hide Handlers.SendData, Node.Inv;
    assert all[i..][1..] == all[i + 1..] && all[i..][0] == all[i];
  }

  lemma BroadcastEnd(s: Node, all: seq<Peer>, ip: seq<byte>)
    requires s.Inv() && all == []
    ensures AllIn(all, s.links.Keys) && Handlers.Broadcast(s, all, ip) == (s, 0)
  {}

  lemma NextInOrder(s: Node, all: seq<Peer>, i: nat)
    requires i < |all| && AllIn(all[i..], s.links.Keys)
    ensures all[i] in s.links && AllIn(all[i + 1..], s.links.Keys)
  {
    assert all[i..][1..] == all[i + 1..] && all[i..][0] == all[i];
  }

  lemma RestartStep(s: Node, r: Node, all: seq<Peer>, envs: seq<Env>, i: nat)
    requires s.Inv() && i < |all| == |envs| && all[i] in s.links && r == Handlers.RestartLink(s, all[i], envs[i])
    requires AllIn(all[i..], s.links.Keys) && AllIn(all[i + 1..], r.links.Keys)
    ensures r.links.Keys == s.links.Keys && r.byIP == s.byIP && r.byUDP == s.byUDP
    ensures Handlers.RestartLinks(s, all[i..], envs[i..]) == Handlers.RestartLinks(r, all[i + 1..], envs[i + 1..])
  {
    hide Handlers.RestartLink, Node.Inv;
    assert all[i..][1..] == all[i + 1..] && all[i..][0] == all[i];
    assert envs[i..][1..] == envs[i + 1..] && envs[i..][0] == envs[i];
  }

  lemma RestartEnd(s: Node, all: seq<Peer>, envs: seq<Env>)
    requires s.Inv() && all == [] && envs == []
    ensures AllIn(all, s.links.Keys) && Handlers.RestartLinks(s, all, envs) == s
  {}

  lemma TickStep(s: Node, r: Node, all: seq<Peer>, keepalives: bool, envs: seq<Env>, i: nat)
    requires s.Inv() && i < |all| == |envs| && all[i] in s.links &&
             r == Handlers.TickPeer(s, all[i], keepalives, envs[i])
    requires AllIn(all[i..], s.links.Keys) && AllIn(all[i + 1..], r.links.Keys)
    ensures r.links.Keys == s.links.Keys && r.byIP == s.byIP && r.byUDP == s.byUDP
    ensures Handlers.Tick(s, all[i..], keepalives, envs[i..]) ==
            Handlers.Tick(r, all[i + 1..], keepalives, envs[i + 1..])
  {
    hide Handlers.TickPeer, Node.Inv;
    assert all[i..][1..] == all[i + 1..] && all[i..][0] == all[i];
    assert envs[i..][1..] == envs[i + 1..] && envs[i..][0] == envs[i];
  }

  lemma TickEnd(s: Node, all: seq<Peer>, keepalives: bool, envs: seq<Env>)
    requires s.Inv() && all == [] && envs == []
    ensures AllIn(all, s.links.Keys) && Handlers.Tick(s, all, keepalives, envs) == s
  {}

  // Which of a step's inputs each function looks at.

  lemma AcceptUses(s: Node, peer: Peer, packet: Packet, e: Env, f: Env)
    requires s.Inv() && peer in s.links && e.now == f.now
    ensures Handlers.Accept(s, peer, packet, e) == Handlers.Accept(s, peer, packet, f)
  {
    hide Node.Inv, Node.Steady, Node.Grows;
  }

  lemma OpenLinkUses(s: Node, peer: Peer, session: Session, e: Env, f: Env)
    requires s.Inv() && peer in s.links && e.now == f.now && e.token == f.token
    ensures Handlers.OpenLink(s, peer, session, e) == Handlers.OpenLink(s, peer, session, f)
  {
    hide Node.Inv, Node.Steady, Node.Grows, Handlers.SendPacket;
  }

  lemma FollowUses(s: Node, peer: Peer, addr: AddrPort, e: Env, f: Env)
    requires s.Inv() && peer in s.links && e.tables == f.tables
    ensures Handlers.Follow(s, peer, addr, e) == Handlers.Follow(s, peer, addr, f)
  {
    hide Node.Inv, Node.Steady, Node.Grows, Handlers.Reindex;
  }

  lemma ProbeUses(s: Node, packet: Packet, from: AddrPort, e: Env, f: Env)
    requires s.Inv() && e.now == f.now && e.ephemeral == f.ephemeral
    ensures Handlers.HandleProbe(s, packet, from, e) == Handlers.HandleProbe(s, packet, from, f)
  {
    hide Node.Inv, Node.Steady, Node.Grows, Handlers.SendPacket;
  }

  lemma PunchUses(s: Node, peer: Peer, e: Env, f: Env)
    requires s.Inv() && peer in s.links && e.now == f.now && e.token == f.token
    ensures Handlers.Punch(s, peer, e) == Handlers.Punch(s, peer, f)
  {
    hide Node.Inv, Node.Steady;
  }

  lemma RestartUses(s: Node, peer: Peer, e: Env, f: Env)
    requires s.Inv() && peer in s.links && e.now == f.now && e.token == f.token
    ensures Handlers.RestartLink(s, peer, e) == Handlers.RestartLink(s, peer, f)
  {
    hide Node.Inv, Node.Steady;
  }

  lemma KeepaliveUses(s: Node, peer: Peer, e: Env, f: Env)
    requires s.Inv() && peer in s.links && e.now == f.now && e.token == f.token
    ensures Handlers.SendKeepalive(s, peer, e) == Handlers.SendKeepalive(s, peer, f)
  {
    hide Node.Inv, Node.Steady, Handlers.SendPacket;
  }

  lemma BeginUses(s: Node, peer: Peer, e: Env, f: Env)
    requires s.Inv() && peer in s.links && e.now == f.now && e.ephemeral == f.ephemeral
    ensures Handlers.BeginHandshake(s, peer, e) == Handlers.BeginHandshake(s, peer, f)
  {
    hide Node.Inv, Node.Steady, Handlers.SendPacket;
  }

  lemma TryRelayUses(s: Node, peer: Peer, e: Env, f: Env)
    requires s.Inv() && peer in s.links && e.now == f.now && e.ephemeral == f.ephemeral
    ensures Handlers.TryRelay(s, peer, e) == Handlers.TryRelay(s, peer, f)
  {
    hide Node.Inv, Node.Steady, Handlers.SendPacket;
  }

  lemma KnownPeer(m: Mesh, d: DeviceId)
    requires m.Valid() && d in m.peers
    ensures m.peers[d] in m.objects
  {
    assert m.View().peers[d] in m.View().links;
  }

  lemma KnownAddress(m: Mesh, ip: Addr)
    requires m.Valid() && ip in m.byIP
    ensures m.byIP[ip] in m.objects
  {
    assert m.View().byIP[ip] in m.View().links;
  }

  /** An operation on one peer object changes one link, and is noted, and nothing else of the mesh changes. */
  twostate lemma OneLinkDone(m: Mesh, new p: Peer, new e: L.Op)
    requires old(m.Valid()) && p in old(m.objects) && m.log == old(m.log) + [L.Deed(p, e)]
    requires m.peers == old(m.peers) && m.byIP == old(m.byIP) && m.byUDP == old(m.byUDP)
    requires m.inbound == old(m.inbound) && m.wire == old(m.wire) && m.objects == old(m.objects)
    requires m.heard == old(m.heard) && m.openings == old(m.openings)
    requires m.queued == old(m.queued) && m.drawn == old(m.drawn)
    requires forall q | q in m.objects && q != p :: SameObject(q)
    requires L.Allowed(old(p.View()), e) && p.View() == L.After(old(p.View()), e) && !e.SetEndpoint?
    requires e.RelayThrough? ==> e.relay in m.objects
    requires e.AnswerVia? ==> e.carrier in m.objects
    ensures m.Valid() && m.View() == old(m.View()).Do(p, e)
  {
    hide Node.Inv, Node.Steady, L.After, L.Allowed;
    assert m.Links() == old(m.Links())[p := p.View()];
    assert m.View() == old(m.View()).Do(p, e);
  }

  twostate lemma OneLinkMoved(m: Mesh, new p: Peer, new addr: AddrPort)
    requires old(m.Valid()) && p in old(m.objects) && m.log == old(m.log) + [L.Deed(p, L.SetEndpoint(addr))]
    requires m.peers == old(m.peers) && m.byIP == old(m.byIP) && m.byUDP == old(m.byUDP)
    requires m.inbound == old(m.inbound) && m.wire == old(m.wire) && m.objects == old(m.objects)
    requires m.heard == old(m.heard) && m.openings == old(m.openings)
    requires m.queued == old(m.queued) && m.drawn == old(m.drawn)
    requires forall q | q in m.objects && q != p :: SameObject(q)
    requires p.View() == L.After(old(p.View()), L.SetEndpoint(addr))
    ensures m.Valid() && m.View() == Moved(old(m.View()), p, addr)
  {
    hide Node.Inv, Node.Grows, L.After, L.Allowed;
    assert m.Links() == old(m.Links())[p := p.View()];
    assert m.View() == Moved(old(m.View()), p, addr);
  }

  /** An operation that leaves its object as it was changes nothing of the mesh. */
  twostate lemma OneLinkSame(m: Mesh, new p: Peer)
    requires old(m.Valid()) && p in old(m.objects) && unchanged(m) && p.View() == old(p.View())
    requires forall q | q in m.objects && q != p :: SameObject(q)
    ensures m.Valid() && m.View() == old(m.View())
  {
    hide Node.Inv;
    assert m.Links() == old(m.Links());
    assert m.View() == old(m.View());
  }
}
