/** What goes out: what one packet for a peer becomes on the wire, whom an IP packet is sent to, and that everybody
    who can be reached gets one copy of a broadcast. */
module Sending {
  import opened Handlers
  import opened Netip
  import opened Nodes
  import opened Packets
  import opened Peers
  import opened Retry
  import opened Session
  import opened Wrappers
  import L = PeerRuns
  import T = Transport

  // ----- one packet -----

  /** What a relay is handed to carry a packet to a peer. */
  function Wrapped(carrier: Link, relay: Peer, from: Addr, p: Peer, packet: Packet): Datagram
    requires carrier.session.Some?
  {
    Datagram(carrier.endpoint,
             SealedPacket(carrier.session.value, T.MSG_FORWARD, relay.sender, carrier.counter,
                          Forwarded(Carried(INITIAL_HOP_LIMIT, from, p.virtualIP, packet))))
  }

  /** A path to a peer: an address of its own, or a relay on an open link with one, between IPv4 addresses. */
  ghost predicate HasPath(s: Node, p: Peer)
    requires s.Inv() && p in s.links
  {
    hide L.Reached, L.Of, Link.Consistent;
    var via := s.links[p].via;
    if via == null then s.links[p].endpoint.IsValid()
    else s.virtualIP.V4? && p.virtualIP.V4? && s.links[via].session.Some? && s.links[via].endpoint.IsValid()
  }

  /** The datagram that a packet for a peer with a path becomes. */
  ghost function Outgoing(s: Node, p: Peer, packet: Packet): Datagram
    requires s.Inv() && p in s.links && HasPath(s, p)
  {
    hide L.Reached, L.Of, Link.Consistent;
    var l := s.links[p];
    if l.via == null then Datagram(l.endpoint, packet) else Wrapped(s.links[l.via], l.via, s.virtualIP, p, packet)
  }

  /** A packet for a peer is written exactly if there is a path, once, and only then is there no error. */
  lemma DeliversExactly(s: Node, p: Peer, packet: Packet)
    requires s.Inv() && p in s.links
    ensures
      var (r, err) := Deliver(s, p, packet);
      && (err.None? <==> HasPath(s, p))
      && r.wire == s.wire + if HasPath(s, p) then [Outgoing(s, p, packet)] else []
  {
    hide L.Reached, L.Of, Link.Consistent, L.After, L.Allowed;
  }

  lemma SendsExactly(s: Node, p: Peer, kind: byte, body: Body)
    requires s.Inv() && p in s.links
    ensures
      SendPacket(s, p, kind, body).wire ==
        s.wire + if HasPath(s, p) then [Outgoing(s, p, Envelope(kind, p.sender, 0, body))] else []
  {
    hide Node.Inv, Handlers.Deliver, HasPath;
    DeliversExactly(s, p, Envelope(kind, p.sender, 0, body));
  }

  // ----- one IP packet -----

  /** An IP packet can be sent to a peer: its link is open, and there is a path. */
  ghost predicate Reachable(s: Node, p: Peer)
    requires s.Inv() && p in s.links
  {
    s.links[p].session.Some? && HasPath(s, p)
  }

  /** A datagram that brings a peer this IP packet under these counters: to its own address, or to its relay's
      inside one forward with one hop to spend; sealed for it either way. */
  ghost predicate IsCopyUnder(s: Node, p: Peer, ip: seq<byte>, d: Datagram, n: uint64, m: uint64)
    requires s.Inv() && p in s.links && Reachable(s, p)
  {
    hide L.Reached, L.Of, Link.Consistent;
    var l := s.links[p];
    var data := SealedPacket(l.session.value, T.MSG_DATA, p.sender, n, IPPacket(ip));
    d == if l.via == null then Datagram(l.endpoint, data)
         else Wrapped(s.links[l.via].(counter := m), l.via, s.virtualIP, p, data)
  }

  ghost predicate IsCopy(s: Node, p: Peer, ip: seq<byte>, d: Datagram)
    requires s.Inv() && p in s.links && Reachable(s, p)
  {
    exists n, m :: IsCopyUnder(s, p, ip, d, n, m)
  }

  /** An IP packet for a peer is written exactly if it is reachable, once, as its copy. */
  lemma SendsDataExactly(s: Node, p: Peer, ip: seq<byte>)
    requires s.Inv() && p in s.links
    ensures
      var (r, err) := SendData(s, p, ip);
      && (err.None? <==> Reachable(s, p))
      && if Reachable(s, p) then
           |r.wire| == |s.wire| + 1 && r.wire[..|s.wire|] == s.wire && IsCopy(s, p, ip, r.wire[|s.wire|])
         else r.wire == s.wire
  {
    hide Node.Inv, Link.Consistent, Handlers.Deliver, HasPath, IsCopy;
    var l := s.links[p];
    if l.session.Some? {
      var data := SealedPacket(l.session.value, T.MSG_DATA, p.sender, l.counter, IPPacket(ip));
      var counted := s.Do(p, L.Seal(data.body.text));
      SealedOnlyCounts(s, p, data.body.text);
      SamePath(s, counted, p);
      DeliversExactly(counted, p, data);
      if HasPath(s, p) { OutgoingIsCopy(s, counted, p, ip, l.counter); }
    }
  }

  lemma SealedOnlyCounts(s: Node, p: Peer, text: Text)
    requires s.Inv() && p in s.links && L.Allowed(s.links[p], L.Seal(text))
    ensures OnlyCounters(s, s.Do(p, L.Seal(text))) && s.Do(p, L.Seal(text)).virtualIP == s.virtualIP
  {
    hide Node.Inv, Node.Steady, L.Allowed, Link.Consistent;
    SealOnlyCounts(s.links[p], text);
  }

  /** Counters are no part of a path. */
  lemma SamePath(s: Node, r: Node, p: Peer)
    requires s.Inv() && r.Inv() && p in s.links && OnlyCounters(s, r) && r.virtualIP == s.virtualIP
    ensures p in r.links && r.links[p].session == s.links[p].session && (HasPath(r, p) <==> HasPath(s, p))
  {
    hide L.Reached, L.Of, Link.Consistent;
    SameButCounter(s, r, p);
    if s.links[p].via != null { SameButCounter(s, r, s.links[p].via); }
  }

  lemma SameButCounter(s: Node, r: Node, p: Peer)
    requires OnlyCounters(s, r) && p in s.links
    ensures p in r.links && r.links[p] == s.links[p].(counter := r.links[p].counter)
  {
    assert Still(r.links[p]).(counter := r.links[p].counter) == r.links[p];
    assert Still(s.links[p]).(counter := r.links[p].counter) == s.links[p].(counter := r.links[p].counter);
  }

  lemma OutgoingIsCopy(s: Node, r: Node, p: Peer, ip: seq<byte>, n: uint64)
    requires s.Inv() && r.Inv() && p in s.links && OnlyCounters(s, r) && r.virtualIP == s.virtualIP
    requires Reachable(s, p) && p in r.links && HasPath(r, p)
    ensures
      var data := SealedPacket(s.links[p].session.value, T.MSG_DATA, p.sender, n, IPPacket(ip));
      IsCopy(s, p, ip, Outgoing(r, p, data))
  {
    hide L.Reached, L.Of, Link.Consistent;
    SameButCounter(s, r, p);
    var l := s.links[p];
    if l.via != null { SameButCounter(s, r, l.via); }
    var m: uint64 := if l.via == null then 0 else r.links[l.via].counter;
    var data := SealedPacket(l.session.value, T.MSG_DATA, p.sender, n, IPPacket(ip));
    assert IsCopyUnder(s, p, ip, Outgoing(r, p, data), n, m);
  }

  /** An IP packet goes to whoever is found at its destination, if that peer is reachable, and to nobody else. */
  lemma SendGoesToOwner(s: Node, destination: Addr, ip: seq<byte>)
    requires s.Inv()
    ensures
      var (r, err) := Send(s, destination, ip);
      if destination !in s.byIP then r == s && err == Some(ErrNoPeer)
      else
        var p := s.byIP[destination];
        && p in s.links
        && (err.None? <==> Reachable(s, p))
        && if Reachable(s, p) then
             |r.wire| == |s.wire| + 1 && r.wire[..|s.wire|] == s.wire && IsCopy(s, p, ip, r.wire[|s.wire|])
           else r.wire == s.wire
  {
    hide L.Reached, L.Of, Link.Consistent, Handlers.SendData, IsCopy, HasPath, Node.Steady;
    if destination in s.byIP { SendsDataExactly(s, s.byIP[destination], ip); }
  }

  // ----- a broadcast -----

  /** Those of some peers that can be reached, in order. */
  ghost function Reached(s: Node, peers: seq<Peer>): (r: seq<Peer>)
    requires s.Inv() && AllIn(peers, s.links.Keys)
    ensures forall i | 0 <= i < |r| :: r[i] in s.links && Reachable(s, r[i])
  {
    if peers == [] then []
    else (if Reachable(s, peers[0]) then [peers[0]] else []) + Reached(s, peers[1..])
  }

  lemma {:induction false} SameReached(s: Node, m: Node, peers: seq<Peer>)
    requires s.Inv() && m.Inv() && AllIn(peers, s.links.Keys)
    requires OnlyCounters(s, m) && m.virtualIP == s.virtualIP
    ensures Reached(m, peers) == Reached(s, peers)
  {
    hide Node.Inv, HasPath;
    if peers != [] {
      SamePath(s, m, peers[0]);
      SameReached(s, m, peers[1..]);
    }
  }

  lemma SameCopy(s: Node, m: Node, p: Peer, ip: seq<byte>, d: Datagram)
    requires s.Inv() && m.Inv() && p in s.links && OnlyCounters(s, m) && m.virtualIP == s.virtualIP
    requires Reachable(s, p) && p in m.links && Reachable(m, p) && IsCopy(m, p, ip, d)
    ensures IsCopy(s, p, ip, d)
  {
    hide L.Reached, L.Of, Link.Consistent;
    SameButCounter(s, m, p);
    if s.links[p].via != null { SameButCounter(s, m, s.links[p].via); }
    var n, k :| IsCopyUnder(m, p, ip, d, n, k);
    assert IsCopyUnder(s, p, ip, d, n, k);
  }

  lemma SendDataOnlyCounts(s: Node, p: Peer, ip: seq<byte>)
    requires s.Inv() && p in s.links
    ensures OnlyCounters(s, SendData(s, p, ip).0) && SendData(s, p, ip).0.virtualIP == s.virtualIP
  {
    hide Node.Inv, Link.Consistent, Handlers.Deliver, Still;
    var l := s.links[p];
    if l.session.Some? {
      var data := SealedPacket(l.session.value, T.MSG_DATA, p.sender, l.counter, IPPacket(ip));
      SealedOnlyCounts(s, p, data.body.text);
      DeliverOnlyCounts(s.Do(p, L.Seal(data.body.text)), p, data);
    }
  }

  lemma DeliverOnlyCounts(s: Node, p: Peer, packet: Packet)
    requires s.Inv() && p in s.links
    ensures OnlyCounters(s, Deliver(s, p, packet).0)
  {
    hide L.Reached, L.Of, Link.Consistent, Handlers.Forward;
    if s.links[p].via != null {
      ForwardOnlyCounts(s, s.links[p].via, Carried(INITIAL_HOP_LIMIT, s.virtualIP, p.virtualIP, packet));
    }
  }

  /** One copy for each of these peers, in order. */
  ghost predicate AreCopies(s: Node, to: seq<Peer>, ip: seq<byte>, copies: seq<Datagram>)
    requires s.Inv() && forall i | 0 <= i < |to| :: to[i] in s.links && Reachable(s, to[i])
  {
    |copies| == |to| && forall i | 0 <= i < |to| :: IsCopy(s, to[i], ip, copies[i])
  }

  /** A broadcast writes one copy for each peer that can be reached, in order and nothing else, and counts them. */
  lemma {:induction false} BroadcastReachesAll(s: Node, peers: seq<Peer>, ip: seq<byte>) returns (copies: seq<Datagram>)
    requires s.Inv() && AllIn(peers, s.links.Keys)
    ensures AreCopies(s, Reached(s, peers), ip, copies)
    ensures
      var (r, sent) := Broadcast(s, peers, ip);
      r.wire == s.wire + copies && sent == |copies|
    decreases |peers|
  {
    hide Node.Inv, Node.Grows, Handlers.SendData, Handlers.Broadcast, Reachable, AreCopies, OnlyCounters;
    BroadcastSteps(s, peers, ip);
    if peers == [] {
      copies := [];
      NoCopies(s, ip);
    } else {
      var p, m := peers[0], SendData(s, peers[0], ip).0;
      var first := FirstCopy(s, p, ip);
      SendDataOnlyCounts(s, p, ip);
      SameReached(s, m, peers[1..]);
      var rest := BroadcastReachesAll(m, peers[1..], ip);
      SameCopies(s, m, Reached(s, peers[1..]), ip, rest);
      copies := first + rest;
      BothCopies(s, if Reachable(s, p) then [p] else [], Reached(s, peers[1..]), ip, first, rest);
      assert (s.wire + first) + rest == s.wire + copies;
    }
  }

  lemma BroadcastSteps(s: Node, peers: seq<Peer>, ip: seq<byte>)
    requires s.Inv() && AllIn(peers, s.links.Keys)
    ensures
      var (r, sent) := Broadcast(s, peers, ip);
      if peers == [] then r == s && sent == 0
      else
        var (m, err) := SendData(s, peers[0], ip);
        var (r', more) := Broadcast(m, peers[1..], ip);
        r == r' && sent == more + if err.None? then 1 else 0
  {
    hide Node.Inv, Node.Grows, Handlers.SendData;
  }

  lemma NoCopies(s: Node, ip: seq<byte>)
    requires s.Inv()
    ensures AreCopies(s, [], ip, [])
  {}

  lemma FirstCopy(s: Node, p: Peer, ip: seq<byte>) returns (copies: seq<Datagram>)
    requires s.Inv() && p in s.links
    ensures AreCopies(s, if Reachable(s, p) then [p] else [], ip, copies)
    ensures SendData(s, p, ip).0.wire == s.wire + copies
    ensures |copies| == if SendData(s, p, ip).1.None? then 1 else 0
  {
    hide Node.Inv, Handlers.SendData, HasPath, IsCopy;
    SendsDataExactly(s, p, ip);
    var wire := SendData(s, p, ip).0.wire;
    copies := if Reachable(s, p) then [wire[|s.wire|]] else [];
    assert wire == s.wire + copies;
  }

  lemma BothCopies(s: Node, to: seq<Peer>, rest: seq<Peer>, ip: seq<byte>, first: seq<Datagram>, more: seq<Datagram>)
    requires s.Inv()
    requires forall i | 0 <= i < |to| :: to[i] in s.links && Reachable(s, to[i])
    requires forall i | 0 <= i < |rest| :: rest[i] in s.links && Reachable(s, rest[i])
    requires AreCopies(s, to, ip, first) && AreCopies(s, rest, ip, more)
    ensures forall i | 0 <= i < |to + rest| :: (to + rest)[i] in s.links && Reachable(s, (to + rest)[i])
    ensures AreCopies(s, to + rest, ip, first + more)
  {
    hide Node.Inv, HasPath, IsCopy;
  }

  lemma SameCopies(s: Node, m: Node, to: seq<Peer>, ip: seq<byte>, copies: seq<Datagram>)
    requires s.Inv() && m.Inv() && OnlyCounters(s, m) && m.virtualIP == s.virtualIP
    requires forall i | 0 <= i < |to| :: to[i] in s.links && Reachable(s, to[i])
    requires forall i | 0 <= i < |to| :: to[i] in m.links && Reachable(m, to[i])
    requires AreCopies(m, to, ip, copies)
    ensures AreCopies(s, to, ip, copies)
  {
    hide Node.Inv, HasPath, IsCopy, Still;
    forall i | 0 <= i < |to| ensures IsCopy(s, to[i], ip, copies[i]) { SameCopy(s, m, to[i], ip, copies[i]); }
  }
}
