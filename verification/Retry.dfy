/** A link nobody answers is tried, relayed, and given up on, by the side that opens handshakes: a measure
    that every tick lowers. The other side waits for ever. */
module Retry {
  import opened Handlers
  import opened Netip
  import opened Network
  import opened Nodes
  import opened Packets
  import opened Peers
  import opened Safety
  import opened Session
  import opened Wrappers
  import L = PeerRuns
  import T = Transport

  /** The other peers whose links are open directly: those that could carry this one. */
  ghost function DirectPeers(s: Node, peer: Peer): set<DeviceId>
    requires s.Inv() && peer in s.links
  {
    set d | d in s.peers && s.peers[d] != peer && s.links[s.peers[d]].state == Direct
  }

  /** What is left to try, most significant first: relays not asked, attempts on the present path,
      and whether the last attempt, begun before time `at`, may still be waiting at the next tick. */
  ghost function Remaining(l: Link, direct: set<DeviceId>, at: Time): nat {
    var attempts := if l.handshakes < HandshakeBudget(l.via) then HandshakeBudget(l.via) - l.handshakes else 0;
    var waits := l.handshake.Some? && l.lastHandshake.Some? && at - l.lastHandshake.value < PROBE_INTERVAL;
    8 * |direct - l.relaysTried| + 2 * attempts + if waits then 1 else 0
  }

  ghost predicate GivenUp(l: Link, direct: set<DeviceId>) {
    l.state == Failed && l.session.None? && direct <= l.relaysTried
  }

  /** A link that has an address to aim at and no session, as of time `at`. */
  ghost predicate Unanswered(s: Node, peer: Peer, direct: set<DeviceId>, at: Time) {
    && s.Inv() && peer in s.links && DirectPeers(s, peer) == direct
    && s.links[peer].session.None? && s.links[peer].endpoint.IsValid()
    && (s.links[peer].lastHandshake.Some? ==> s.links[peer].lastHandshake.value <= at)
  }

  /** And this side is the one that opens it. */
  ghost predicate Trying(s: Node, peer: Peer, direct: set<DeviceId>, at: Time) {
    Unanswered(s, peer, direct, at) && !Less(peer.deviceID, s.device)
  }

  /** A link but for its counter. */
  ghost function Still(l: Link): Link { l.(counter := 0) }

  /** Sending touches nothing of any link but its counter. */
  ghost predicate OnlyCounters(s: Node, r: Node) {
    && s.links.Keys == r.links.Keys
    && forall p | p in s.links :: Still(r.links[p]) == Still(s.links[p])
  }

  lemma ForwardOnlyCounts(s: Node, relay: Peer, carried: Carried)
    requires s.Inv() && relay in s.links
    ensures OnlyCounters(s, Forward(s, relay, carried).0)
  {
    hide Node.Inv, Node.Steady, Link.Consistent, L.Allowed, L.After, Still;
    var l := s.links[relay];
    if l.session.Some? {
      SealOnlyCounts(l, SealedText(l.session.value, T.MSG_FORWARD, relay.sender, l.counter, Forwarded(carried)));
    }
  }

  lemma SealOnlyCounts(l: Link, text: Text)
    ensures Still(L.After(l, L.Seal(text))) == Still(l)
  {
    hide Link.Consistent;
  }

  lemma SendPacketOnlyCounts(s: Node, peer: Peer, kind: byte, body: Body)
    requires s.Inv() && peer in s.links
    ensures OnlyCounters(s, SendPacket(s, peer, kind, body))
  {
    hide Handlers.Forward, L.Reached, L.Of, Link.Consistent;
    if s.links[peer].via != null {
      ForwardOnlyCounts(s, s.links[peer].via,
        Carried(INITIAL_HOP_LIMIT, s.virtualIP, peer.virtualIP, Envelope(kind, peer.sender, 0, body)));
    }
  }

  /** What a handshake that is begun sends leaves every link as the attempt made it, but for counters. */
  lemma BegunOnlyCounts(s: Node, peer: Peer, env: Env)
    requires s.Inv() && peer in s.links && Opens(s, peer, env.now)
    ensures
      var h := if |s.device| > 255 then None else Some(WriteInit(s.key, peer.transportKey, env.ephemeral));
      OnlyCounters(s.Draw(env.ephemeral).Do(peer, L.Attempt(h, env.now)), BeginHandshake(s, peer, env))
  {
    hide Handlers.SendPacket, Node.Steady, Node.Inv, Link.Consistent;
    if |s.device| <= 255 {
      var h := WriteInit(s.key, peer.transportKey, env.ephemeral);
      SendPacketOnlyCounts(s.Draw(env.ephemeral).Do(peer, L.Attempt(Some(h), env.now)), peer,
                           T.MSG_HANDSHAKE_INIT, InitBody(s.device, h.init));
    }
  }

  /** Beginning a handshake changes its own link by one attempt, and of the others only counters. */
  lemma BeginHandshakeCounts(s: Node, peer: Peer, env: Env)
    requires s.Inv() && peer in s.links
    ensures
      var r := BeginHandshake(s, peer, env);
      var l := s.links[peer];
      && r.links.Keys == s.links.Keys
      && (forall p | p in s.links && p != peer :: Still(r.links[p]) == Still(s.links[p]))
      && (if Opens(s, peer, env.now)
          then Still(r.links[peer]) == Still(l.Attempt(env.now).(handshake := r.links[peer].handshake))
          else r.links[peer] == l)
  {
    hide Node.Inv, Link.Consistent, Handlers.SendPacket, Node.Steady;
    if Opens(s, peer, env.now) { BegunOnlyCounts(s, peer, env); }
  }

  lemma CandidatesAreUntried(s: Node, peer: Peer)
    requires s.Inv() && peer in s.links
    ensures Candidates(s, peer) == DirectPeers(s, peer) - s.links[peer].relaysTried
  {}

  /** Asking a relay uses one up and begins the first of its three attempts. */
  lemma RelayThroughRemaining(l: Link, relay: Peer, after: Link, direct: set<DeviceId>, now: Time)
    requires relay.deviceID in direct - l.relaysTried
    requires Still(after) == Still(l.RelayThrough(relay).Attempt(now).(handshake := after.handshake))
    ensures Remaining(after, direct, now) <= 8 * |direct - l.relaysTried| - 3
  {
    assert direct - after.relaysTried == (direct - l.relaysTried) - {relay.deviceID};
  }

  lemma RelayThroughProgress(s: Node, peer: Peer, relay: Peer, env: Env, direct: set<DeviceId>, at: Time)
    requires Trying(s, peer, direct, at) && relay in s.links
    requires relay.deviceID in direct - s.links[peer].relaysTried
    ensures
      var r := BeginHandshake(s.Do(peer, L.RelayThrough(relay)), peer, env);
      Trying(r, peer, direct, env.now) &&
      Remaining(r.links[peer], direct, env.now) <= 8 * |direct - s.links[peer].relaysTried| - 3
  {
    hide Handlers.BeginHandshake, Remaining, DirectPeers, L.Reached, L.Of, Node.Inv, Node.Grows;
    var s1 := s.Do(peer, L.RelayThrough(relay));
    BeginHandshakeCounts(s1, peer, env);
    var r := BeginHandshake(s1, peer, env);
    RelayThroughRemaining(s.links[peer], relay, r.links[peer], direct, env.now);
    SameDirect(s, r, peer);
  }

  lemma TryRelayProgress(s: Node, peer: Peer, env: Env, direct: set<DeviceId>, at: Time)
    requires Trying(s, peer, direct, at) && Candidates(s, peer) != {}
    ensures
      var r := TryRelay(s, peer, env).0;
      Trying(r, peer, direct, env.now) &&
      Remaining(r.links[peer], direct, env.now) <= 8 * |direct - s.links[peer].relaysTried| - 3
  {
    hide Handlers.BeginHandshake, Remaining;
    CandidatesAreUntried(s, peer);
    var low := Lowest(Candidates(s, peer));
    assert low in Candidates(s, peer);
    RelayThroughProgress(s, peer, s.peers[low], env, direct, at);
  }

  lemma SameDirect(s: Node, r: Node, peer: Peer)
    requires s.Inv() && r.Inv() && peer in s.links && peer in r.links && r.peers == s.peers
    requires forall p | p in s.links && p != peer :: p in r.links && r.links[p].state == s.links[p].state
    ensures DirectPeers(r, peer) == DirectPeers(s, peer)
  {}

  lemma BeginProgress(s: Node, peer: Peer, env: Env, direct: set<DeviceId>, at: Time)
    requires Trying(s, peer, direct, at) && env.now >= at + PROBE_INTERVAL
    requires s.links[peer].handshakes < HandshakeBudget(s.links[peer].via)
    ensures
      var r := BeginHandshake(s, peer, env);
      Trying(r, peer, direct, env.now) &&
      Remaining(r.links[peer], direct, env.now) < Remaining(s.links[peer], direct, at)
  {
    hide Handlers.BeginHandshake, DirectPeers, Node.Inv, Link.Consistent;
    BeginHandshakeCounts(s, peer, env);
    SameDirect(s, BeginHandshake(s, peer, env), peer);
  }

  lemma PunchOnlyExpects(s: Node, peer: Peer, env: Env, direct: set<DeviceId>, at: Time)
    requires Trying(s, peer, direct, at)
    ensures
      var r := Punch(s, peer, env);
      Trying(r, peer, direct, at) && r.links[peer] == s.links[peer].(pending := r.links[peer].pending)
  {
    hide L.Reached, L.Of, Link.Consistent, DirectPeers, Node.Inv;
    SameDirect(s, Punch(s, peer, env), peer);
  }

  /** One tick half a second or more after the last leaves less to try, or gives up. */
  lemma TickProgress(s: Node, peer: Peer, keepalives: bool, env: Env, direct: set<DeviceId>, at: Time)
    requires Trying(s, peer, direct, at) && env.now >= at + PROBE_INTERVAL
    ensures
      var r := TickPeer(s, peer, keepalives, env);
      && Trying(r, peer, direct, env.now)
      && (GivenUp(s.links[peer], direct) ==> r.links[peer] == s.links[peer])
      && (GivenUp(r.links[peer], direct) ||
          Remaining(r.links[peer], direct, env.now) < Remaining(s.links[peer], direct, at))
  {
    hide Handlers.BeginHandshake, Handlers.TryRelay, Handlers.Punch, DirectPeers;
    hide Node.Inv, Node.Grows, L.Allowed, L.After;
    var l := s.links[peer];
    if l.state == Failed || l.handshakes >= HandshakeBudget(l.via) {
      SpentProgress(s, peer, env, direct, at);
    } else if l.via != null {
      BeginProgress(s, peer, env, direct, at);
    } else {
      PunchOnlyExpects(s, peer, env, direct, at);
      BeginProgress(Punch(s, peer, env), peer, env, direct, at);
    }
  }

  /** A link whose attempts are spent asks a relay while there is one, and is marked failed after. */
  lemma SpentProgress(s: Node, peer: Peer, env: Env, direct: set<DeviceId>, at: Time)
    requires Trying(s, peer, direct, at) && env.now >= at
    ensures
      var (asked, found) := TryRelay(s, peer, env);
      var l := s.links[peer];
      var r := if found || l.state == Failed then asked else s.Do(peer, L.Fail);
      && Trying(r, peer, direct, env.now)
      && (GivenUp(l, direct) ==> r.links[peer] == l)
      && (GivenUp(r.links[peer], direct) || Remaining(r.links[peer], direct, env.now) < Remaining(l, direct, at))
  {
    hide Handlers.TryRelay, Handlers.Candidates;
    if Candidates(s, peer) != {} {
      RelayIsProgress(s, peer, env, direct, at);
    } else {
      NoRelayGivesUp(s, peer, env, direct, at);
    }
  }

  lemma RelayIsProgress(s: Node, peer: Peer, env: Env, direct: set<DeviceId>, at: Time)
    requires Trying(s, peer, direct, at) && env.now >= at && Candidates(s, peer) != {}
    ensures
      var (r, found) := TryRelay(s, peer, env);
      && found && Trying(r, peer, direct, env.now) && !GivenUp(s.links[peer], direct)
      && Remaining(r.links[peer], direct, env.now) < Remaining(s.links[peer], direct, at)
  {
    hide Handlers.TryRelay, Netip.Lowest, Node.Inv, DirectPeers, Handlers.Candidates;
    TryRelayProgress(s, peer, env, direct, at);
    CandidatesAreUntried(s, peer);
    var d :| d in direct - s.links[peer].relaysTried;
  }

  lemma NoRelayGivesUp(s: Node, peer: Peer, env: Env, direct: set<DeviceId>, at: Time)
    requires Trying(s, peer, direct, at) && env.now >= at && Candidates(s, peer) == {}
    ensures
      var (asked, found) := TryRelay(s, peer, env);
      var l := s.links[peer];
      var r := if l.state == Failed then asked else s.Do(peer, L.Fail);
      && !found && Trying(r, peer, direct, env.now)
      && GivenUp(r.links[peer], direct) && (GivenUp(l, direct) ==> r.links[peer] == l)
  {
    hide L.Reached, L.Of, Link.Consistent, DirectPeers, Node.Inv, Candidates;
    var l := s.links[peer];
    CandidatesAreUntried(s, peer);
    NoneLeft(direct, l.relaysTried);
    if l.state != Failed { SameDirect(s, s.Do(peer, L.Fail), peer); }
  }

  /** Ticks of one link, half a second or more apart, with nothing arriving for it and the same
      peers directly reachable. The rest of the daemon may do anything in between. */
  ghost predicate SilentTicks(ticks: seq<Node>, peer: Peer, keepalives: seq<bool>, envs: seq<Env>,
                              direct: set<DeviceId>, start: Time) {
    && |ticks| == |keepalives| == |envs|
    && (forall k | 0 <= k < |ticks| ::
          && ticks[k].Inv() && peer in ticks[k].links && DirectPeers(ticks[k], peer) == direct
          && ticks[k].device == ticks[0].device)
    && (|envs| > 0 ==> envs[0].now >= start + PROBE_INTERVAL)
    && (forall k | 0 < k < |ticks| ::
          envs[k].now >= envs[k - 1].now + PROBE_INTERVAL &&
          ticks[k].links[peer] == TickPeer(ticks[k - 1], peer, keepalives[k - 1], envs[k - 1]).links[peer])
  }

  /** The link after the k-th of them. */
  ghost function AfterTick(ticks: seq<Node>, peer: Peer, keepalives: seq<bool>, envs: seq<Env>, k: nat): (l: Link)
    requires k < |ticks| == |keepalives| == |envs| && ticks[k].Inv() && peer in ticks[k].links
  {
    TickPeer(ticks[k], peer, keepalives[k], envs[k]).links[peer]
  }

  lemma {:induction false} TicksRunDown(ticks: seq<Node>, peer: Peer, keepalives: seq<bool>, envs: seq<Env>,
                                        direct: set<DeviceId>, start: Time, k: nat)
    requires SilentTicks(ticks, peer, keepalives, envs, direct, start) && k < |ticks|
    requires Trying(ticks[0], peer, direct, start)
    ensures Trying(TickPeer(ticks[k], peer, keepalives[k], envs[k]), peer, direct, envs[k].now)
    ensures
      var l := AfterTick(ticks, peer, keepalives, envs, k);
      GivenUp(l, direct) || Remaining(l, direct, envs[k].now) + k < Remaining(ticks[0].links[peer], direct, start)
  {
    hide Handlers.TickPeer, Remaining, GivenUp, DirectPeers, Node.Inv, Node.Steady;
    if k > 0 {
      TicksRunDown(ticks, peer, keepalives, envs, direct, start, k - 1);
      TickProgress(ticks[k], peer, keepalives[k], envs[k], direct, envs[k - 1].now);
    } else {
      TickProgress(ticks[0], peer, keepalives[0], envs[0], direct, start);
    }
  }

  /** The side that does not open handshakes has spent no attempt, and a tick leaves it so: it asks a relay
      if the link was closed and one is left, and otherwise only punches. */
  lemma WaitingTick(s: Node, peer: Peer, keepalives: bool, env: Env, direct: set<DeviceId>)
    requires s.Inv() && peer in s.links && DirectPeers(s, peer) == direct && Less(peer.deviceID, s.device)
    requires s.links[peer].session.None? && s.links[peer].handshakes == 0
    ensures
      var r := TickPeer(s, peer, keepalives, env);
      && peer in r.links && r.links[peer].session.None? && r.links[peer].handshakes == 0
      && (GivenUp(r.links[peer], direct) <==> GivenUp(s.links[peer], direct))
      && (s.links[peer].state != Failed ==> r.links[peer].state == s.links[peer].state)
  {
    hide Node.Inv, Node.Grows, Link.Consistent, Handlers.BeginHandshake, Handlers.Candidates, Handlers.TryRelay;
    hide DirectPeers;
    var l := s.links[peer];
    if l.state == Failed {
      WaitingRelay(s, peer, env, direct);
    } else if l.via != null {
      NothingBegun(s, peer, env);
    } else {
      NothingBegun(Punch(s, peer, env), peer, env);
    }
  }

  lemma NothingBegun(s: Node, peer: Peer, env: Env)
    requires s.Inv() && peer in s.links && Less(peer.deviceID, s.device)
    ensures BeginHandshake(s, peer, env) == s
  {}

  lemma WaitingRelay(s: Node, peer: Peer, env: Env, direct: set<DeviceId>)
    requires s.Inv() && peer in s.links && DirectPeers(s, peer) == direct && Less(peer.deviceID, s.device)
    requires s.links[peer].session.None? && s.links[peer].state == Failed
    ensures
      var r := TryRelay(s, peer, env).0;
      && peer in r.links && r.links[peer].session.None?
      && (GivenUp(r.links[peer], direct) <==> GivenUp(s.links[peer], direct))
      && (r.links[peer] == s.links[peer] || r.links[peer].handshakes == 0)
  {
    hide Handlers.BeginHandshake, Handlers.Candidates, DirectPeers, L.Reached, L.Of, Link.Consistent;
    CandidatesAreUntried(s, peer);
    var candidates := Candidates(s, peer);
    if candidates == {} {
      NoneLeft(direct, s.links[peer].relaysTried);
    } else {
      assert Lowest(candidates) in candidates;
      CandidateIsPeer(s, peer, Lowest(candidates));
      NothingBegun(s.Do(peer, L.RelayThrough(s.peers[Lowest(candidates)])), peer, env);
    }
  }

  lemma NoneLeft(direct: set<DeviceId>, tried: set<DeviceId>)
    requires direct - tried == {}
    ensures direct <= tried
  {
    forall d | d in direct ensures d in tried { assert d !in direct - tried; }
  }

  lemma CandidateIsPeer(s: Node, peer: Peer, d: DeviceId)
    requires s.Inv() && peer in s.links && d in Candidates(s, peer)
    ensures d in s.peers && s.peers[d] in s.links && s.peers[d].deviceID == d && d !in s.links[peer].relaysTried
  {
    hide L.Reached, L.Of, Link.Consistent;
  }

  lemma {:induction false} TicksWait(ticks: seq<Node>, peer: Peer, keepalives: seq<bool>, envs: seq<Env>,
                                     direct: set<DeviceId>, start: Time, k: nat)
    requires SilentTicks(ticks, peer, keepalives, envs, direct, start) && k < |ticks|
    requires Less(peer.deviceID, ticks[0].device)
    requires ticks[0].links[peer].session.None? && ticks[0].links[peer].handshakes == 0
    ensures
      var l := AfterTick(ticks, peer, keepalives, envs, k);
      l.session.None? && l.handshakes == 0 && (GivenUp(l, direct) <==> GivenUp(ticks[0].links[peer], direct))
  {
    hide Handlers.TickPeer, GivenUp, DirectPeers, Node.Inv, Node.Steady;
    if k > 0 { TicksWait(ticks, peer, keepalives, envs, direct, start, k - 1); }
    WaitingTick(ticks[k], peer, keepalives[k], envs[k], direct);
  }

  /** In any state a daemon can be in: a link that nobody answers, with an address and the same peers to carry
      it, is marked failed within 8 ticks for each of them and 22 more, and stays so, exactly if this side is
      the one that opens handshakes, or if it was given up on before. The other side never gives up. */
  lemma GivenUpExactlyIfOpener(ticks: seq<Node>, peer: Peer, keepalives: seq<bool>, envs: seq<Env>,
                               direct: set<DeviceId>, start: Time, k: nat)
    requires SilentTicks(ticks, peer, keepalives, envs, direct, start)
    requires |ticks| > 0 && Unanswered(ticks[0], peer, direct, start) && ticks[0].Safe()
    requires 8 * |direct| + 21 <= k < |ticks|
    ensures GivenUp(AfterTick(ticks, peer, keepalives, envs, k), direct) <==>
            !Less(peer.deviceID, ticks[0].device) || GivenUp(ticks[0].links[peer], direct)
  {
    hide AfterTick, GivenUp, Node.Safe, Node.Inv, DirectPeers;
    if Less(peer.deviceID, ticks[0].device) {
      HigherNeverAttempts(ticks[0], peer);
      TicksWait(ticks, peer, keepalives, envs, direct, start, k);
    } else {
      TicksRunDown(ticks, peer, keepalives, envs, direct, start, k);
      RemainingAtMost(ticks[0].links[peer], direct, start);
    }
  }

  /** However often a daemon looks at a link that the other side has to open, from when it was added, with
      nothing arriving: it stays connecting, with no attempt spent. */
  lemma {:induction false} TheOtherSideWaits(start: Net, d: DeviceId, peer: Peer, endpoint: AddrPort, env: Env,
                                             ticks: seq<Event>)
    requires AllBlank(start) && d in start && Less(peer.deviceID, d) && peer.transportKey == Key(peer.deviceID)
    requires forall k | 0 <= k < |ticks| :: ticks[k].TickOne? && ticks[k].at == d && ticks[k].peer == peer
    ensures
      var s := Run(start, [Add(d, peer, endpoint, env)] + ticks)[d];
      && s.Inv() && s.device == d && peer in s.links
      && s.links[peer].state == Connecting && s.links[peer].session.None? && s.links[peer].handshakes == 0
  {
    hide Handlers.TickPeer, Node.Inv, Act, Possible, DirectPeers;
    var events := [Add(d, peer, endpoint, env)] + ticks;
    if ticks == [] {
      FirstPeer(start, d, peer, endpoint, env);
      assert events == [Add(d, peer, endpoint, env)];
    } else {
      var last := |ticks| - 1;
      TheOtherSideWaits(start, d, peer, endpoint, env, ticks[..last]);
      assert events[..|events| - 1] == [Add(d, peer, endpoint, env)] + ticks[..last];
      var before := Run(start, events[..|events| - 1]);
      TickActs(before, ticks[last]);
      WaitingTick(before[d], peer, ticks[last].keepalives, ticks[last].env, DirectPeers(before[d], peer));
    }
  }

  lemma TickActs(net: Net, e: Event)
    requires e.TickOne? && e.at in net && net[e.at].Inv() && e.peer in net[e.at].links
    ensures Possible(net, e) && Act(net, e) == TickPeer(net[e.at], e.peer, e.keepalives, e.env)
    ensures Act(net, e).Inv() && Act(net, e).device == net[e.at].device
  {
    hide Handlers.TickPeer, Node.Inv;
  }

  /** A blank daemon's first peer. */
  lemma FirstPeer(start: Net, d: DeviceId, peer: Peer, endpoint: AddrPort, env: Env)
    requires AllBlank(start) && d in start && peer.transportKey == Key(peer.deviceID)
    ensures
      var s := Run(start, [Add(d, peer, endpoint, env)])[d];
      && s.Inv() && s.device == d && peer in s.links
      && s.links[peer].state == Connecting && s.links[peer].session.None? && s.links[peer].handshakes == 0
  {
    hide Act, Possible, Node.Inv;
    var e := Add(d, peer, endpoint, env);
    assert [e][..0] == [];
    assert Run(start, []) == start && Blank(start[d], d);
    FirstAct(start, e);
  }

  lemma BlankInv(s: Node, d: DeviceId)
    requires Blank(s, d)
    ensures s.Inv()
  {}

  lemma FirstAct(net: Net, e: Event)
    requires e.Add? && e.at in net && Blank(net[e.at], e.at) && e.newcomer.transportKey == Key(e.newcomer.deviceID)
    ensures
      && Possible(net, e)
      && var s := Act(net, e);
         && s.Inv() && s.device == e.at && e.newcomer in s.links
         && s.links[e.newcomer].state == Connecting && s.links[e.newcomer].session.None?
         && s.links[e.newcomer].handshakes == 0
  {
    hide Handlers.AddPeer, Link.Consistent, L.Reached, L.Of;
    BlankInv(net[e.at], e.at);
    AddPeerLink(net[e.at], e.newcomer, e.endpoint, e.env);
  }

  lemma RemainingAtMost(l: Link, direct: set<DeviceId>, at: Time)
    ensures Remaining(l, direct, at) <= 8 * |direct| + 21
  {
    assert direct == (direct - l.relaysTried) + (direct * l.relaysTried);
    assert |direct| == |direct - l.relaysTried| + |direct * l.relaysTried|;
  }
}
