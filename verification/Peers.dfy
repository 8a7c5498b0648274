/** One link to one other device: the values it goes through, and the object that holds them. */
module Peers {
  import opened Netip
  import opened Packets
  import opened Replay
  import Crypto = Session
  import opened Session
  import opened Wrappers

  /** A clock reading, in nanoseconds. */
  type Time = int

  const SECOND: Time := 1_000_000_000
  const PROBE_INTERVAL := SECOND / 2
  const KEEPALIVE_INTERVAL := 15 * SECOND
  const DEAD_AFTER := 45 * SECOND
  const HANDSHAKE_RETRY := SECOND

  const MAX_HANDSHAKES := 10
  const MAX_RELAY_HANDSHAKES := 3
  const MAX_PENDING := 32
  const MAX_COUNTER: uint64 := 0xFFFF_FFFF_FFFF_FFFF

  datatype PeerState = Connecting | Direct | Indirect | Failed

  datatype AcceptError = ErrNoSession | ErrUndecryptable | ErrReplayed

  /** How many attempts a link gets before it is given up on, by what it is attempting. */
  function HandshakeBudget(via: Peer?): nat {
    if via != null then MAX_RELAY_HANDSHAKES else MAX_HANDSHAKES
  }

  function Increment(counter: uint64): uint64 {
    if counter == MAX_COUNTER then 0 else counter + 1
  }

  datatype Link = Link(
    endpoint: AddrPort,
    state: PeerState,
    via: Peer?,
    relaysTried: set<DeviceId>,
    handshake: Option<Handshake>,
    session: Option<Session>,
    replay: Window,
    counter: uint64,
    pending: map<uint64, Time>,
    lastHeard: Option<Time>,
    lastHandshake: Option<Time>,
    handshakes: nat)
  {
    /** What holds of a link in every reachable state. */
    ghost predicate Consistent() {
      && (session.Some? <==> state == Direct || state == Indirect)
      && (state == Direct ==> via == null)
      && (state == Indirect ==> via != null)
      && (via != null ==> via.deviceID in relaysTried)
      && (via == null ==> relaysTried == {})
      && (handshake.Some? ==> session.None?)
      && handshakes <= MAX_HANDSHAKES
    }

    function Reset(): Link {
      this.(session := None, handshake := None, replay := EMPTY, counter := 0, state := Connecting,
            lastHeard := None, lastHandshake := None, handshakes := 0, pending := map[])
    }

    function GoDirect(): Link { this.(via := null, relaysTried := {}) }

    function Restart(): (r: Link)
      ensures r.Consistent() && r.endpoint == endpoint
    {
      Reset().GoDirect()
    }

    function SetEndpoint(e: AddrPort): (r: Link)
      ensures r.endpoint == e
      ensures Consistent() ==> r.Consistent()
    {
      if endpoint == e then this else this.(endpoint := e).Restart()
    }

    function RelayThrough(relay: Peer): (r: Link)
      ensures r.Consistent() && r.endpoint == endpoint
    {
      Reset().(via := relay, relaysTried := relaysTried + {relay.deviceID})
    }

    function AnswerVia(relay: Peer): (r: Link)
      ensures Consistent() ==> r.Consistent()
      ensures r.endpoint == endpoint && r.via == relay
    {
      if via == relay then this
      else this.(via := relay, relaysTried := relaysTried + {relay.deviceID},
                 state := if session.Some? then Indirect else state)
    }

    function Open(s: Session, now: Time): (r: Link)
      ensures Consistent() ==> r.Consistent()
    {
      this.(session := Some(s), handshake := None, replay := EMPTY, counter := 0,
            state := if via != null then Indirect else Direct, lastHeard := Some(now))
    }

    /** The link after one counter has been handed out. The session has to be open. */
    function Counted(): (r: Link)
      ensures Consistent() ==> r.Consistent()
    {
      this.(counter := Increment(counter))
    }

    /** Decrypts first, then judges the counter, so that only authentic counters move the window. */
    function Accept(header: Header, body: Body, now: Time): (r: (Link, Result<Plain, AcceptError>))
      ensures Consistent() ==> r.0.Consistent()
      ensures r.1.Failure? ==> r.0 == this
    {
      if session.None? then (this, Failure(ErrNoSession))
      else
        var plain := if body.SealedBody? then Crypto.Open(session.value, header, body.text, header.counter) else None;
        if plain.None? then (this, Failure(ErrUndecryptable))
        else if !Admits(replay, header.counter) then (this, Failure(ErrReplayed))
        else (this.(replay := Slide(replay, header.counter), lastHeard := Some(now)), Success(plain.value))
    }

    function Heard(now: Time): (r: Link)
      ensures Consistent() ==> r.Consistent()
    {
      this.(lastHeard := Some(now))
    }

    /** Tokens are forgotten all at once when too many wait, so a silent link cannot collect them. */
    function Expect(token: uint64, now: Time): (r: Link)
      ensures Consistent() ==> r.Consistent()
      ensures |pending| <= MAX_PENDING + 1 ==> |r.pending| <= MAX_PENDING + 1
    {
      var kept: map<uint64, Time> := if |pending| > MAX_PENDING then map[] else pending;
      this.(pending := kept[token := now])
    }

    function Measure(token: uint64, now: Time): (r: Link)
      ensures Consistent() ==> r.Consistent()
    {
      if token in pending then this.(pending := pending - {token}, lastHeard := Some(now)) else this
    }

    function Fail(): (r: Link)
      ensures Consistent() ==> r.Consistent()
    {
      if state == Failed then this else this.(state := Failed, session := None, handshake := None)
    }

    /** Whether an earlier attempt may still be answered. */
    predicate Waiting(now: Time) {
      handshake.Some? && lastHandshake.Some? && now - lastHandshake.value < HANDSHAKE_RETRY
    }

    predicate MayAttempt(now: Time) {
      && session.None?
      && !Waiting(now)
      && handshakes < HandshakeBudget(via)
      && (endpoint.IsValid() || via != null)
    }

    function Attempt(now: Time): (r: Link)
      requires MayAttempt(now)
      ensures Consistent() ==> r.Consistent()
    {
      this.(handshakes := handshakes + 1, lastHandshake := Some(now))
    }

    function Begin(h: Handshake): (r: Link)
      requires session.None?
      ensures Consistent() ==> r.Consistent()
    {
      this.(handshake := Some(h))
    }

    predicate Silent(now: Time) {
      session.Some? && lastHeard.Some? && now - lastHeard.value > DEAD_AFTER
    }
  }

  /** A link that has just been added. */
  function NewLink(endpoint: AddrPort): (r: Link)
    ensures r.Consistent()
  {
    Link(endpoint, Connecting, null, {}, None, None, EMPTY, 0, map[], None, None, 0)
  }

  class Peer {
    const deviceID: DeviceId
    const virtualIP: Addr
    const transportKey: Key
    const sender: uint64

    var endpoint: AddrPort
    var state: PeerState
    var via: Peer?
    var relaysTried: set<DeviceId>
    var handshake: Option<Handshake>
    var session: Option<Session>
    const replay: ReplayWindow
    var counter: uint64
    var pending: map<uint64, Time>
    var lastHeard: Option<Time>
    var lastHandshake: Option<Time>
    var handshakes: nat

    ghost function View(): Link
      reads this, replay
    {
      Link(endpoint, state, via, relaysTried, handshake, session, replay.View(), counter, pending,
           lastHeard, lastHandshake, handshakes)
    }

    constructor (deviceID: DeviceId, virtualIP: Addr, transportKey: Key, endpoint: AddrPort, sender: uint64)
      ensures View() == NewLink(endpoint)
      ensures fresh(replay)
      ensures this.deviceID == deviceID && this.virtualIP == virtualIP
      ensures this.transportKey == transportKey && this.sender == sender
    {
      this.deviceID, this.virtualIP, this.transportKey, this.sender := deviceID, virtualIP, transportKey, sender;
      this.endpoint, state, via, relaysTried := endpoint, Connecting, null, {};
      handshake, session, counter, pending := None, None, 0, map[];
      lastHeard, lastHandshake, handshakes := None, None, 0;
      var window := new ReplayWindow();
      replay := window;
    }

    method ResetLocked()
      modifies this, replay
      ensures View() == old(View()).Reset()
    {
      session := None;
      handshake := None;
      replay.Clear();
      counter := 0;
      state := Connecting;
      lastHeard := None;
      lastHandshake := None;
      handshakes := 0;
      pending := map[];
    }

    method GoDirectLocked()
      modifies this
      ensures View() == old(View()).GoDirect()
    {
      via := null;
      relaysTried := {};
    }

    method SetEndpoint(e: AddrPort) returns (changed: bool)
      modifies this, replay
      ensures View() == old(View()).SetEndpoint(e)
      ensures changed <==> old(endpoint) != e
    {
      if endpoint == e {
        return false;
      }
      endpoint := e;
      ResetLocked();
      GoDirectLocked();
      return true;
    }

    method Restart()
      modifies this, replay
      ensures View() == old(View()).Restart()
    {
      ResetLocked();
      GoDirectLocked();
    }

    method RelayThrough(relay: Peer)
      modifies this, replay
      ensures View() == old(View()).RelayThrough(relay)
    {
      ResetLocked();
      via := relay;
      relaysTried := relaysTried + {relay.deviceID};
    }

    method AnswerVia(relay: Peer)
      modifies this
      ensures View() == old(View()).AnswerVia(relay)
    {
      if via == relay {
        return;
      }
      via := relay;
      relaysTried := relaysTried + {relay.deviceID};
      if session.Some? {
        state := Indirect;
      }
    }

    method Open(s: Session, now: Time)
      modifies this, replay
      ensures View() == old(View()).Open(s, now)
    {
      session := Some(s);
      handshake := None;
      replay.Clear();
      counter := 0;
      state := Direct;
      if via != null {
        state := Indirect;
      }
      lastHeard := Some(now);
    }

    /** Hands out the number that becomes the nonce of one packet. */
    method NextCounter() returns (r: Option<(Session, uint64)>)
      modifies this
      ensures old(session).None? ==> r == None && View() == old(View())
      ensures old(session).Some? ==> r == Some((old(session).value, old(counter))) && View() == old(View()).Counted()
    {
      if session.None? {
        return None;
      }
      r := Some((session.value, counter));
      counter := Increment(counter);
    }

    method Accept(header: Header, body: Body, now: Time) returns (r: Result<Plain, AcceptError>)
      modifies this, replay
      ensures (View(), r) == old(View()).Accept(header, body, now)
    {
      if session.None? {
        return Failure(ErrNoSession);
      }
      if !body.SealedBody? {
        return Failure(ErrUndecryptable);
      }
      var plain := Crypto.Open(session.value, header, body.text, header.counter);
      if plain.None? {
        return Failure(ErrUndecryptable);
      }
      ghost var window := replay.View();
      var isNew := replay.Accept(header.counter);
      if !isNew {
        RefusedLeavesWindow(window, header.counter);
        return Failure(ErrReplayed);
      }
      lastHeard := Some(now);
      return Success(plain.value);
    }

    method Heard(now: Time)
      modifies this
      ensures View() == old(View()).Heard(now)
    {
      lastHeard := Some(now);
    }

    method Expect(token: uint64, now: Time)
      modifies this
      ensures View() == old(View()).Expect(token, now)
    {
      if |pending| > MAX_PENDING {
        pending := map[];
      }
      pending := pending[token := now];
    }

    /** Reports false for a token this side never sent. */
    method Measure(token: uint64, now: Time) returns (ok: bool)
      modifies this
      ensures View() == old(View()).Measure(token, now)
      ensures ok <==> token in old(pending)
    {
      if token !in pending {
        return false;
      }
      pending := pending - {token};
      lastHeard := Some(now);
      return true;
    }

    method Fail() returns (changed: bool)
      modifies this
      ensures View() == old(View()).Fail()
      ensures changed <==> old(state) != Failed
    {
      if state == Failed {
        return false;
      }
      state := Failed;
      session := None;
      handshake := None;
      return true;
    }
  }

  /** A refused counter leaves the window as it was. */
  lemma RefusedLeavesWindow(w: Window, counter: uint64)
    requires !Admits(w, counter)
    ensures Slide(w, counter) == w
  {}
}
