# 192168 in Dafny

192168 is a peer-to-peer private LAN for a handful of friends: daemons that tunnel IP packets to each
other over UDP, and a coordination server that says who is in which group. This project models what is
hardest about it and proves what it is for. `dafny verify dfyconfig.toml` checks all of it.

## What is modelled

The link protocol between daemons

- `Replay` the 64-bit sliding window of accepted counters, and the set it stands for.
- `Session` the Noise handshake and its sessions with symbolic keys, and the object that runs one side.
- `Peers` one link: the values it goes through (`Link`) and the object that holds them (`Peer`).
  `PeerRuns` everything that can be done to a link, and what any proper sequence of it keeps.
- `Packets`, `Nodes` what travels, and one daemon's mesh as a value with its invariants.
- `Handlers` every handler, tick and call as a function on that value. `Mesh` the class itself, whose
  methods mutate peer objects, maps and queue and are proved to do what those functions say.
- `Safety`, `Network` what a daemon may put on the wire, and any number of daemons over a hostile network.
- `Lives`, `Delivery`, `Endings` what that means in any run: for the attempts and relays of every link, for
  the packets sealed, forwarded and queued, and for when two ends hold one session.
- `Lookup` the tables by virtual IP and by address; `Following` what moves a link, and that whoever proves
  itself from a new address is answered and found there; `Removing` who the peers are.
- `Sending` what goes out to whom; `Alive` how an open link is kept alive; `Upkeep` what the server's calls
  and the loop do to a link and to the wire. `Retry` the bounded retry.
- `Relaying` forwarding, and `Nesting` when a forward wraps a forward.
- `Runs`, `RelayRuns` runs that get somewhere: a handshake, a path through a relay, a packet along it.
- `Netip`, `Bytes`, `Transport` addresses, big-endian integers, and the wire format.

Packet arithmetic and parsing

- `Checksums`, `Pump` one's complement sums and the readdressing of multicast packets in place.
- `Stun` the parsing of STUN replies, and why STUN and the mesh can share a socket.
- `Subnets` IPv4 prefixes.

The server's store

- `Records` the tables as values and every transaction as a function; `RecordRuns` what any sequence of
  transactions keeps; `SessionLaws` what each changes and leaves, and exactly which sessions there are after
  any of them; `MemberLaws`, `Ownership` what that means for members and for who runs a group; `Storage` the
  store itself.

Two smaller algorithms

- `Contest`, `ContestLaws`, `Adapter` the contest for the machine's multicast route.
- `Limiter` the sliding-window rate limiter over slices that are filtered where they lie.

And `Examples`, one message of each kind byte for byte.

## How to read it

Where the program changes things step by step, so does the model: `Peer`, `Mesh`, `ReplayWindow`,
`HandshakeState`, `Store`, `Device`, `Machine` and `RateLimiter` are classes, and packets are arrays. Each
such object has a `View()`, and a method's `ensures` equates the new view, and what is returned, with a
function of the old one. The lemmas are about those functions and about runs of them, so they hold of
the objects.

Peer objects are the identities of links, in the class and in its view alike: `map<Peer, Link>` says what
each object holds. A removed peer's object stays known, because another link may still run through it.

A daemon's value also holds the record of its run, as ghost state in the class: every operation on every
link in order (`log`, written only by `Node.Do`, `Moved` and `Enrol`, which are also the only ways a link
changes), what it heard and opened, which accepted packets it queued, and the ephemeral keys it drew. The
invariant says that each link is exactly what the operations noted of it make of a new one, each done when
it might be, so what is proved of the record is proved of what was done.

A step takes the clock, a random token and a fresh ephemeral key from outside (`Env`). Go's map order is
not fixed: the methods that go through a map return the order they went in, and `Rebuild` allows every
table that the order could give.

The network may deliver anything at all except what only honest daemons' keys can make and they have not
written: a handshake message of an honest daemon's, or a ciphertext of a session between two of them. It may
forge addresses, replay, reorder, drop and alter, and devices that are not honest may say anything.

Handlers, peer methods, ticks of one peer, and server handlers are single steps. In particular `accept`
is one step here: the code releases the peer's lock between decrypting and judging the counter
(`daemon/mesh/peer.go:263-283`), and without that step being whole two copies of a packet could both pass.

## What is false, and what holds instead

- A group does not always have exactly one owner. Handing it to its own owner promotes and then demotes the
  same row (`server/storage/groups.go:531-546`), and the owner may leave.
  `Ownership.OneOwnerUnlessHandedToSelf` and `LedExactly` give the exact conditions over any sequence of
  transactions, `MemberLaws.SelfTransferLeavesNobody` and `Ownership.OwnerMayLeave` runs.
- A counter can repeat on a session: exactly when more than 2^64 packets were sealed on it
  (`PeerRuns.RepeatsExactlyAfterWrap`; `PeerRuns.WrapHappens` is such a run).
- A rival's metric is not always given back: an interface Windows refuses to change when the tunnel gives
  it back is forgotten all the same. `ContestLaws.GivenBackExactlyUnlessRefused` is the exact condition and
  `ContestLaws.RaisedForGood` a run.
- An unanswered link is not always given up: the side with the higher device id never spends an attempt
  (`daemon/mesh/handle.go:392`). `Retry.GivenUpExactlyIfOpener` is the exact condition and
  `Retry.TheOtherSideWaits` a run of any length.
- The two ends of a link need not hold the same session at every moment: a late init replaces the
  responder's. `Endings.TogetherUntilEnded` says exactly what parts them, `Endings.EndsMayDiffer` is a run for
  any two daemons that ends with them parted, and `Network.SessionsAgree` is what holds of the sessions that were opened.
- A forward can wrap a forward: a daemon passes on what it is asked to carry without looking inside
  (`daemon/mesh/handle.go:134-152`). `Nesting.NestsExactlyIfAsked` is the exact condition for one event,
  `Nesting.NestedExactlyIfAsked` for a run, and `Nesting.NestingHappens` such a run. What is wrapped so was
  brought in by a device that is not honest (`Delivery.ForwardsNestOnlyFromOutside`), so it never happens
  where all are honest (`Delivery.ForwardsNeverNest`).

## Model

| member | source | states |
|---|---|---|
| `Replay.AdmitsIsFresh` | protocol/session/replay.go:32-62 | a bitmap that represents a set of accepted counters admits a counter exactly when it was never accepted and is not 64 or more behind any accepted one |
| `Replay.SlideRepresents` | protocol/session/replay.go:32-62 | after one counter the bitmap represents the set with that counter added if it was admitted, and the same set if not: bit n stands for highest - n |
| `Replay.RunRefinesSet` | protocol/session/replay.go:11-62 | for every sequence of 64-bit counters the bitmap decides as the set of accepted counters does |
| `Replay.ReplayWindow.Clear` | daemon/mesh/peer.go:221 | the window is the empty one again |
| `Replay.ReplayWindow.Accept` | protocol/session/replay.go:32-62 | returns true exactly when the counter is fresh for every set the window represents, and then represents that set with the counter; the whole new window is given |
| `Session.ExchangeAgrees` | protocol/session/session.go:93-158 | an init written for a device tells it the author, and the answer opens the two directions of one session |
| `Session.HandshakeState.Initiator` | protocol/session/session.go:57-74 | a side that knows its peer from the start and has written nothing |
| `Session.HandshakeState.Responder` | protocol/session/session.go:78-91 | a side that does not know who calls until it has read the first message |
| `Session.HandshakeState.WriteInitMessage` | protocol/session/session.go:95-104 | only the initiator writes the first message, once, to the key it was given; the responder, and a second time, are refused and change nothing |
| `Session.HandshakeState.ReadInitMessage` | protocol/session/session.go:108-116 | only the responder reads it, once; it learns the author exactly when the message is for its own key, and what is refused changes nothing |
| `Session.HandshakeState.WriteResponseMessage` | protocol/session/session.go:120-139 | only the responder answers, once and after it read the init, and its end of the session opens |
| `Session.HandshakeState.ReadResponseMessage` | protocol/session/session.go:142-158 | only the initiator reads the answer, after it wrote its init and once; it opens the session exactly when the answer is to that init, and one that is not leaves it waiting |
| `Peers.Link.Restart` | daemon/mesh/peer.go:160-165 | the link is consistent, direct and at the same address |
| `Peers.Link.SetEndpoint` | daemon/mesh/peer.go:145-156 | the link points at the new address and stays consistent |
| `Peers.Link.RelayThrough` | daemon/mesh/peer.go:176-183 | the link is consistent whatever it was before, and its address stays |
| `Peers.Link.AnswerVia` | daemon/mesh/peer.go:190-202 | the link runs through the relay, at the same address, and stays consistent |
| `Peers.Link.Open` | daemon/mesh/peer.go:232-244 | a consistent link stays consistent: direct if nobody carries it, indirect if somebody does |
| `Peers.Link.Accept` | daemon/mesh/peer.go:262-286 | a refused packet leaves the link exactly as it was, and a consistent link stays consistent |
| `Peers.Link.Expect` | daemon/mesh/peer.go:297-306 | never more than 33 tokens wait, however often it is asked |
| `Peers.Link.Fail` | daemon/mesh/peer.go:326-337 | a consistent link stays consistent |
| `Peers.NewLink` | daemon/mesh/peer.go:80-92 | a new link is consistent |
| `Peers.Peer.ResetLocked` | daemon/mesh/peer.go:218-229 | the whole new state is the one a reset link has |
| `Peers.Peer.GoDirectLocked` | daemon/mesh/peer.go:213-216 | no relay, and none tried, and nothing else changed |
| `Peers.Peer.SetEndpoint` | daemon/mesh/peer.go:145-156 | the object becomes what Link.SetEndpoint gives, and reports whether the address was new |
| `Peers.Peer.Restart` | daemon/mesh/peer.go:160-165 | the object becomes what Link.Restart gives |
| `Peers.Peer.RelayThrough` | daemon/mesh/peer.go:176-183 | the object becomes what Link.RelayThrough gives |
| `Peers.Peer.AnswerVia` | daemon/mesh/peer.go:190-202 | the object becomes what Link.AnswerVia gives: unchanged if it answers that way already |
| `Peers.Peer.Open` | daemon/mesh/peer.go:232-244 | the object becomes what Link.Open gives: fresh window, counter zero |
| `Peers.Peer.NextCounter` | daemon/mesh/peer.go:248-258 | without a session nothing is handed out and nothing changes; with one the session and the old counter are, and the counter advances modulo 2^64 |
| `Peers.Peer.Accept` | daemon/mesh/peer.go:262-286 | result and new state are those of Link.Accept: decrypt first, judge the counter after |
| `Peers.Peer.Heard` | daemon/mesh/peer.go:290-294 | only the time last heard changes |
| `Peers.Peer.Expect` | daemon/mesh/peer.go:297-306 | the token waits, and the others are forgotten if too many did |
| `Peers.Peer.Measure` | daemon/mesh/peer.go:310-323 | reports exactly whether the token was waiting, and only then changes anything |
| `Peers.Peer.Fail` | daemon/mesh/peer.go:326-337 | reports exactly whether the link was not failed yet, and leaves it failed without session or handshake |
| `Peers.Peer.constructor` | daemon/mesh/peer.go:80-92 | the object holds a new link and its own window |
| `PeerRuns.AttemptsAreBounded` | daemon/mesh/peer.go:145-244 | whatever was done to a link, each thing when it might be: it is consistent, it has begun at most 10 handshakes and 3 more for each relay tried since it was last sent direct, and it has asked no relay twice |
| `PeerRuns.RepeatsExactlyAfterWrap` | daemon/mesh/peer.go:248-258 | over a link's whole life in which no session is opened twice, the counters sealed on a session are distinct if and only if there are no more than 2^64 of them |
| `PeerRuns.WrapHappens` | daemon/mesh/peer.go:248-258 | a run in which the 2^64 + 1st packet of a session is sealed under the first one's counter again |
| `PeerRuns.CountersAreUsedOnce` | daemon/mesh/peer.go:218-286 | through any failures, restarts and changes of path: if no session is opened twice and none seals more than 2^64 packets, no two packets are sealed, and no two accepted, under one session and counter |
| `PeerRuns.Origins` | daemon/mesh/peer.go:145-286 | a session a link holds was opened on it, a pending handshake was begun on it, and attempts counted were made |
| `Nodes.Node.Do` | daemon/mesh/peer.go:145-337 | one thing done to one link, and noted: every link stays consistent and exactly what all the things noted of it make of a new one, and no address moves |
| `Handlers.Rebuild` | daemon/mesh/mesh.go:537-551 | the tables a rebuild gives index exactly the current peers with valid addresses, whatever the iteration order |
| `Mesh.Mesh.constructor` | daemon/mesh/mesh.go:124-145 | a mesh without peers, with nothing sent or queued |
| `Mesh.Mesh.SendTo` | daemon/mesh/handle.go:527-531 | one datagram is appended to what was written and nothing else changes |
| `Mesh.Mesh.Forward` | daemon/mesh/mesh.go:505-533 | the carried packet goes to the relay sealed under its next counter, or the error says which step failed and how far the counter got |
| `Mesh.Mesh.Deliver` | daemon/mesh/mesh.go:484-500 | the packet goes to the address, or inside a forward to the relay, as Handlers.Deliver gives |
| `Mesh.Mesh.SendPacket` | daemon/mesh/handle.go:500-504 | an envelope of the given type is delivered on the link |
| `Mesh.Mesh.SendData` | daemon/mesh/mesh.go:452-475 | one IP packet is sealed under the next counter and delivered; without a session nothing changes |
| `Mesh.Mesh.Send` | daemon/mesh/mesh.go:392-406 | sent to whoever owns the destination, or refused with nothing changed |
| `Mesh.Mesh.Broadcast` | daemon/mesh/mesh.go:433-449 | one copy to every current peer once, in some order, counting those it was sent to |
| `Mesh.Mesh.ReplyTo` | daemon/mesh/handle.go:508-523 | answered the way it came, and the link is not moved |
| `Mesh.Mesh.Punch` | daemon/mesh/handle.go:477-491 | with an address: a probe is sent and its token waits; without: nothing |
| `Mesh.Mesh.SendKeepalive` | daemon/mesh/handle.go:493-497 | a keepalive is sent and its token waits |
| `Mesh.Mesh.Peers` | daemon/mesh/mesh.go:379-388 | every current peer, once each |
| `Mesh.Mesh.Reindex` | daemon/mesh/mesh.go:537-551 | afterwards the tables hold exactly the current peers with valid addresses |
| `Mesh.Mesh.BeginHandshake` | daemon/mesh/handle.go:391-436 | exactly as Handlers.BeginHandshake: only toward a peer that is not lower, only when an attempt is due, one attempt spent and one init sent |
| `Mesh.Mesh.NextRelay` | daemon/mesh/handle.go:454-467 | none exactly when no candidate is left, and otherwise the candidate with the lowest device id |
| `Mesh.Mesh.TryRelay` | daemon/mesh/handle.go:454-473 | the lowest untried direct peer is asked, and it says whether there was one |
| `Mesh.Mesh.Follow` | daemon/mesh/handle.go:249-257 | the link moves to the address and the tables are rebuilt, if it is new, and otherwise nothing changes |
| `Mesh.Mesh.OpenLink` | daemon/mesh/handle.go:264-268 | the session is opened and a keepalive sent |
| `Mesh.Mesh.HandleInit` | daemon/mesh/handle.go:208-269 | exactly as Handlers.HandleInit: answered only if the message opens with the key of the device it claims, the way it came |
| `Mesh.Mesh.HandleResponse` | daemon/mesh/handle.go:271-303 | exactly as Handlers.HandleResponse: opens the session only if the answer verifies against the pending handshake |
| `Mesh.Mesh.HandleKeepalive` | daemon/mesh/handle.go:307-330 | an ask is answered the way it came and moves no link; an answer closes the token |
| `Mesh.Mesh.Accept` | daemon/mesh/peer.go:262-286 | decryption and replay check of one packet from a peer, with the whole new state |
| `Mesh.Mesh.HandleData` | daemon/mesh/handle.go:333-360 | exactly as Handlers.HandleData: queued if it opens and is new, and the link answers via the relay it came by |
| `Mesh.Mesh.Enqueue` | daemon/mesh/handle.go:348-359 | queued, or dropped when 256 are waiting |
| `Mesh.Mesh.Dequeue` | daemon/mesh/mesh.go:153 | the packet that has waited longest is taken, if one waits |
| `Mesh.Mesh.HandleClose` | daemon/mesh/handle.go:376-385 | the link fails |
| `Mesh.Mesh.Dispatch` | daemon/mesh/handle.go:62-75 | each type to its handler, and nothing for a probe, a forward or an unknown type |
| `Mesh.Mesh.PeerAt` | daemon/mesh/handle.go:620-624 | the peer indexed at an address, if any |
| `Mesh.Mesh.HandleProbe` | daemon/mesh/handle.go:179-201 | exactly as Handlers.HandleProbe: echoed whoever asks, and a handshake begun if the address is a peer's |
| `Mesh.Mesh.DeliverForwarded` | daemon/mesh/handle.go:111-126 | handled as a packet of the peer at the source address, unless that is nobody or the relay itself |
| `Mesh.Mesh.PassOn` | daemon/mesh/handle.go:134-152 | passed on at most once, over a direct link, not back, with one hop fewer |
| `Mesh.Mesh.HandleForward` | daemon/mesh/handle.go:79-106 | opened first; then delivered if it is for this device and passed on if not |
| `Mesh.Mesh.Receive` | daemon/mesh/handle.go:32-58 | one datagram from the socket, sorted to its handler |
| `Mesh.Mesh.TickPeer` | daemon/mesh/handle.go:569-615 | one look at one link: exactly the case the code takes, with the whole new state |
| `Mesh.Mesh.Maintain` | daemon/mesh/handle.go:551-618 | every current peer once, in some order; keepalives go out exactly when 15 seconds have passed since the last |
| `Mesh.Mesh.RestartLink` | daemon/mesh/mesh.go:336-342 | the link starts over and a probe goes out |
| `Mesh.Mesh.RestartLinks` | daemon/mesh/mesh.go:336-342 | every current peer once, in some order |
| `Mesh.Mesh.RetryPeer` | daemon/mesh/mesh.go:353-367 | one link starts over and a handshake is begun; says whether there was such a peer |
| `Mesh.Mesh.SetPeerEndpoint` | daemon/mesh/mesh.go:313-327 | the link moves, the tables follow and a probe goes out; nothing for an unknown peer or an invalid or unchanged address |
| `Mesh.Mesh.AddPeer` | daemon/mesh/mesh.go:271-309 | a key of the wrong size, or no random number, is refused and changes nothing; a new peer gets a link, a place in the tables and a probe; a known one is only repointed, and not while it is open directly |
| `Mesh.Mesh.RemovePeer` | daemon/mesh/mesh.go:370-376 | the peer leaves the tables, and no link is touched |
| `Mesh.BestIsLowest` | daemon/mesh/handle.go:454-467 | what the loop over the peers ends with is the lowest candidate, whatever order the map gave |
| `Mesh.NextCandidate` | daemon/mesh/handle.go:456-463 | one more peer looked at leaves the lowest candidate among those seen |
| `Lookup.AlwaysIndexed` | daemon/mesh/mesh.go:537-551 | in every state of every daemon in any run, the lookup tables index exactly the current peers |
| `Lookup.LookupsAreExact` | daemon/mesh/mesh.go:537-551 | with pairwise distinct addresses, a lookup by virtual IP or by address finds p if and only if p is a current peer that holds it |
| `Lookup.HandleInitIndexes` | daemon/mesh/handle.go:249-257 | a handshake that moves a peer leaves the tables agreeing with the peers |
| `Lookup.AddPeerIndexes` | daemon/mesh/mesh.go:271-309 | an added or repointed peer is in the tables at its addresses |
| `Lookup.FollowIndexes` | daemon/mesh/mesh.go:313-327 | a moved peer is in the tables at its new address |
| `Lookup.ReceiveIndexes` | daemon/mesh/handle.go:32-58 | nothing that arrives makes the tables disagree with the peers |
| `Lookup.ActIndexes` | daemon/mesh/mesh.go:271-376 | no event makes the tables disagree with the peers |
| `Safety.DoneSafe` | daemon/mesh/peer.go:145-337 | an operation that is proven and new keeps a daemon safe: all that was done was allowed, what was written may be said, each accepted packet is queued at most once, and, while no ephemeral key is drawn twice, no session is opened twice |
| `Safety.SessionIsRecorded` | daemon/mesh/peer.go:232-244 | a session a link of a safe daemon holds is on record as opened with that device |
| `Safety.PendingIsOwn` | daemon/mesh/handle.go:391-436 | a pending handshake was begun by an attempt of this daemon, for that device's key, and the device is not lower |
| `Safety.HigherNeverAttempts` | daemon/mesh/handle.go:392-394 | the side with the higher device id has spent no attempt and waits for no answer, in every safe state |
| `Safety.ForwardSafe` | daemon/mesh/mesh.go:505-533 | a forward wraps no forward but one that came in an accepted forward, and is sealed under a recorded session |
| `Safety.SendDataSafe` | daemon/mesh/mesh.go:452-475 | an IP packet is sealed as data, under a recorded session, before it is written |
| `Safety.BroadcastSafe` | daemon/mesh/mesh.go:433-449 | copies for any number of peers are each sealed on their own link |
| `Safety.AttemptSafe` | daemon/mesh/handle.go:391-436 | the init of an attempt is this daemon's own, and its ephemeral key is behind nothing pending or opened |
| `Safety.TryRelaySafe` | daemon/mesh/handle.go:454-473 | asking a relay, which starts the link over, leaves nothing pending twice |
| `Safety.AnswerInitSafe` | daemon/mesh/handle.go:239-268 | the response to an init has its session on record before it is written, and that session was never opened before |
| `Safety.TakeResponseSafe` | daemon/mesh/handle.go:271-303 | the answer to a pending handshake opens a session that was never opened before |
| `Safety.AcceptSafe` | daemon/mesh/peer.go:262-286 | what is accepted was handed to this daemon and is of a recorded session with that peer |
| `Safety.HandleDataSafe` | daemon/mesh/handle.go:333-360 | a data packet is queued right after it is accepted, and that once |
| `Safety.EnqueueSafe` | daemon/mesh/handle.go:351-359 | the queue holds the last of what was ever put on it, and the rest is dropped when 256 wait |
| `Safety.DequeueSafe` | daemon/core/pump.go:129-150 | what the adapter takes is the packet that waited longest |
| `Safety.PassOnSafe` | daemon/mesh/handle.go:134-152 | a packet passed on is the very one that came in the accepted forward |
| `Safety.HandleForwardSafe` | daemon/mesh/handle.go:79-106 | a forward is accepted before it is looked into |
| `Safety.ReceiveSafe` | daemon/mesh/handle.go:32-58 | nothing that can arrive, at any depth of forwarding, makes a daemon unsafe |
| `Safety.TickPeerSafe` | daemon/mesh/handle.go:569-615 | no case of the maintenance loop does |
| `Safety.AddPeerSafe` | daemon/mesh/mesh.go:271-309 | neither does a peer that is added or repointed |
| `Network.RunKeeps` | daemon/mesh/handle.go:208-436 | over a network that loses, repeats, reorders, redirects, alters or invents anything but what only honest keys can make, every daemon of any run is safe and holds only consistent links, what it heard of honest daemons they made, and what it wraps is no forward unless a device that is not honest brought it in |
| `Network.OnlyTheLowerIdOpens` | daemon/mesh/handle.go:387-394 | an init of an honest daemon, wherever it is on the wire, was begun by an attempt of that daemon, and is addressed to a higher device id or to its author's own |
| `Network.SessionsAgree` | daemon/mesh/handle.go:208-303 | every session an initiator has opened with an honest daemon is one that daemon has opened as responder, for the init the initiator wrote |
| `Network.ResponderOpensFirst` | daemon/mesh/handle.go:239-303 | at the step that opens the initiator's end, the responder has opened its end already |
| `Network.HeldIsOpened` | daemon/mesh/peer.go:232-244 | in every reachable state a link is consistent, and a session it holds was opened with that very peer |
| `Network.SaidIsGood` | daemon/mesh/handle.go:208-303 | what is on an honest daemon's wire and takes an honest daemon's keys was made by it: an init by its attempt, a response for a session it opened, a ciphertext by its end |
| `Network.SealsOwnSessions` | daemon/mesh/mesh.go:452-533 | what a daemon seals is of a session between itself and the device of that link |
| `Network.AcceptsOwnSessions` | daemon/mesh/peer.go:262-286 | and so is what it accepts, which was handed to it |
| `Lives.AttemptsAreBounded` | daemon/mesh/handle.go:391-473 | in any run of any number of daemons, every link of every daemon has begun at most 10 handshakes, and 3 more for each relay it tried, since it was last sent direct, and asked no relay twice; the attempts and relays are those its daemon noted as it did them |
| `Lives.InitsAreAttempts` | daemon/mesh/handle.go:391-436 | the inits of a daemon's own toward a device that are anywhere on the wire are no more than the attempts it made toward it |
| `Lives.BeginningIsOneAttempt` | daemon/mesh/handle.go:391-436 | beginning a handshake does nothing, unless it is due on this side: then it is exactly one attempt, whose init is written once or, for want of a path, not at all |
| `Delivery.ForwardsNestOnlyFromOutside` | daemon/mesh/mesh.go:505-533 | in any run every sealed datagram an honest daemon writes is one it sealed, is a forward exactly if it carries one, and wraps a forward only if a device that is not honest brought that very packet in |
| `Delivery.ForwardsNeverNest` | daemon/mesh/handle.go:62-75 | where every peer is honest, no forward that is ever written wraps a forward, whatever the network does |
| `Delivery.NoncesAreUsedOnce` | daemon/mesh/peer.go:246-258 | in any run in which no daemon draws an ephemeral key twice, no two packets of any daemons are sealed under one session and counter while no session seals more than 2^64 |
| `Delivery.PacketsAreAcceptedOnce` | daemon/mesh/peer.go:262-286 | in any run in which a daemon draws no ephemeral key twice, nothing it accepts is accepted again under that session and counter, by it on any link or by any other daemon, through any removals and restarts |
| `Delivery.QueuedAsSentAndOnce` | daemon/mesh/handle.go:333-360 | in any run every packet on an honest daemon's queue from an honest peer is one that peer sealed for it with an IP packet inside, and none is ever queued twice |
| `Delivery.QueueHoldsTheLast` | daemon/mesh/mesh.go:114-153 | the queue holds exactly the plaintexts of the last of them, in order |
| `Endings.HeldUntilEnded` | daemon/mesh/handle.go:239-265 | a link that holds a session holds it after any event, exactly unless that is an init or a close from its peer, a tick after silence, a new address from the server, a retry or a restart |
| `Endings.TogetherUntilEnded` | daemon/mesh/handle.go:239-265 | two ends that hold one session hold it after any event, exactly unless it is one of those at one of them |
| `Endings.EndsMayDiffer` | daemon/mesh/handle.go:239-265 | for any two daemons a run after which their ends hold one session, and an init it has written, arriving once more, after which they hold two |
| `Endings.HandleInitReplaces` | daemon/mesh/handle.go:208-269 | an init that verifies gives its peer's link a new session whatever it held, and any other leaves every link's session |
| `Endings.ReceiveEnds` | daemon/mesh/handle.go:32-126 | a datagram ends a link's session exactly if it, or what it carries to this device, is such an init or a close |
| `Nesting.NestsExactlyIfAsked` | daemon/mesh/handle.go:79-152 | an event makes a daemon write a forward that wraps a forward exactly if it is a peer's forward that opens under a new counter, carries a forward, has a hop left, and is for another peer on an open direct link |
| `Nesting.NestedExactlyIfAsked` | daemon/mesh/handle.go:134-152 | so in any run a daemon writes a forward that wraps a forward exactly if some event asked it to |
| `Nesting.NestingHappens` | daemon/mesh/handle.go:134-152 | a run with two outsiders that ends in a forward around whatever forward one of them has wrapped |
| `Runs.Shake` | daemon/mesh/handle.go:208-305 | for any two daemons that were told of each other and no more a run after which both ends hold one session, just opened, and no other link has moved |
| `RelayRuns.APathOpens` | daemon/mesh/handle.go:454-475 | for any three daemons a run over the network after which the path that RelayedRefinesDirect speaks of stands open |
| `RelayRuns.APacketTravels` | daemon/mesh/handle.go:79-152 | three daemons between which it stands open: after one event each, any IP packet the first sends is on the queue of the last if there is room |
| `Sending.DeliversExactly` | daemon/mesh/mesh.go:484-533 | a packet for a peer is written exactly if there is a path, once, and only then is there no error: to its own address, or inside one forward to its relay |
| `Sending.SendsDataExactly` | daemon/mesh/mesh.go:452-481 | an IP packet is written exactly if the link is open and has a path, once, sealed for that peer |
| `Sending.SendGoesToOwner` | daemon/mesh/mesh.go:392-407 | an IP packet goes to whoever is found at its destination, if that peer is reachable, and to nobody else |
| `Sending.BroadcastReachesAll` | daemon/mesh/mesh.go:433-449 | a broadcast writes one copy for each peer that is reachable, in order, and nothing else, and counts them |
| `Following.LinksPoint` | daemon/mesh/handle.go:249-257 | every link points where it did after an event, exactly unless its peer's init came straight from elsewhere, or the server says where it is |
| `Following.InitIsFound` | daemon/mesh/handle.go:249-257 | a peer whose init verifies is found at the address it came straight from, if nobody else is there |
| `Following.InitOpensLink` | daemon/mesh/handle.go:208-269 | such an init leaves its link open on the session it asks for, pointed where it came from or through its relay, with a keepalive waiting; of other links only counters change |
| `Following.ResponseOpensLink` | daemon/mesh/handle.go:271-303 | a response to the pending handshake leaves the link open, through the relay it came by if it came by one |
| `Following.ResponseGoesBack` | daemon/mesh/handle.go:244-264 | the response to an init is the first thing written for it, to where it came from |
| `Removing.PeersAre` | daemon/mesh/mesh.go:271-376 | the peers after any event: one more if a new device is added, one fewer if it is removed, and the same otherwise |
| `Removing.RemovedIsGone` | daemon/mesh/mesh.go:370-376 | a removed device is in no table, and everything else is as it was |
| `Removing.RemovedIsUnknown` | daemon/mesh/mesh.go:370-376 | what is for it is refused with nothing changed, and what comes from where it was is a stranger's, if nobody shares its addresses |
| `Removing.RemovedStaysGone` | daemon/mesh/mesh.go:370-376 | in any run this lasts until the device is added again, and nothing of its is queued |
| `Removing.QueuedIsOfPeers` | daemon/mesh/handle.go:333-360 | no event queues anything but what arrives, and that of a current peer |
| `Alive.OpenLinkIsAsked` | daemon/mesh/handle.go:586-588 | an open link that was heard from in the last 45 seconds is asked once by its path when keepalives are due, and its token waits; otherwise its tick changes nothing |
| `Alive.SilentLinkStartsOver` | daemon/mesh/handle.go:578-584 | one that was not starts over, straight, with a probe to its address |
| `Alive.WaitingLinkIsProbed` | daemon/mesh/handle.go:613-615 | a link with attempts left and no relay is probed at its address, and its handshake begun there if one is due |
| `Alive.RelayedLinkIsBegun` | daemon/mesh/handle.go:608-611 | a relayed one has its handshake begun through the relay and is not probed |
| `Alive.BeginningWrites` | daemon/mesh/handle.go:391-436 | beginning a handshake writes its init exactly if an attempt is due and there is a path |
| `Alive.OpeningSaysSo` | daemon/mesh/handle.go:493-506 | a link that opens says so with a keepalive by its path, if it has one |
| `Alive.PunchProbes` | daemon/mesh/handle.go:477-491 | a probe goes to the link's address if it has one, and of the link only the tokens that wait change |
| `Alive.AskIsAnswered` | daemon/mesh/handle.go:307-328 | a keepalive is answered with its own token, the way it came, and its peer counts as heard |
| `Alive.AnswerIsHeard` | daemon/mesh/handle.go:307-328 | an answer whose token waits clears it and its peer counts as heard, any other changes nothing, and neither is answered |
| `Alive.ProbeIsEchoed` | daemon/mesh/handle.go:179-202 | a probe is echoed to whoever asks, with its own token, and a handshake that is due with a peer who is there is begun |
| `Alive.EchoBegins` | daemon/mesh/handle.go:179-202 | and once it is back a handshake that is due is begun |
| `Alive.ExchangeIsLive` | daemon/mesh/handle.go:307-328 | a keepalive that gets through in time leaves both ends on their session, each just heard from, and what was delivered had been written for it |
| `Alive.KeptAlive` | daemon/mesh/handle.go:567-588 | two open ends stay on their session through any number of ticks and keepalives, lost or not, so long as no tick comes more than 45 seconds after its end was last asked or answered |
| `Alive.PromptIsInTime` | daemon/mesh/mesh.go:33-42 | keepalives every 15 seconds are in time |
| `Upkeep.EveryoneIsAsked` | daemon/mesh/handle.go:561-588 | in a round in which keepalives are due every open straight link is asked at its address, whatever the round does to the others |
| `Upkeep.AttemptIsDue` | daemon/mesh/handle.go:396-409 | an attempt is due on a link that is not open, has somewhere to go, has had fewer than ten, or three through its relay, and waits for none begun within a second |
| `Upkeep.OpenedCountsAsHeard` | daemon/mesh/peer.go:232-246 | a link that is opened starts clean, counts as heard from and is given 45 seconds |
| `Upkeep.StartedOverIsNew` | daemon/mesh/peer.go:160-231 | starting over leaves a link nothing but its address, and failing leaves it no session |
| `Upkeep.RelayedStartsOver` | daemon/mesh/peer.go:176-188 | a link that is relayed starts over but for the relays it has tried |
| `Upkeep.TokensAreRemembered` | daemon/mesh/peer.go:297-308 | a token goes on waiting when another is added, unless more than 32 do |
| `Upkeep.LowestIsAsked` | daemon/mesh/handle.go:454-475 | somebody is asked to carry a link exactly if somebody could, and that is the lowest who could |
| `Upkeep.AllAreProbed` | daemon/mesh/mesh.go:336-342 | when the machine's address changes every peer is probed, in order |
| `Upkeep.AllStartOver` | daemon/mesh/mesh.go:336-342 | and every link of theirs starts over and no other |
| `Upkeep.RetryProbesAndBegins` | daemon/mesh/mesh.go:353-367 | a link that is retried is probed, and its first attempt begun if this side begins them |
| `Upkeep.MovedIsProbed` | daemon/mesh/mesh.go:313-328 | a peer that moved is probed where it went |
| `Upkeep.MovedIsFound` | daemon/mesh/mesh.go:313-328 | and is found there if nobody else is |
| `Upkeep.NewIsProbed` | daemon/mesh/mesh.go:271-309 | a new peer is on a link as new and is probed if it has an address |
| `Upkeep.NewIsFound` | daemon/mesh/mesh.go:271-309 | and is found there if nobody else is |
| `Upkeep.OthersAreDropped` | daemon/mesh/handle.go:32-60 | a datagram of another version is dropped, and what a forward brings from nobody, from the relay itself or of another version |
| `Upkeep.QueueIsBounded` | daemon/mesh/handle.go:347-359 | the queue takes 256 packets and drops what comes when it is full |
| `Relaying.PassingOnSpendsAHop` | daemon/mesh/handle.go:79-152 | a daemon that is not the destination sends a forwarded packet on at most once, to another peer, with one hop fewer and nothing else changed, and hands nothing up |
| `Relaying.ForwardingEnds` | daemon/mesh/handle.go:128-152 | over any topology and any tables a packet with hop limit h is passed on at most h times, and what it carries is the same at every hop |
| `Relaying.DeliverWrapsOnce` | daemon/mesh/mesh.go:484-500 | a packet is written as it is, or inside one forward with one hop to spend, or not at all |
| `Relaying.DataFits` | protocol/transport/wire.go:128-156 | an IP packet of at most 1400 bytes becomes a datagram whose bytes, as the wire format encodes them around a cipher that adds 16, are at most 1436 on a direct link and 1481 on a relayed one |
| `Relaying.PassingOnKeepsSize` | daemon/mesh/handle.go:134-152 | passing on does not change how many bytes a datagram has |
| `Relaying.OtherEndOpens` | daemon/mesh/peer.go:262-286 | a packet sealed by the other end under a counter still acceptable opens, and changes one link |
| `Relaying.SenderWraps` | daemon/mesh/mesh.go:452-533 | a relayed link's data packet is written as one forward to the relay |
| `Relaying.CarriesAnything` | daemon/mesh/handle.go:79-152 | whatever a peer asks a daemon to carry, a forward too, is passed on unchanged with one hop fewer, if a hop is left and the destination is another peer on an open direct link |
| `Relaying.RelayPasses` | daemon/mesh/handle.go:79-152 | the relay opens that forward and writes the same packet on to the destination |
| `Relaying.ReceiverUnwraps` | daemon/mesh/handle.go:111-126 | the destination opens it and queues the plaintext |
| `Relaying.ReceiverOpens` | daemon/mesh/handle.go:333-360 | the same data packet off the wire queues the same plaintext |
| `Relaying.RelayedRefinesDirect` | daemon/mesh/handle.go:79-152 | for any IP packet: through the relay the same bytes end on the receiver's queue, from the same peer, as over a direct link; the only differences are the relay's own link and that the link to the sender answers via the relay |
| `Relaying.DirectSendsThePacketItself` | daemon/mesh/mesh.go:484-500 | a daemon that holds the same session with the same counter on a direct link writes that data packet itself |
| `Retry.TickProgress` | daemon/mesh/handle.go:551-618 | a tick half a second or more after the last, of a link with an address and nothing arriving, lowers a measure over relays, attempts and waiting, or gives up |
| `Retry.SpentProgress` | daemon/mesh/handle.go:593-603 | a link whose attempts are spent asks an untried relay while there is one, and is marked failed after |
| `Retry.GivenUpExactlyIfOpener` | daemon/mesh/handle.go:391-618 | in any safe state: an unanswered link with an address and a fixed set of direct peers is marked failed, every one of them tried, within 8 ticks for each and 22 more, if and only if this side is the one that opens handshakes or it was given up on before |
| `Retry.WaitingTick` | daemon/mesh/handle.go:569-615 | the other side's tick spends no attempt, and leaves a link given up on exactly if it was |
| `Retry.TheOtherSideWaits` | daemon/mesh/handle.go:391-394 | from when a peer with a lower device id is added, through any number of ticks with nothing arriving, its link stays connecting |
| `Retry.BeginHandshakeCounts` | daemon/mesh/handle.go:391-436 | beginning a handshake spends one attempt of its own link and, of the other links, at most counters |
| `Transport.DecodeInvertsEncode` | protocol/transport/wire.go:86-116 | an encoded envelope decodes to itself at the supported version, and to its version's error at any other |
| `Transport.EncodeInvertsDecode` | protocol/transport/wire.go:86-116 | a packet that decodes is exactly the encoding of what it decodes to |
| `Transport.PingRoundTrip` | protocol/transport/payloads.go:34-52 | decoding inverts encoding, whatever follows |
| `Transport.HandshakeInitRoundTrip` | protocol/transport/payloads.go:69-104 | decoding inverts encoding on every encodable value |
| `Transport.HandshakeInitTruncated` | protocol/transport/payloads.go:84-104 | every strict prefix of an encoding is refused |
| `Transport.HandshakeResponseRoundTrip` | protocol/transport/payloads.go:114-134 | decoding inverts encoding on every encodable value |
| `Transport.HandshakeResponseTruncated` | protocol/transport/payloads.go:124-134 | every strict prefix of an encoding is refused |
| `Transport.ForwardRoundTrip` | protocol/transport/payloads.go:169-193 | decoding inverts encoding of a forward between IPv4 addresses with at least a header inside |
| `Transport.EncodeForwardInvertsDecode` | protocol/transport/payloads.go:169-193 | a payload that decodes is exactly the encoding of what it decodes to |
| `Transport.DecodeRefuses` | protocol/transport/wire.go:99-116 | what is shorter than an envelope, does not begin with its two bytes or is of another version is refused as that |
| `Transport.EncodeRefuses` | protocol/transport/payloads.go:69-181 | what does not fit its length field is not encoded, nor a forward between other than IPv4 addresses, and everything else is |
| `Transport.OnlyOneIsReply` | protocol/transport/payloads.go:44-52 | only the byte 1 makes a ping a reply |
| `Examples.Envelope` | protocol/transport/wire.go:86-97 | one envelope byte for byte |
| `Examples.Kinds` | protocol/transport/wire.go:28-50 | the seven types of packet by number |
| `Examples.Payloads` | protocol/transport/payloads.go:34-181 | one payload of each kind byte for byte |
| `Bytes.Uint16Inverse` | protocol/transport/wire.go:86-116 | 16-bit big-endian reading and writing undo each other |
| `Bytes.Uint32Inverse` | protocol/transport/wire.go:86-116 | 32-bit big-endian reading and writing undo each other |
| `Bytes.Uint64Inverse` | protocol/transport/wire.go:86-116 | 64-bit big-endian reading and writing undo each other |
| `Netip.LessTotal` | daemon/mesh/handle.go:392 | of two distinct device ids one is lower |
| `Netip.LessAsymmetric` | daemon/mesh/handle.go:392 | and only one |
| `Netip.LessTransitive` | daemon/mesh/handle.go:459-461 | lower is transitive, which is what makes the lowest candidate one |
| `Netip.LessDecides` | daemon/mesh/handle.go:391-394 | ids are compared byte by byte: the first that differs decides, and a beginning of an id is lower than it |
| `Stun.NewRequest` | daemon/stun/stun.go:51-64 | a header with the binding request type, no attributes, the magic cookie and the transaction id, read back |
| `Stun.ParseResponse` | daemon/stun/stun.go:81-138 | on any bytes whatever the loop stays in bounds, ends, and returns what Stun.Answer says |
| `Stun.ParseAddress` | daemon/stun/stun.go:140-189 | the in-place XOR loop gives the address that Stun.AddressIn reads |
| `Stun.Uncover` | daemon/stun/stun.go:166-170 | every byte is XORed with the key byte at its place, and no other changes |
| `Stun.XorBitsTwice` | daemon/stun/stun.go:156-158 | exclusive or undoes itself on numbers of n bits |
| `Stun.AddressRoundTrip` | daemon/stun/stun.go:140-189 | an address laid out as section 15.1 or 15.2 of RFC 5389 has it, IPv4 or IPv6, hidden or not, reads as itself |
| `Stun.PrintedHead` | daemon/stun/stun.go:101-128 | the first attribute of a printed list is read with its own type, length and value, and the rest follows the padding |
| `Stun.FirstXorDecides` | daemon/stun/stun.go:98-138 | the first XOR-MAPPED-ADDRESS decides a reply, as an error if it cannot be read |
| `Stun.LastMappedDecides` | daemon/stun/stun.go:98-138 | without one, the last MAPPED-ADDRESS that can be read does |
| `Stun.NoAddressFails` | daemon/stun/stun.go:98-138 | without either the reply is an error |
| `Stun.OtherRepliesAreRefused` | daemon/stun/stun.go:88-90 | a reply with another transaction id is refused |
| `Stun.RequestsAreNotPackets` | daemon/stun/stun.go:69-77 | a request looks like STUN and does not decode as a packet of the mesh |
| `Stun.PacketsAreNotStun` | daemon/stun/stun.go:66-77 | no encoded packet of the mesh looks like STUN |
| `Stun.NeverBoth` | daemon/mesh/handle.go:29-36 | nothing at all both looks like STUN and decodes as a packet |
| `Stun.MalformedIsRefused` | daemon/stun/stun.go:69-100 | byte for byte: what is no STUN, what is no success, and what is cut short is refused as that |
| `Stun.MalformedInside` | daemon/stun/stun.go:103-175 | an attribute that runs past the end is refused, and an address that is cut short or of another family |
| `Examples.Request` | daemon/stun/stun.go:51-64 | one request byte for byte |
| `Examples.Reply` | daemon/stun/stun.go:81-175 | one reply byte for byte, with the address of section 2.2 of RFC 5769 |
| `Examples.MappedReply` | daemon/stun/stun.go:103-138 | one MAPPED-ADDRESS byte for byte |
| `Pump.BroadcastOf` | daemon/core/pump.go:212-221 | the IPv4 address with every host bit set, and no address exactly if the prefix is not an IPv4 one |
| `Pump.BroadcastIsLast` | daemon/core/pump.go:210-221 | it belongs to the subnet and no address of the subnet is higher |
| `Pump.AdjustChecksum` | daemon/core/pump.go:304-314 | the word loop and the carry loop compute the incremental update, without 32-bit overflow |
| `Pump.Readdress` | daemon/core/pump.go:281-295 | the packet is edited in place into the readdressed one |
| `Pump.LocaliseMulticast` | daemon/core/pump.go:258-296 | any packet becomes, in place, exactly what Pump.Localised says, and one that is not a whole UDP datagram to a group is untouched |
| `Pump.OnlyThreeFieldsChange` | daemon/core/pump.go:281-295 | no byte outside the destination and the two checksum fields changes, and the destination is the local address |
| `Pump.HeaderStaysSound` | daemon/core/pump.go:281-285 | a sound header stays sound and its checksum equals a full recomputation for the new destination |
| `Pump.UdpStaysSound` | daemon/core/pump.go:289-295 | a sound UDP checksum stays sound wherever the datagram ends and is never zero, and an absent one stays zero |
| `Pump.ReaddressedForOne` | daemon/core/pump.go:145-148 | what is readdressed was addressed to the whole LAN |
| `Pump.EveryoneIs` | daemon/core/pump.go:200-208 | byte for byte who is everyone: the subnet's broadcast address, 255.255.255.255, and every group address of IPv4 or IPv6 |
| `Pump.DestinationIs` | daemon/core/pump.go:324-332 | bytes 16 to 19 of an IPv4 packet of at least 20 bytes, and nothing otherwise |
| `Pump.WholeDatagramsAreReaddressed` | daemon/core/pump.go:258-274 | byte for byte: a whole UDP datagram to an IPv4 group reaches an IPv4 machine under its own address |
| `Pump.OthersAreLeftAlone` | daemon/core/pump.go:258-274 | and every other packet as it is |
| `Examples.Localise` | daemon/core/pump.go:258-302 | one discovery packet byte for byte, before and after |
| `Examples.DiscoveryIsSound` | daemon/core/pump.go:298-316 | and its two checksums are right |
| `Examples.Subnet` | daemon/core/pump.go:210-221 | 192.168.7.9/24 runs from 192.168.7.0 to 192.168.7.255 |
| `Checksums.FoldIsRemainder` | daemon/core/pump.go:310-313 | folding carries is the remainder by 65535, with all ones for a zero that was not empty |
| `Checksums.AdjustedIsSound` | daemon/core/pump.go:304-314 | the incremental update of RFC 1624 section 3 gives the checksum that a full sum gives, and leaves the sum sound |
| `Checksums.WordSumConcat` | daemon/core/pump.go:306-309 | the word sum of two pieces is the sum of their sums, if the first is of even length |
| `Subnets.ContainsRange` | daemon/core/pump.go:212-221 | a prefix contains exactly the addresses from its network address to its broadcast address |
| `Records.FreeIsLowest` | server/storage/groups.go:283-302 | the address found is the lowest free one strictly between network and broadcast, and none is found exactly when all are taken |
| `RecordRuns.CreateKeeps` | server/storage/groups.go:69-108 | creating a group keeps the invariant, whatever is already stored |
| `RecordRuns.JoinKeeps` | server/storage/groups.go:140-231 | a join or rejoin keeps the invariant |
| `RecordRuns.LeaveKeeps` | server/storage/groups.go:408-430 | leaving keeps the invariant and no session of the membership is left |
| `RecordRuns.RemoveKeeps` | server/storage/groups.go:455-487 | removing a member keeps the invariant |
| `RecordRuns.TransferKeeps` | server/storage/groups.go:525-549 | a transfer, to oneself included, keeps the invariant: no group gets a second owner row |
| `RecordRuns.ResetKeeps` | server/storage/invites.go:39-73 | a new invite code keeps the codes distinct |
| `RecordRuns.DeleteKeeps` | server/storage/groups.go:573-588 | deleting a group takes its memberships and sessions with it |
| `RecordRuns.ConnectKeeps` | server/api/sessions.go:14-54 | connecting keeps sessions injecting into active memberships |
| `RecordRuns.MoveKeeps` | server/storage/sessions.go:143-151 | publishing an endpoint keeps the invariant |
| `RecordRuns.TouchKeeps` | server/storage/sessions.go:154-160 | a heartbeat keeps the invariant |
| `RecordRuns.DisconnectKeeps` | server/storage/sessions.go:164-170 | disconnecting keeps the invariant |
| `RecordRuns.ExpireKeeps` | server/storage/sessions.go:175-220 | expiry keeps the invariant |
| `RecordRuns.RunKeeps` | server/storage/groups.go:140-302 | after any sequence of transactions: rows belong to groups and hold host addresses, active members of a group hold distinct ones, no group has two owner rows, the banned are out, every session is of an active member of its own group, and no membership has two |
| `MemberLaws.JoinAddress` | server/storage/groups.go:140-302 | a join returns the former address unless another active member holds it, otherwise the lowest free one, and fails as full, changing nothing, exactly when neither exists |
| `MemberLaws.LeavingIsUndone` | server/storage/groups.go:133-231 | leaving and joining again gives back the same membership, role and address |
| `MemberLaws.TransferLeaves` | server/storage/groups.go:525-549 | a successful transfer leaves exactly the target as owner if the target is somebody else, and nobody if it is the owner |
| `MemberLaws.SelfTransferLeavesNobody` | server/storage/groups.go:531-546 | a concrete run after which a group exists and has no owner |
| `MemberLaws.RemovalBans` | server/storage/groups.go:455-487 | a removal bans the device and leaves it no session |
| `MemberLaws.BannedStays` | server/storage/groups.go:133-150 | no transaction lifts a ban while the group exists |
| `MemberLaws.RemovedStaysOut` | server/storage/groups.go:133-150 | through any further transactions a removed device is never an active member again, nor online, while the group exists |
| `MemberLaws.OnlineIsBelowMembers` | server/storage/groups.go:306-341 | a group never has more sessions than active members |
| `SessionLaws.RefusedExactly` | server/storage/groups.go:408-588 | a transaction is carried out exactly if its guards hold, and one that is refused changes nothing |
| `SessionLaws.RefusalsSayWhy` | server/storage/groups.go:434-452 | and the caller is told which guard it was |
| `SessionLaws.OthersStay` | server/storage/groups.go:69-588 | a transaction leaves every row and every group that it does not speak of |
| `SessionLaws.SessionsAre` | server/storage/sessions.go:45-220 | after a transaction there are exactly the sessions it opened and those there were that it did not end, each as it was but for an endpoint or a heartbeat of its own |
| `SessionLaws.SessionsOverRuns` | server/storage/sessions.go:45-220 | after any sequence of transactions there are exactly the sessions that were opened and not replaced, left, removed, deleted, closed or expired since |
| `SessionLaws.ConnectingStoresOne` | server/storage/sessions.go:45-81 | connecting stores what it returns, keeps every session of another membership as it was, and leaves no other |
| `SessionLaws.LeavingEndsItsOwn` | server/storage/groups.go:408-431 | leaving ends the sessions of that membership and touches no other |
| `SessionLaws.RemovingEndsItsOwn` | server/storage/groups.go:455-487 | and so does removing |
| `SessionLaws.JoinedRow` | server/storage/groups.go:168-233 | whoever joins has one row, new or the old one picked up again, active and not banned |
| `SessionLaws.MakerOwns` | server/storage/groups.go:69-108 | whoever makes a group owns it, with the lowest host address of its subnet |
| `SessionLaws.LeaversKeepTheirRow` | server/storage/groups.go:408-487 | whoever leaves keeps everything but being there, and whoever is removed is banned besides |
| `SessionLaws.TransferChangesRoles` | server/storage/groups.go:525-549 | handing over changes nothing of any row but its role |
| `SessionLaws.ResetGivesTheCode` | server/storage/invites.go:39-75 | the owner's new code opens the group and no other, and the old one opens none |
| `SessionLaws.DeletionIsWhole` | server/storage/groups.go:573-588 | a deleted group is gone with every row and session of it, and nothing else is |
| `SessionLaws.HeartbeatsCount` | server/storage/sessions.go:154-220 | a session outlives an expiry exactly if it was heard from after the cutoff |
| `SessionLaws.PublishedIsSeen` | server/storage/sessions.go:143-152 | an endpoint that is published is the session's, and counts as a heartbeat |
| `Storage.TakenAddresses` | server/storage/groups.go:260-278 | exactly the addresses that active members of the group hold |
| `Storage.FindFreeAddress` | server/storage/groups.go:283-302 | the loop finds what Records.FreeAddress names, and stops before the broadcast address and at the end of the address space |
| `Storage.Store.InsertMembership` | server/storage/groups.go:168-231 | the rows and the result of Database.Insert, with the address cleared before it is chosen |
| `Storage.Store.FreeInviteCode` | server/storage/invites.go:75-93 | the first of five draws that no group has, and none exactly if every one is taken |
| `Storage.Store.CreateGroup` | server/storage/groups.go:69-108 | tables and result of Database.CreateGroup with the first free code drawn; a failure, of five draws too, commits nothing |
| `Storage.Store.AddMembership` | server/storage/groups.go:140-166 | tables and result of Database.AddMembership; a banned device is refused |
| `Storage.Store.RevokeMembership` | server/storage/groups.go:408-430 | tables and result of Database.RevokeMembership |
| `Storage.Store.RemoveMember` | server/storage/groups.go:455-487 | tables and result of Database.RemoveMember |
| `Storage.Store.TransferOwnership` | server/storage/groups.go:525-549 | tables and result of Database.TransferOwnership: promote, then demote |
| `Storage.Store.ResetInviteCode` | server/storage/invites.go:39-53 | the owner gets the first free code drawn and nobody else any; a failure, of five draws too, changes nothing |
| `Storage.Store.DeleteGroup` | server/storage/groups.go:573-588 | the group, its memberships and its sessions are gone |
| `Storage.Store.HandleCreateSession` | server/api/sessions.go:14-31 | an active member gets a session in place of the one it had, and anybody else nothing |
| `Storage.Store.CreateSession` | server/storage/sessions.go:45-80 | the membership's sessions are replaced by one new one |
| `Storage.Store.SetSessionEndpoint` | server/storage/sessions.go:143-151 | the session's endpoint and time change, or nothing if it is gone |
| `Storage.Store.TouchSession` | server/storage/sessions.go:154-160 | the session's time changes, or nothing if it is gone |
| `Storage.Store.DeleteSession` | server/storage/sessions.go:164-170 | the session is gone, or nothing changes |
| `Storage.Store.FindStale` | server/storage/sessions.go:187-209 | every session not heard from since the cutoff, once, with its group and device |
| `Storage.Store.ExpireSessions` | server/storage/sessions.go:175-220 | what is returned is exactly what is deleted, each once |
| `Storage.Store.Members` | server/storage/groups.go:357-379 | each active member exactly once, oldest first, online if and only if it has a session |
| `Storage.Store.JoinSessions` | server/storage/groups.go:361-362 | the left join gives one row for a member, never two |
| `Storage.Store.MembershipsByDevice` | server/storage/groups.go:306-341 | each of the device's groups once, oldest membership first, with its counts, and never more online than members |
| `Storage.Store.PeersInGroup` | server/storage/sessions.go:107-138 | each other online member of the group exactly once, by time of connecting, with its address and endpoint |
| `Storage.OldestFirst` | server/storage/groups.go:363-364 | every key once, in the order of its time |
| `Storage.JoinFinds` | server/storage/sessions.go:187-191 | the join on the membership id finds the one active member a session belongs to |
| `Ownership.OneOwnerUnlessHandedToSelf` | server/storage/groups.go:525-549 | after any sequence of transactions an existing group has exactly one row with the owner role, or none, and none if and only if it was handed to its own owner since it was made; so never one again after that |
| `Ownership.LedExactly` | server/storage/groups.go:525-549 | it has an owner who is an active member if and only if it was not, and that row is not revoked |
| `Ownership.LedChanges` | server/storage/groups.go:408-549 | a group loses an owner who is there only when the owner leaves or hands it to itself, and gets one again only when the owner comes back |
| `Ownership.OwnerMayLeave` | server/storage/groups.go:408-430 | a run after which a group exists, has its owner row, and nobody active runs it |
| `Ownership.OwnersAfter` | server/storage/groups.go:69-549 | what each transaction makes of the owner rows of a group |
| `Adapter.InternetHolder` | daemon/tun/multicast_windows.go:80-89 | the loop finds the holder of the best default route, the first of equals |
| `Adapter.MulticastClaims` | daemon/tun/multicast_windows.go:55-105 | every live interface's claim, in the order of the routes, with the interface that carries the internet marked, or the error in reading a table |
| `Adapter.FindMoves` | daemon/tun/multicast_windows.go:158-196 | the moves and the name that Contest.MovesFor and Contest.HeldBy give, and an error without a route of our own |
| `Adapter.Machine.SetInterfaceMetric` | daemon/tun/multicast_windows.go:218-230 | metric and flag are set, or nothing is and it says so |
| `Adapter.Device.TakeMulticastRoute` | daemon/tun/multicast_windows.go:116-148 | table, notes and result of Contest.Take, or nothing and the error if a table cannot be read |
| `Adapter.Device.YieldBack` | daemon/tun/multicast_windows.go:203-215 | every noted interface is given back in turn and the notes are cleared |
| `Adapter.Device.PreferForMulticast` | daemon/tun/tun_windows.go:173-198 | table, notes and result of Contest.Prefer, and with a table unread those of having no route of our own, but for the error |
| `Adapter.Device.Close` | daemon/tun/tun_windows.go:298-302 | what was moved is given back, once only |
| `ContestLaws.MovesAre` | daemon/tun/multicast_windows.go:172-193 | a rival is moved exactly when the tunnel does not beat it and it does not carry the internet |
| `ContestLaws.PastIsPast` | daemon/tun/multicast_windows.go:189-192 | the new metric puts the rival past the tunnel and raises it, without wrapping, if the totals fit 32 bits |
| `ContestLaws.TunnelWins` | daemon/tun/tun_windows.go:173-198 | with one claim per interface and totals that fit, the tunnel is strictly below every rival that neither carries the internet nor is refused, and below everyone when no name comes back |
| `ContestLaws.NobodyHeld` | daemon/tun/tun_windows.go:161-163 | an empty name means nobody is left holding the route |
| `ContestLaws.WayOutStays` | daemon/tun/multicast_windows.go:75-89 | the interface that holds the best default route holds it still |
| `ContestLaws.GivenBackIsOwed` | daemon/tun/multicast_windows.go:203-215 | whatever Windows refuses on the way: any sequence of calls that ends with switching off or closing leaves every rival the row it had at first, or when a give-back to it was last refused, and nothing noted |
| `ContestLaws.GivenBackExactlyUnlessRefused` | daemon/tun/multicast_windows.go:203-215 | if the totals always fit, a rival is then as it was at first if and only if no give-back of what was noted of it was refused |
| `ContestLaws.RaisedForGood` | daemon/tun/multicast_windows.go:203-215 | a run that leaves a rival's metric raised: on, off while Windows refuses it, closed |
| `ContestLaws.TakeTracks` | daemon/tun/multicast_windows.go:116-148 | what is moved is noted with what it had |
| `ContestLaws.EverythingIsGivenBack` | daemon/tun/tun_windows.go:173-198 | with nothing refused, any sequence of calls that ends with switching off or closing leaves every rival with its first metric and flag, whether the totals fit or not |
| `ContestLaws.OwnRowFollowsSwitch` | daemon/tun/tun_windows.go:173-198 | the tunnel's own metric is the floor if the last switch that was not refused was on and Windows's own to choose again if it was off, and it is never noted as moved |
| `ContestLaws.DownIsLeftAlone` | daemon/tun/multicast_windows.go:61-68 | an interface that is down holds and claims nothing and is left alone |
| `Limiter.FilterInPlace` | server/api/middleware.go:74-79 | the readings after the cutoff are moved to the front of the very array they are read from, in order |
| `Limiter.Append` | server/api/middleware.go:84 | one reading more at the end, in place or in a larger copy |
| `Limiter.RateLimiter.Allow` | server/api/middleware.go:67-86 | every key's list and the answer are those of Limiter.Step |
| `Limiter.AllowedIffRoom` | server/api/middleware.go:67-86 | for clock readings that never run back, an attempt is allowed if and only if fewer than the limit were allowed in the window that ends now |
| `Limiter.WindowsHold` | server/api/middleware.go:51-86 | every half-open window of the given length holds at most the limit of allowed attempts of a key |
| `Limiter.StoredIsRecent` | server/api/middleware.go:74-84 | a key's list holds exactly its allowed attempts that later readings can still see |
| `Limiter.NoLimitNoAttempts` | server/api/middleware.go:80-83 | a limit that is not positive allows nothing |

## Left out

- Noise, AEAD, key generation and the size check on keys: symbolic. A message can be read only by the key
  it was written for, an answer only against its init, a ciphertext only by the other end under its header
  and counter. Failures of the random source and of the cipher are not modelled.
- Session.Session: sealing and opening set a nonce on cipher state each time they are called, so the state
  is never observed, and the session is a value.
- Session.HandshakeState: the Noise library's errors for messages out of turn are one error here.
- Packets.Body: a body that does not decode for its type is one value, and the codec is proved separately
  in Transport on bytes; bodies of different types are told apart by type, not by bytes.
- Mesh.Mesh.SendTo: a write to the socket does not fail, and the log of writes stands for the socket.
- Mesh.Mesh.AddPeer: a key of the wrong size is none at all, and so is a sender id that could not be drawn;
  the nickname is not kept.
- Mesh.Mesh.Receive: the branch that hands STUN replies to the request waiting for them; Stun has the bytes.
- Latency values, traffic counters, the time of the last probe, drop accounting, the list of strangers,
  reports to the user interface and logging.
- STUN queries from the mesh (waiters, retries, name resolution): only requests and replies as bytes.
- Data races inside a method, and the gap in `accept` named above.
- Peers.Peer.Accept: one step, where the code releases its lock between decrypting and checking.
- Records.Group: a group keeps its subnet and code; its name, icon, colour and creator are shown and
  decide nothing. Renaming and appearance are left out, devices and tokens too.
- Storage.Store.InsertMembership: ids are drawn by the caller, and one in use is refused as the database
  would; driver errors are left out.
- Storage.Store.RevokeMembership: the code revokes and ends sessions in two statements outside a
  transaction; here they are one step, as every handler is.
- Storage.FindFreeAddress: subnets are IPv4 prefixes that parsed.
- Storage.Store.SetSessionEndpoint: that the session belongs to the device that asks is checked by the
  handler before and is left out, as for heartbeat and disconnect.
- Limiter.WindowsHold: clock readings are taken in the order of the lock.
- Adapter.Machine: reading a table fails or not for as long as the machine stays as it is.
- ContestLaws.TunnelWins: one claim per interface and totals that fit 32 bits, as the arithmetic wraps.
- The rest of the daemon's core, IPC, the realtime hub, the Windows client, the installer, migrations.
