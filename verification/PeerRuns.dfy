/** One link over its whole life: the operations on it, one by one, and what any proper sequence of them
    does. An operation that seals or opens a packet names the very packet, so that a sequence says
    everything a link has done. */
module PeerRuns {
  import opened Netip
  import opened Packets
  import opened Peers
  import opened Replay
  import opened Session
  import opened Wrappers
  import T = Transport

  datatype Op =
    | SetEndpoint(to: AddrPort)
    | Restart
    | RelayThrough(relay: Peer)
    | AnswerVia(carrier: Peer)
    | Open(session: Session, openedAt: Time)
    | Seal(text: Text)
    | Accept(text: Text, heardAt: Time)
    | Heard(at: Time)
    | Expect(token: uint64, askedAt: Time)
    | Measure(echo: uint64, echoedAt: Time)
    | Fail
    | Attempt(handshake: Option<Handshake>, begunAt: Time)

  /** When an operation may be done. A relay is asked once, an attempt is begun when one is due, a packet
      is sealed by the open session under its next counter, and one is accepted if it opens and is new. */
  ghost predicate Allowed(l: Link, e: Op) {
    && (e.RelayThrough? ==> e.relay.deviceID !in l.relaysTried)
    && (e.Seal? ==> l.session == Some(e.text.session) && e.text.counter == e.text.header.counter == l.counter)
    && (e.Accept? ==> l.Accept(e.text.header, SealedBody(e.text), e.heardAt).1.Success?)
    && (e.Attempt? ==> l.MayAttempt(e.begunAt))
  }

  /** What an operation makes of a link. */
  ghost function After(l: Link, e: Op): Link {
    match e
    case SetEndpoint(to) => l.SetEndpoint(to)
    case Restart => l.Restart()
    case RelayThrough(relay) => l.RelayThrough(relay)
    case AnswerVia(carrier) => l.AnswerVia(carrier)
    case Open(session, now) => l.Open(session, now)
    case Seal(_) => l.Counted()
    case Accept(text, now) => l.Accept(text.header, SealedBody(text), now).0
    case Heard(now) => l.Heard(now)
    case Expect(token, now) => l.Expect(token, now)
    case Measure(echo, now) => l.Measure(echo, now)
    case Fail => l.Fail()
    case Attempt(h, now) =>
      l.(handshakes := l.handshakes + 1, lastHandshake := Some(now), handshake := if h.Some? then h else l.handshake)
  }

  lemma AfterKeeps(l: Link, e: Op)
    requires l.Consistent() && Allowed(l, e)
    ensures After(l, e).Consistent()
  {}

  /** A link, and what was begun and asked since it was last sent direct. */
  datatype Life = Life(link: Link, begun: seq<Option<Handshake>>, asked: seq<DeviceId>)

  ghost function Step(v: Life, e: Op): Life {
    var l := After(v.link, e);
    match e
    case SetEndpoint(to) => if v.link.endpoint == to then v else Life(l, [], [])
    case Restart => Life(l, [], [])
    case RelayThrough(relay) => v.(link := l, asked := v.asked + [relay.deviceID])
    case Attempt(h, _) => v.(link := l, begun := v.begun + [h])
    case _ => v.(link := l)
  }

  /** The life of a link from when it was made, without an address, through some operations. */
  ghost function Run(es: seq<Op>): Life {
    if es == [] then Life(NewLink(NO_ENDPOINT), [], []) else Step(Run(es[..|es| - 1]), es[|es| - 1])
  }

  /** Every operation was done when it might be. */
  ghost predicate Proper(es: seq<Op>) {
    es != [] ==> Proper(es[..|es| - 1]) && Allowed(Run(es[..|es| - 1]).link, es[|es| - 1])
  }

  /** A link is what these operations, each done when it might be, made of a new one. */
  ghost predicate Reached(es: seq<Op>, l: Link) {
    Proper(es) && Run(es).link == l
  }

  lemma StepIsAfter(v: Life, e: Op)
    ensures Step(v, e).link == After(v.link, e)
  {
    hide Link.Consistent;
  }

  lemma ReachedNext(es: seq<Op>, l: Link, e: Op)
    requires Reached(es, l) && Allowed(l, e)
    ensures Reached(es + [e], After(l, e))
  {
    hide Allowed, After, Step;
    StepIsAfter(Run(es), e);
    assert (es + [e])[..|es|] == es;
  }

  /** The first operation on a link that is added points it at its address. */
  lemma ReachedFirst(endpoint: AddrPort)
    ensures Reached([SetEndpoint(endpoint)], NewLink(endpoint))
  {
    var es := [SetEndpoint(endpoint)];
    assert es[..0] == [];
    assert Run([]).link == NewLink(NO_ENDPOINT);
  }

  lemma {:induction false} ProperPrefix(es: seq<Op>, n: nat)
    requires Proper(es) && n <= |es|
    ensures Proper(es[..n])
    ensures n < |es| ==> Allowed(Run(es[..n]).link, es[n])
  {
    if n == |es| {
      assert es[..n] == es;
    } else {
      var front := es[..|es| - 1];
      ProperPrefix(front, n);
      assert es[..n] == front[..n];
      if n == |front| { assert front[..n] == front; }
    }
  }

  ghost predicate Distinct<T>(s: seq<T>) {
    forall i, j | 0 <= i < j < |s| :: s[i] != s[j]
  }

  lemma DistinctAppend<T>(s: seq<T>, x: T)
    requires Distinct(s) && x !in s
    ensures Distinct(s + [x])
  {}

  // ----- the state of a link, and how often it is tried -----

  /** The handshakes begun before the present path was chosen leave room for those it may still begin. */
  ghost predicate Budgeted(v: Life) {
    var l := v.link;
    && l.Consistent()
    && l.handshakes <= |v.begun|
    && (l.via == null ==> v.asked == [] && |v.begun| == l.handshakes)
    && (l.via != null ==>
          |v.begun| - l.handshakes + MAX_RELAY_HANDSHAKES <= MAX_HANDSHAKES + MAX_RELAY_HANDSHAKES * |l.relaysTried|)
    && |v.begun| <= MAX_HANDSHAKES + MAX_RELAY_HANDSHAKES * |l.relaysTried|
    && Distinct(v.asked) && (forall d | d in v.asked :: d in l.relaysTried)
  }

  lemma StepBudgeted(v: Life, e: Op)
    requires Budgeted(v) && Allowed(v.link, e)
    ensures Budgeted(Step(v, e))
  {
    match e
    case RelayThrough(relay) => RelayThroughBudgeted(v, relay);
    case AnswerVia(carrier) => AnswerViaBudgeted(v, carrier);
    case _ =>
  }

  lemma RelayThroughBudgeted(v: Life, relay: Peer)
    requires Budgeted(v) && relay.deviceID !in v.link.relaysTried
    ensures Budgeted(Step(v, RelayThrough(relay)))
  {
    assert |v.link.relaysTried + {relay.deviceID}| == |v.link.relaysTried| + 1;
    DistinctAppend(v.asked, relay.deviceID);
  }

  lemma AnswerViaBudgeted(v: Life, carrier: Peer)
    requires Budgeted(v)
    ensures Budgeted(Step(v, AnswerVia(carrier)))
  {
    var tried := v.link.relaysTried;
    if carrier.deviceID in tried {
      assert tried + {carrier.deviceID} == tried;
    } else {
      assert |tried + {carrier.deviceID}| == |tried| + 1;
    }
  }

  /** Whatever was done to a link, it is consistent, it has begun at most ten attempts and three more for
      each relay tried since it was last direct, and it has asked no relay twice. */
  lemma {:induction false} AttemptsAreBounded(es: seq<Op>)
    requires Proper(es)
    ensures
      var v := Run(es);
      && v.link.Consistent()
      && |v.begun| <= 10 + 3 * |v.link.relaysTried|
      && Distinct(v.asked) && (forall d | d in v.asked :: d in v.link.relaysTried)
      && Budgeted(v)
  {
    if es != [] {
      AttemptsAreBounded(es[..|es| - 1]);
      StepBudgeted(Run(es[..|es| - 1]), es[|es| - 1]);
    }
  }

  // ----- where a link's session and handshake come from -----

  ghost predicate Opened(es: seq<Op>, i: nat, s: Session) {
    i < |es| && es[i].Open? && es[i].session == s
  }

  ghost predicate Began(es: seq<Op>, i: nat, h: Handshake) {
    i < |es| && es[i].Attempt? && es[i].handshake == Some(h)
  }

  lemma OneOrigin(l: Link, e: Op)
    ensures
      var r := After(l, e);
      && (r.session.Some? ==> r.session == l.session || (e.Open? && r.session == Some(e.session)))
      && (r.handshake.Some? ==> r.handshake == l.handshake || (e.Attempt? && r.handshake == e.handshake))
      && (r.handshakes > 0 ==> l.handshakes > 0 || e.Attempt?)
  {
    hide Link.Consistent;
  }

  /** A link's session was opened, its pending handshake begun, and its attempts made. */
  lemma {:induction false} Origins(es: seq<Op>)
    ensures
      var l := Run(es).link;
      && (l.session.Some? ==> exists i :: Opened(es, i, l.session.value))
      && (l.handshake.Some? ==> exists i :: Began(es, i, l.handshake.value))
      && (l.handshakes > 0 ==> exists i :: 0 <= i < |es| && es[i].Attempt?)
  {
    if es != [] {
      var last := |es| - 1;
      var front, e := es[..last], es[last];
      Origins(front);
      var was, l := Run(front).link, Run(es).link;
      OneOrigin(was, e);
      hide Run, After;
      if l.session.Some? {
        if l.session == was.session {
          var i :| Opened(front, i, was.session.value);
          assert Opened(es, i, l.session.value);
        } else {
          assert Opened(es, last, l.session.value);
        }
      }
      if l.handshake.Some? {
        if l.handshake == was.handshake {
          var i :| Began(front, i, was.handshake.value);
          assert Began(es, i, l.handshake.value);
        } else {
          assert Began(es, last, l.handshake.value);
        }
      }
      if l.handshakes > 0 {
        if e.Attempt? {
          assert es[last].Attempt?;
        } else {
          var i :| 0 <= i < |front| && front[i].Attempt?;
          assert es[i].Attempt?;
        }
      }
    }
  }

  // ----- counters -----

  /** No session is opened twice. */
  ghost predicate OpensOnce(es: seq<Op>) {
    forall i, j, s | Opened(es, i, s) && Opened(es, j, s) :: i == j
  }

  /** The counters of the packets sealed by one end of a session, in order. */
  ghost function Counters(es: seq<Op>, s: Session): seq<uint64> {
    if es == [] then []
    else
      var e := es[|es| - 1];
      Counters(es[..|es| - 1], s) + (if e.Seal? && e.text.session == s then [e.text.counter] else [])
  }

  /** 0, 1, 2 and so on, starting over at 2^64. */
  function Cycle(n: nat): seq<uint64> {
    seq(n, k requires 0 <= k => k % TWO_TO_THE_64)
  }

  /** The counters accepted from one end of a session. */
  ghost function Taken(es: seq<Op>, s: Session): set<uint64> {
    set k | 0 <= k < |es| && es[k].Accept? && es[k].text.session == s :: es[k].text.counter
  }

  lemma TakenNext(es: seq<Op>, e: Op, s: Session)
    ensures Taken(es + [e], s) == Taken(es, s) + if e.Accept? && e.text.session == s then {e.text.counter} else {}
  {
    var more := es + [e];
    assert more[|es|] == e && forall k | 0 <= k < |es| :: more[k] == es[k];
    forall c | c in Taken(es, s) ensures c in Taken(more, s) {
      var k :| 0 <= k < |es| && es[k].Accept? && es[k].text.session == s && es[k].text.counter == c;
      assert more[k] == es[k];
    }
  }

  /** What an open session has sealed and let in: the counters sealed run from zero, the next is the
      link's, and the window stands for those accepted. */
  ghost predicate Counting(es: seq<Op>) {
    var l := Run(es).link;
    && (forall s :: Counters(es, s) == Cycle(|Counters(es, s)|))
    && (l.session.Some? ==>
          && l.counter == |Counters(es, l.session.value)| % TWO_TO_THE_64
          && Represents(l.replay, Taken(es, l.session.value.OtherEnd())))
  }

  lemma {:induction false} OpensOncePrefix(es: seq<Op>, n: nat)
    requires OpensOnce(es) && n <= |es|
    ensures OpensOnce(es[..n])
  {
    forall i, j, s | Opened(es[..n], i, s) && Opened(es[..n], j, s) ensures i == j {
      assert Opened(es, i, s) && Opened(es, j, s);
    }
  }

  /** Only an end that was opened seals or accepts. */
  lemma {:induction false} UsedWereOpened(es: seq<Op>, s: Session)
    requires Proper(es) && forall i :: !Opened(es, i, s)
    ensures Counters(es, s) == [] && Taken(es, s.OtherEnd()) == {}
  {
    if es != [] {
      var last := |es| - 1;
      var front, e := es[..last], es[last];
      forall i ensures !Opened(front, i, s) { assert !Opened(es, i, s); }
      UsedWereOpened(front, s);
      Origins(front);
      assert es == front + [e];
      TakenNext(front, e, s.OtherEnd());
      assert s.OtherEnd().OtherEnd() == s;
    }
  }

  lemma CycleNext(n: nat)
    ensures Cycle(n + 1) == Cycle(n) + [n % TWO_TO_THE_64]
  {}

  lemma SealCounts(es: seq<Op>, text: Text)
    requires Proper(es + [Seal(text)]) && Counting(es)
    ensures Counting(es + [Seal(text)])
  {
    hide Link.Consistent, Increment;
    var more := es + [Seal(text)];
    assert more[..|es|] == es;
    forall s ensures Counters(more, s) == Cycle(|Counters(more, s)|) {
      SealCounted(es, text, s);
    }
    NextAfter(|Counters(es, text.session)|);
    TakenNext(es, Seal(text), text.session.OtherEnd());
  }

  lemma NextAfter(n: nat)
    ensures Increment(n % TWO_TO_THE_64) == (n + 1) % TWO_TO_THE_64
  {}

  lemma SealCounted(es: seq<Op>, text: Text, s: Session)
    requires Counters(es, s) == Cycle(|Counters(es, s)|)
    requires s == text.session ==> text.counter == |Counters(es, s)| % TWO_TO_THE_64
    ensures Counters(es + [Seal(text)], s) == Cycle(|Counters(es + [Seal(text)], s)|)
  {
    assert (es + [Seal(text)])[..|es|] == es;
    CycleNext(|Counters(es, s)|);
  }

  lemma AcceptCounts(es: seq<Op>, text: Text, now: Time)
    requires Proper(es + [Accept(text, now)]) && Counting(es)
    ensures Counting(es + [Accept(text, now)])
  {
    var more, l := es + [Accept(text, now)], Run(es).link;
    assert more[..|es|] == es;
    forall s ensures Counters(more, s) == Cycle(|Counters(more, s)|) {
      assert Counters(es, s) == Cycle(|Counters(es, s)|);
    }
    TakenNext(es, Accept(text, now), text.session);
    SlideRepresents(l.replay, Taken(es, text.session), text.counter);
  }

  lemma OpenCounts(es: seq<Op>, s: Session, now: Time)
    requires Proper(es + [Open(s, now)]) && Counting(es) && OpensOnce(es + [Open(s, now)])
    ensures Counting(es + [Open(s, now)])
  {
    var more := es + [Open(s, now)];
    assert more[..|es|] == es;
    forall t ensures Counters(more, t) == Cycle(|Counters(more, t)|) {
      assert Counters(es, t) == Cycle(|Counters(es, t)|);
    }
    assert Opened(more, |es|, s);
    forall i ensures !Opened(es, i, s) {
      if Opened(es, i, s) { assert Opened(more, i, s); }
    }
    UsedWereOpened(es, s);
    TakenNext(es, Open(s, now), s.OtherEnd());
  }

  lemma OtherwiseCounts(es: seq<Op>, e: Op)
    requires Counting(es) && !e.Seal? && !e.Accept? && !e.Open?
    ensures Counting(es + [e])
  {
    var more := es + [e];
    assert more[..|es|] == es;
    forall t ensures Counters(more, t) == Cycle(|Counters(more, t)|) {
      assert Counters(es, t) == Cycle(|Counters(es, t)|);
    }
    if Run(more).link.session.Some? { TakenNext(es, e, Run(more).link.session.value.OtherEnd()); }
  }

  lemma {:induction false} RunCounts(es: seq<Op>)
    requires Proper(es) && OpensOnce(es)
    ensures Counting(es)
  {
    if es == [] {
      assert forall s :: Counters(es, s) == [];
    } else {
      var front, e := es[..|es| - 1], es[|es| - 1];
      assert es == front + [e];
      OpensOncePrefix(es, |es| - 1);
      RunCounts(front);
      match e
      case Seal(text) => SealCounts(front, text);
      case Accept(text, now) => AcceptCounts(front, text, now);
      case Open(s, now) => OpenCounts(front, s, now);
      case _ => OtherwiseCounts(front, e);
    }
  }

  /** Over a link's whole life no counter is used twice on a session, if and only if no more than 2^64
      packets were sealed on it. */
  lemma RepeatsExactlyAfterWrap(es: seq<Op>, s: Session)
    requires Proper(es) && OpensOnce(es)
    ensures Distinct(Counters(es, s)) <==> |Counters(es, s)| <= TWO_TO_THE_64
  {
    RunCounts(es);
    var n := |Counters(es, s)|;
    if n > TWO_TO_THE_64 {
      assert Cycle(n)[0] == 0 && Cycle(n)[TWO_TO_THE_64] == 0;
    }
  }

  /** A session opened, and n packets sealed on it. */
  function Flood(s: Session, now: Time, n: nat): seq<Op> {
    [Open(s, now)] +
    seq(n, k requires 0 <= k => Seal(SealedText(s, T.MSG_DATA, 0, k % TWO_TO_THE_64, IPPacket([]))))
  }

  /** And nothing stops a link from getting there: of 2^64 + 1 packets sealed on one session, the last
      uses the first one's counter again. */
  lemma WrapHappens(s: Session, now: Time)
    ensures
      var es := Flood(s, now, TWO_TO_THE_64 + 1);
      && Proper(es) && OpensOnce(es)
      && es[1].Seal? && es[TWO_TO_THE_64 + 1].Seal? && es[1].text.session == s &&
         es[1].text == es[TWO_TO_THE_64 + 1].text
  {
    var _ := FloodRuns(s, now, TWO_TO_THE_64 + 1);
    var es := Flood(s, now, TWO_TO_THE_64 + 1);
    forall i, j, t | Opened(es, i, t) && Opened(es, j, t) ensures i == j {
      assert i == 0 && j == 0;
    }
  }

  lemma FloodNext(l: Link, s: Session, n: nat)
    requires l.session == Some(s) && l.counter == n % TWO_TO_THE_64
    ensures
      var seal := Seal(SealedText(s, T.MSG_DATA, 0, n % TWO_TO_THE_64, IPPacket([])));
      Allowed(l, seal) && After(l, seal).session == Some(s) && After(l, seal).counter == (n + 1) % TWO_TO_THE_64
  {
    hide Link.Consistent;
  }

  lemma {:induction false} FloodRuns(s: Session, now: Time, n: nat) returns (l: Link)
    ensures Reached(Flood(s, now, n), l) && l.session == Some(s) && l.counter == n % TWO_TO_THE_64
  {
    if n == 0 {
      assert Reached([], NewLink(NO_ENDPOINT));
      hide Reached, Link.Consistent;
      ReachedNext([], NewLink(NO_ENDPOINT), Open(s, now));
      assert Flood(s, now, 0) == [] + [Open(s, now)];
      l := NewLink(NO_ENDPOINT).Open(s, now);
    } else {
      hide Reached, Allowed, After;
      l := FloodRuns(s, now, n - 1);
      FloodNext(l, s, n - 1);
      var seal := Seal(SealedText(s, T.MSG_DATA, 0, (n - 1) % TWO_TO_THE_64, IPPacket([])));
      ReachedNext(Flood(s, now, n - 1), l, seal);
      assert Flood(s, now, n) == Flood(s, now, n - 1) + [seal];
      l := After(l, seal);
    }
  }

  // ----- one operation and another -----

  lemma {:induction false} CountersGrow(es: seq<Op>, m: nat, n: nat, s: Session)
    requires m <= n <= |es|
    ensures |Counters(es[..m], s)| <= |Counters(es[..n], s)|
  {
    if m < n {
      CountersGrow(es, m, n - 1, s);
      assert es[..n][..n - 1] == es[..n - 1];
    }
  }

  /** A packet's counter is its place among those sealed on its session, modulo 2^64. */
  lemma SealedInOrder(es: seq<Op>, i: nat)
    requires Proper(es) && OpensOnce(es) && i < |es| && es[i].Seal?
    ensures es[i].text.counter == |Counters(es[..i], es[i].text.session)| % TWO_TO_THE_64
    ensures |Counters(es[..i], es[i].text.session)| + 1 == |Counters(es[..i + 1], es[i].text.session)|
  {
    hide Proper, OpensOnce, Represents, Run;
    ProperPrefix(es, i);
    OpensOncePrefix(es, i);
    RunCounts(es[..i]);
    assert es[..i + 1][..i] == es[..i];
  }

  /** Two packets that a link sealed never share session and counter, if it sealed no more than 2^64. */
  lemma SealedOnce(es: seq<Op>, i: nat, j: nat)
    requires Proper(es) && OpensOnce(es) && i < j < |es| && es[i].Seal? && es[j].Seal?
    requires |Counters(es, es[i].text.session)| <= TWO_TO_THE_64
    ensures es[i].text.session != es[j].text.session || es[i].text.counter != es[j].text.counter
  {
    hide Proper, OpensOnce, Counters;
    var s := es[i].text.session;
    if es[j].text.session == s {
      SealedInOrder(es, i);
      SealedInOrder(es, j);
      CountersGrow(es, i + 1, j, s);
      CountersGrow(es, j + 1, |es|, s);
      assert es[..|es|] == es;
    }
  }

  /** Two packets that a link accepted never share session and counter, through any failures, restarts
      and changes of path. */
  lemma AcceptedOnce(es: seq<Op>, i: nat, j: nat)
    requires Proper(es) && OpensOnce(es) && i < j < |es| && es[i].Accept? && es[j].Accept?
    ensures es[i].text.session != es[j].text.session || es[i].text.counter != es[j].text.counter
  {
    var before, text := es[..j], es[j].text;
    ProperPrefix(es, j);
    OpensOncePrefix(es, j);
    RunCounts(before);
    assert before[i] == es[i];
    if es[i].text.session == text.session {
      assert text.session.OtherEnd().OtherEnd() == text.session;
      AdmitsIsFresh(Run(before).link.replay, Taken(before, text.session), text.counter);
      assert es[i].text.counter in Taken(before, text.session);
    }
  }

  /** Over a link's whole life, through any failures, restarts and changes of path: if no session is opened
      twice and none seals more than 2^64 packets, no counter is used twice and none is accepted twice. */
  lemma CountersAreUsedOnce(es: seq<Op>)
    requires Proper(es) && OpensOnce(es) && forall s :: |Counters(es, s)| <= TWO_TO_THE_64
    ensures forall i, j | 0 <= i < j < |es| && es[i].Seal? && es[j].Seal? ::
              es[i].text.session != es[j].text.session || es[i].text.counter != es[j].text.counter
    ensures forall i, j | 0 <= i < j < |es| && es[i].Accept? && es[j].Accept? ::
              es[i].text.session != es[j].text.session || es[i].text.counter != es[j].text.counter
  {
    hide Proper, OpensOnce, Counters;
    forall i, j | 0 <= i < j < |es| && es[i].Seal? && es[j].Seal?
      ensures es[i].text.session != es[j].text.session || es[i].text.counter != es[j].text.counter
    {
      SealedOnce(es, i, j);
    }
    forall i, j | 0 <= i < j < |es| && es[i].Accept? && es[j].Accept?
      ensures es[i].text.session != es[j].text.session || es[i].text.counter != es[j].text.counter
    {
      AcceptedOnce(es, i, j);
    }
  }

  // ----- many links -----

  /** One thing done to one link. */
  datatype Deed = Deed(peer: Peer, op: Op)

  /** What was done to one link. */
  ghost function Of(log: seq<Deed>, p: Peer): seq<Op> {
    if log == [] then []
    else
      var last := log[|log| - 1];
      Of(log[..|log| - 1], p) + (if last.peer == p then [last.op] else [])
  }

  lemma OfNext(log: seq<Deed>, p: Peer, e: Op)
    ensures Of(log + [Deed(p, e)], p) == Of(log, p) + [e]
    ensures forall q | q != p :: Of(log + [Deed(p, e)], q) == Of(log, q)
  {
    assert (log + [Deed(p, e)])[..|log|] == log;
  }

  /** The place of a deed among those done to its link. */
  ghost function Place(log: seq<Deed>, k: nat): nat
    requires k < |log|
  {
    |Of(log[..k], log[k].peer)|
  }

  lemma {:induction false} OfGrows(log: seq<Deed>, m: nat, n: nat, p: Peer)
    requires m <= n <= |log|
    ensures Of(log[..m], p) <= Of(log[..n], p)
  {
    if m < n {
      OfGrows(log, m, n - 1, p);
      assert log[..n][..n - 1] == log[..n - 1];
    }
  }

  /** What was done to a link is found there, in its order. */
  lemma DeedInPlace(log: seq<Deed>, k: nat)
    requires k < |log|
    ensures Place(log, k) < |Of(log, log[k].peer)| && Of(log, log[k].peer)[Place(log, k)] == log[k].op
    ensures Of(log, log[k].peer)[..Place(log, k)] == Of(log[..k], log[k].peer)
  {
    assert log[..k + 1][..k] == log[..k] && log[..|log|] == log;
    OfGrows(log, k, k + 1, log[k].peer);
    OfGrows(log, k + 1, |log|, log[k].peer);
  }

  lemma PlacesAscend(log: seq<Deed>, j: nat, k: nat)
    requires j < k < |log| && log[j].peer == log[k].peer
    ensures Place(log, j) < Place(log, k)
  {
    assert log[..j + 1][..j] == log[..j];
    OfGrows(log, j + 1, k, log[k].peer);
  }

  lemma {:induction false} OfStranger(log: seq<Deed>, p: Peer)
    requires forall k | 0 <= k < |log| :: log[k].peer != p
    ensures Of(log, p) == []
  {
    if log != [] { OfStranger(log[..|log| - 1], p); }
  }

  /** And what is found there was done. */
  lemma {:induction false} DeedOf(log: seq<Deed>, p: Peer, i: nat) returns (k: nat)
    requires i < |Of(log, p)|
    ensures k < |log| && log[k] == Deed(p, Of(log, p)[i]) && Place(log, k) == i
  {
    var last := |log| - 1;
    if i < |Of(log[..last], p)| {
      k := DeedOf(log[..last], p, i);
      assert log[..last][..k] == log[..k];
    } else {
      k := last;
    }
  }
}
