/** What the contest for the discovery route promises: that the tunnel wins it, that the machine's way
    out is not moved, and that everything is given back. */
module ContestLaws {
  import opened Contest
  import opened Netip
  import opened Wrappers

  // ----- what is read -----

  predicate Claimed(rows: Rows, r: Route) { Live(rows, r) && r.destination == Multicast }

  predicate Default(rows: Rows, r: Route) { Live(rows, r) && r.destination == Internet }

  /** One claim per interface. */
  predicate Single(routes: seq<Route>) {
    forall i, j | 0 <= i < j < |routes| && routes[i].destination == routes[j].destination == Multicast ::
      routes[i].luid != routes[j].luid
  }

  /** The claims are those of the live interfaces' discovery routes, and no other. */
  lemma {:induction false} ClaimsAre(rows: Rows, routes: seq<Route>, internet: Luid)
    ensures forall r | r in routes && Claimed(rows, r) ::
            ClaimOf(rows, r, internet) in ClaimsFrom(rows, routes, internet)
    ensures forall c | c in ClaimsFrom(rows, routes, internet) ::
              exists r :: r in routes && Claimed(rows, r) && c == ClaimOf(rows, r, internet)
    decreases |routes|
  {
    if routes != [] {
      ClaimsAre(rows, routes[1..], internet);
      assert routes == [routes[0]] + routes[1..];
    }
  }

  predicate DistinctClaims(c: seq<Claim>) {
    forall i, j | 0 <= i < j < |c| :: c[i].luid != c[j].luid
  }

  predicate DistinctMoves(m: seq<Move>) {
    forall i, j | 0 <= i < j < |m| :: m[i].rival.luid != m[j].rival.luid
  }

  lemma FirstRoute(routes: seq<Route>, r: Route)
    requires Single(routes) && routes != [] && r in routes[1..]
    requires routes[0].destination == r.destination == Multicast
    ensures r.luid != routes[0].luid
  {
    var k :| 0 <= k < |routes[1..]| && routes[1..][k] == r;
    assert routes[k + 1] == r;
  }

  lemma {:induction false} ClaimsDistinct(rows: Rows, routes: seq<Route>, internet: Luid)
    requires Single(routes)
    ensures DistinctClaims(ClaimsFrom(rows, routes, internet))
    decreases |routes|
  {
    if routes != [] {
      assert Single(routes[1..]);
      ClaimsDistinct(rows, routes[1..], internet);
      ClaimsAre(rows, routes[1..], internet);
      var rest := ClaimsFrom(rows, routes[1..], internet);
      if Claimed(rows, routes[0]) {
        forall c | c in rest ensures c.luid != routes[0].luid {
          var r :| r in routes[1..] && Claimed(rows, r) && c == ClaimOf(rows, r, internet);
          FirstRoute(routes, r);
        }
        var all := ClaimsFrom(rows, routes, internet);
        assert all == [ClaimOf(rows, routes[0], internet)] + rest;
        forall i, j | 0 <= i < j < |all| ensures all[i].luid != all[j].luid {
          assert all[j] == rest[j - 1] && rest[j - 1] in rest;
        }
      }
    }
  }

  lemma {:induction false} MineIsOurs(claims: seq<Claim>, ours: Luid)
    requires Mine(claims, ours).Some?
    ensures Mine(claims, ours).value in claims && Mine(claims, ours).value.luid == ours
  {
    var last := claims[|claims| - 1];
    if last.luid != ours { MineIsOurs(claims[..|claims| - 1], ours); }
  }

  /** The moves are those of the rivals the tunnel does not beat, but the one that carries the internet. */
  lemma {:induction false} MovesAre(claims: seq<Claim>, mine: Claim)
    ensures forall c | c in claims && Beats(c, mine) && !c.internet :: Move(c, Past(mine, c)) in MovesFor(claims, mine)
    ensures forall m | m in MovesFor(claims, mine) ::
              m.rival in claims && Beats(m.rival, mine) && !m.rival.internet && m.metric == Past(mine, m.rival)
  {
    if claims != [] {
      MovesAre(claims[..|claims| - 1], mine);
      assert claims == claims[..|claims| - 1] + [claims[|claims| - 1]];
    }
  }

  lemma LastClaim(claims: seq<Claim>, c: Claim)
    requires DistinctClaims(claims) && claims != [] && c in claims[..|claims| - 1]
    ensures c.luid != claims[|claims| - 1].luid
  {
    var k :| 0 <= k < |claims| - 1 && claims[k] == c;
  }

  lemma {:induction false} MovesDistinct(claims: seq<Claim>, mine: Claim)
    requires DistinctClaims(claims)
    ensures DistinctMoves(MovesFor(claims, mine))
  {
    if claims != [] {
      var front, last := claims[..|claims| - 1], claims[|claims| - 1];
      assert DistinctClaims(front);
      MovesDistinct(front, mine);
      MovesAre(front, mine);
      var some, all := MovesFor(front, mine), MovesFor(claims, mine);
      forall m | m in some ensures m.rival.luid != last.luid { LastClaim(claims, m.rival); }
      forall i, j | 0 <= i < j < |all| ensures all[i].rival.luid != all[j].rival.luid {
        assert all[i] == some[i] && some[i] in some;
        if j < |some| { assert all[j] == some[j]; }
      }
    }
  }

  lemma {:induction false} HeldNames(claims: seq<Claim>, mine: Claim)
    requires forall c | c in claims :: c.name != ""
    ensures HeldBy(claims, mine) == "" <==> forall c | c in claims && Beats(c, mine) :: !c.internet
  {
    if claims != [] {
      HeldNames(claims[..|claims| - 1], mine);
      assert claims == claims[..|claims| - 1] + [claims[|claims| - 1]];
    }
  }

  // ----- what the moves do -----

  lemma {:induction false} MakeLeaves(s: Standing, refuses: set<Luid>, moves: seq<Move>, held: string, l: Luid)
    requires l in s.rows && forall m | m in moves :: m.rival.luid != l || l in refuses
    ensures Make(s, refuses, moves, held).0.rows[l] == s.rows[l]
  {
    if moves != [] { MakeLeaves(s, refuses, moves[..|moves| - 1], held, l); }
  }

  lemma {:induction false} MakeMoves(s: Standing, refuses: set<Luid>, moves: seq<Move>, held: string, m: Move)
    requires m in moves && m.rival.luid in s.rows && m.rival.luid !in refuses
    requires DistinctMoves(moves)
    ensures
      var l := m.rival.luid;
      Make(s, refuses, moves, held).0.rows[l] == s.rows[l].(metric := m.metric, auto := false)
  {
    var front, last := moves[..|moves| - 1], moves[|moves| - 1];
    if last == m {
      forall n | n in front ensures n.rival.luid != m.rival.luid {
        var k :| 0 <= k < |front| && front[k] == n;
        assert moves[k] == n;
      }
      MakeLeaves(s, refuses, front, held, m.rival.luid);
    } else {
      assert m in front;
      MakeMoves(s, refuses, front, held, m);
      var k :| 0 <= k < |front| && front[k] == m;
      assert moves[k] == m;
    }
  }

  lemma {:induction false} MakeNames(s: Standing, refuses: set<Luid>, moves: seq<Move>, held: string)
    requires forall m | m in moves :: m.rival.name != ""
    ensures Make(s, refuses, moves, held).1 == "" ==>
              held == "" && forall m | m in moves :: m.rival.luid in s.rows && m.rival.luid !in refuses
  {
    if moves != [] {
      MakeNames(s, refuses, moves[..|moves| - 1], held);
      assert moves == moves[..|moves| - 1] + [moves[|moves| - 1]];
    }
  }

  // ----- the tunnel wins -----

  /** Every claim's total fits 32 bits, and so does one past the tunnel's. */
  predicate Fits(rows: Rows, routes: seq<Route>, ours: Luid) {
    forall r | r in routes && Claimed(rows, r) ::
      r.metric + rows[r.luid].metric < MODULUS && (r.luid == ours ==> r.metric + rows[r.luid].metric + 1 < MODULUS)
  }

  /** The standings once everything has been given back and the tunnel is at the floor. */
  function Measured(s: Standing, refuses: set<Luid>, ours: Luid): Rows {
    Set(Restore(s.rows, refuses, s.yielded), refuses, ours, PREFERRED_METRIC, false)
  }

  lemma PastIsPast(mine: Claim, rival: Claim)
    requires rival.route + rival.metric < MODULUS && mine.route + mine.metric + 1 < MODULUS && Beats(rival, mine)
    ensures rival.metric < Past(mine, rival) && Added(rival.route, Past(mine, rival)) > mine.Total()
  {}

  /** What becomes of one rival: it is beaten, or it carries the internet, or Windows would not move it. */
  lemma RivalIsBeaten(s: Standing, routes: seq<Route>, refuses: set<Luid>, ours: Luid, r: Route, mine: Claim)
    requires Single(routes) && Fits(s.rows, routes, ours)
    requires r in routes && Claimed(s.rows, r) && r.luid != ours && r.luid !in refuses
    requires Mine(Claims(s.rows, routes), ours) == Some(mine)
    requires r.luid != Holder(s.rows, routes)
    ensures
      var rows := Take(s, routes, refuses, ours).0.rows;
      r.luid in rows && Worth(rows, r) > mine.Total()
  {
    var internet, claims := Holder(s.rows, routes), Claims(s.rows, routes);
    var moves, held := MovesFor(claims, mine), HeldBy(claims, mine);
    var c := ClaimOf(s.rows, r, internet);
    ClaimsAre(s.rows, routes, internet);
    ClaimsDistinct(s.rows, routes, internet);
    MineFits(s.rows, routes, ours, mine);
    hide Mine, MovesFor, HeldBy, Make, ClaimsFrom, Single, Holder, DistinctClaims, DistinctMoves, Past, Added, Set;
    MovedOrNot(s, refuses, claims, mine, held, c);
    if Beats(c, mine) { PastIsPast(mine, c); }
  }

  lemma MineFits(rows: Rows, routes: seq<Route>, ours: Luid, mine: Claim)
    requires Fits(rows, routes, ours) && Mine(Claims(rows, routes), ours) == Some(mine)
    ensures mine.luid == ours && mine.route + mine.metric + 1 < MODULUS
  {
    ClaimsAre(rows, routes, Holder(rows, routes));
    MineIsOurs(Claims(rows, routes), ours);
  }

  /** A rival that is not beaten is moved past the tunnel, and one that is beaten is left where it is. */
  lemma MovedOrNot(s: Standing, refuses: set<Luid>, claims: seq<Claim>, mine: Claim, held: string, c: Claim)
    requires DistinctClaims(claims) && c in claims && !c.internet && c.luid in s.rows && c.luid !in refuses
    requires forall d | d in claims :: d.luid in s.rows
    ensures
      var after := Make(s, refuses, MovesFor(claims, mine), held).0.rows;
      c.luid in after &&
      after[c.luid] ==
        if Beats(c, mine) then s.rows[c.luid].(metric := Past(mine, c), auto := false) else s.rows[c.luid]
  {
    var moves := MovesFor(claims, mine);
    MovesAre(claims, mine);
    MovesDistinct(claims, mine);
    hide MovesFor, Make, DistinctMoves, DistinctClaims, Past;
    if Beats(c, mine) {
      MakeMoves(s, refuses, moves, held, Move(c, Past(mine, c)));
    } else {
      forall m | m in moves ensures m.rival.luid != c.luid {
        if m.rival.luid == c.luid { OneClaimEach(claims, m.rival, c); }
      }
      MakeLeaves(s, refuses, moves, held, c.luid);
    }
  }

  lemma OneClaimEach(claims: seq<Claim>, a: Claim, b: Claim)
    requires DistinctClaims(claims)
    requires a in claims && b in claims && a.luid == b.luid
    ensures a == b
  {
    var i :| 0 <= i < |claims| && claims[i] == a;
    var j :| 0 <= j < |claims| && claims[j] == b;
  }

  lemma {:induction false} MineFinds(claims: seq<Claim>, c: Claim)
    requires c in claims
    ensures Mine(claims, c.luid).Some?
  {
    var last := claims[|claims| - 1];
    if last.luid != c.luid {
      assert c in claims[..|claims| - 1];
      MineFinds(claims[..|claims| - 1], c);
    }
  }

  /** The tunnel's own claim is the one it is measured by. */
  lemma OwnClaim(rows: Rows, routes: seq<Route>, own: Route)
    requires Single(routes) && own in routes && Claimed(rows, own)
    ensures Mine(Claims(rows, routes), own.luid) == Some(ClaimOf(rows, own, Holder(rows, routes)))
  {
    var internet := Holder(rows, routes);
    ClaimsAre(rows, routes, internet);
    ClaimsDistinct(rows, routes, internet);
    var c := ClaimOf(rows, own, internet);
    MineFinds(Claims(rows, routes), c);
    MineIsOurs(Claims(rows, routes), own.luid);
    OneClaimEach(Claims(rows, routes), c, Mine(Claims(rows, routes), own.luid).value);
  }

  /** Interfaces that are ours, carry the internet or are beaten already are left alone. */
  lemma Untouched(s: Standing, routes: seq<Route>, refuses: set<Luid>, ours: Luid, l: Luid)
    requires l in s.rows && (l == ours || l == Holder(s.rows, routes) || l in refuses)
    ensures Take(s, routes, refuses, ours).0.rows[l] == s.rows[l]
  {
    var claims := Claims(s.rows, routes);
    var mine := Mine(claims, ours);
    if mine.Some? {
      MineIsOurs(claims, ours);
      MovesAre(claims, mine.value);
      ClaimsAre(s.rows, routes, Holder(s.rows, routes));
      MakeLeaves(s, refuses, MovesFor(claims, mine.value), HeldBy(claims, mine.value), l);
    }
  }

  /** Whoever is left holding the route is named, so an empty name means nobody is. */
  lemma NobodyHeld(s: Standing, routes: seq<Route>, refuses: set<Luid>, ours: Luid, r: Route, mine: Claim)
    requires forall l | l in s.rows :: s.rows[l].name != ""
    requires Mine(Claims(s.rows, routes), ours) == Some(mine)
    requires Take(s, routes, refuses, ours).1 == Success("")
    requires r in routes && Claimed(s.rows, r) && r.luid != ours
    requires r.luid in refuses || r.luid == Holder(s.rows, routes)
    ensures Worth(s.rows, r) > mine.Total()
  {
    var internet, claims := Holder(s.rows, routes), Claims(s.rows, routes);
    ClaimsAre(s.rows, routes, internet);
    MineIsOurs(claims, ours);
    MovesAre(claims, mine);
    var c := ClaimOf(s.rows, r, internet);
    hide Mine, MovesFor, HeldBy, Make, ClaimsFrom;
    HeldNames(claims, mine);
    MakeNames(s, refuses, MovesFor(claims, mine), HeldBy(claims, mine));
    assert Beats(c, mine) && !c.internet ==> Move(c, Past(mine, c)) in MovesFor(claims, mine);
  }

  /** With the switch on, the tunnel's total is strictly below that of every rival that does not carry
      the machine's internet and that Windows lets be moved; and below everyone's when no name comes back. */
  lemma TunnelWins(s: Standing, routes: seq<Route>, refuses: set<Luid>, ours: Luid, own: Route, r: Route)
    requires ours in s.rows && ours !in refuses && Single(routes)
    requires Fits(Measured(s, refuses, ours), routes, ours)
    requires own in routes && own.luid == ours && Claimed(Measured(s, refuses, ours), own)
    requires r in routes && r.luid != ours && Claimed(Measured(s, refuses, ours), r)
    ensures
      var (after, held) := Prefer(s, routes, refuses, ours, true);
      var rows := Measured(s, refuses, ours);
      && held.Success? && after.rows.Keys == rows.Keys
      && Worth(after.rows, own) == Worth(rows, own)
      && (r.luid !in refuses && r.luid != Holder(rows, routes) ==> Worth(after.rows, r) > Worth(after.rows, own))
      && (held == Success("") && (forall l | l in rows :: rows[l].name != "") ==>
          Worth(after.rows, r) > Worth(after.rows, own))
  {
    var start := Standing(Measured(s, refuses, ours), []);
    var mine := ClaimOf(start.rows, own, Holder(start.rows, routes));
    OwnClaim(start.rows, routes, own);
    Untouched(start, routes, refuses, ours, ours);
    hide Mine, Holder, Claims;
    if r.luid !in refuses && r.luid != Holder(start.rows, routes) {
      RivalIsBeaten(start, routes, refuses, ours, r, mine);
    } else {
      Untouched(start, routes, refuses, ours, r.luid);
      if Take(start, routes, refuses, ours).1 == Success("") &&
         (forall l | l in start.rows :: start.rows[l].name != "") {
        NobodyHeld(start, routes, refuses, ours, r, mine);
      }
    }
  }

  // ----- the way out is not moved -----

  /** The first of the best default routes, if any is better than what was seen before. */
  predicate FirstBest(rows: Rows, routes: seq<Route>, best: uint32, i: nat) {
    && i < |routes| && Default(rows, routes[i]) && Worth(rows, routes[i]) < best
    && (forall j | 0 <= j < i && Default(rows, routes[j]) :: Worth(rows, routes[j]) > Worth(rows, routes[i]))
    && (forall j | i < j < |routes| && Default(rows, routes[j]) :: Worth(rows, routes[j]) >= Worth(rows, routes[i]))
  }

  predicate NoneBetter(rows: Rows, routes: seq<Route>, best: uint32) {
    forall j | 0 <= j < |routes| && Default(rows, routes[j]) :: Worth(rows, routes[j]) >= best
  }

  lemma {:induction false} NoneBetterKeeps(rows: Rows, routes: seq<Route>, holder: Luid, best: uint32)
    requires NoneBetter(rows, routes, best)
    ensures BestDefault(rows, routes, holder, best) == holder
    decreases |routes|
  {
    if routes != [] {
      assert forall j | 0 <= j < |routes[1..]| :: routes[1..][j] == routes[j + 1];
      NoneBetterKeeps(rows, routes[1..], holder, best);
    }
  }

  lemma {:induction false} FirstBestHolds(rows: Rows, routes: seq<Route>, holder: Luid, best: uint32, i: nat)
    requires FirstBest(rows, routes, best, i)
    ensures BestDefault(rows, routes, holder, best) == routes[i].luid
    decreases |routes|
  {
    var rest := routes[1..];
    assert forall j | 0 <= j < |rest| :: rest[j] == routes[j + 1];
    if i == 0 {
      NoneBetterKeeps(rows, rest, routes[0].luid, Worth(rows, routes[0]));
    } else {
      var taken := Default(rows, routes[0]) && Worth(rows, routes[0]) < best;
      FirstBestHolds(rows, rest, if taken then routes[0].luid else holder,
                     if taken then Worth(rows, routes[0]) else best, i - 1);
    }
  }

  lemma {:induction false} BestExists(rows: Rows, routes: seq<Route>, best: uint32) returns (found: bool, i: nat)
    ensures if found then FirstBest(rows, routes, best, i) else NoneBetter(rows, routes, best)
    decreases |routes|
  {
    if routes == [] {
      return false, 0;
    }
    var rest := routes[1..];
    assert forall j | 0 <= j < |rest| :: rest[j] == routes[j + 1];
    var taken := Default(rows, routes[0]) && Worth(rows, routes[0]) < best;
    var later, k := BestExists(rows, rest, if taken then Worth(rows, routes[0]) else best);
    found, i := taken || later, if later then k + 1 else 0;
  }

  /** Raising others' totals does not change who is first and best. */
  lemma HolderStays(a: Rows, b: Rows, routes: seq<Route>)
    requires a.Keys == b.Keys && forall r | r in routes :: Default(a, r) <==> Default(b, r)
    requires forall r | r in routes && Default(a, r) :: Worth(b, r) >= Worth(a, r)
    requires forall r | r in routes && Default(a, r) && r.luid == Holder(a, routes) :: Worth(b, r) == Worth(a, r)
    ensures Holder(b, routes) == Holder(a, routes)
  {
    var found, i := BestExists(a, routes, NO_METRIC);
    if found {
      FirstBestHolds(a, routes, 0, NO_METRIC, i);
      assert routes[i] in routes;
      FirstBestHolds(b, routes, 0, NO_METRIC, i);
    } else {
      NoneBetterKeeps(a, routes, 0, NO_METRIC);
      assert forall j | 0 <= j < |routes| :: routes[j] in routes;
      NoneBetterKeeps(b, routes, 0, NO_METRIC);
    }
  }

  /** No interface's metric is lowered by the moves, and none comes up or goes down. */
  lemma MetricsRise(s: Standing, routes: seq<Route>, refuses: set<Luid>, ours: Luid, l: Luid)
    requires Single(routes) && Fits(s.rows, routes, ours) && l in s.rows
    ensures
      var after := Take(s, routes, refuses, ours).0.rows;
      l in after && after[l].connected == s.rows[l].connected && after[l].metric >= s.rows[l].metric
  {
    var internet, claims := Holder(s.rows, routes), Claims(s.rows, routes);
    var found := Mine(claims, ours);
    if found.Some? {
      var mine := found.value;
      var moves, held := MovesFor(claims, mine), HeldBy(claims, mine);
      ClaimsAre(s.rows, routes, internet);
      ClaimsDistinct(s.rows, routes, internet);
      MineIsOurs(claims, ours);
      MovesAre(claims, mine);
      MovesDistinct(claims, mine);
      hide Mine, MovesFor, HeldBy, Make, ClaimsFrom, Single, Holder, DistinctClaims, DistinctMoves;
      if m :| m in moves && m.rival.luid == l && l !in refuses {
        MakeMoves(s, refuses, moves, held, m);
        PastIsPast(mine, m.rival);
      } else {
        MakeLeaves(s, refuses, moves, held, l);
      }
    }
  }

  predicate DefaultsFit(rows: Rows, routes: seq<Route>) {
    forall r | r in routes && Default(rows, r) :: r.metric + rows[r.luid].metric < MODULUS
  }

  /** Whoever holds the best default route holds it still: the tunnel has none, and is not moved. */
  lemma WayOutStays(s: Standing, routes: seq<Route>, refuses: set<Luid>, ours: Luid)
    requires ours in s.rows && ours !in refuses && Single(routes)
    requires Fits(Measured(s, refuses, ours), routes, ours)
    requires forall r | r in routes && r.destination == Internet :: r.luid != ours
    requires DefaultsFit(Prefer(s, routes, refuses, ours, true).0.rows, routes)
    ensures Holder(Prefer(s, routes, refuses, ours, true).0.rows, routes) ==
            Holder(Restore(s.rows, refuses, s.yielded), routes)
  {
    var given := Restore(s.rows, refuses, s.yielded);
    var start := Standing(Measured(s, refuses, ours), []);
    var after := Take(start, routes, refuses, ours).0.rows;
    hide Mine, Holder, Claims, Restore, Take;
    HolderStays(given, start.rows, routes);
    forall r | r in routes && r.luid in start.rows
      ensures r.luid in after && after[r.luid].connected == start.rows[r.luid].connected
      ensures after[r.luid].metric >= start.rows[r.luid].metric
    {
      MetricsRise(start, routes, refuses, ours, r.luid);
    }
    if Holder(start.rows, routes) in start.rows {
      Untouched(start, routes, refuses, ours, Holder(start.rows, routes));
    }
    HolderStays(start.rows, after, routes);
  }

  // ----- what is given back -----

  /** One call, with the interfaces that Windows refuses to change while it runs. */
  datatype Call = Switch(prefer: bool, routes: seq<Route>, refuses: set<Luid>) | Shut(refuses: set<Luid>)

  function Step(s: Standing, ours: Luid, c: Call): Standing {
    match c
    case Switch(prefer, routes, refuses) => Prefer(s, routes, refuses, ours, prefer).0
    case Shut(refuses) => Close(s, refuses)
  }

  function Run(first: Rows, ours: Luid, calls: seq<Call>): Standing {
    if calls == [] then Standing(first, []) else Step(Run(first, ours, calls[..|calls| - 1]), ours, calls[|calls| - 1])
  }

  /** An interface was moved, and what it had is noted. */
  predicate Noted(s: Standing, l: Luid) {
    exists y :: y in s.yielded && y.luid == l
  }

  /** The k-th call tries to give an interface back what is noted of it, and Windows refuses. */
  ghost predicate RefusedAt(first: Rows, ours: Luid, calls: seq<Call>, l: Luid, k: nat) {
    k < |calls| && l in calls[k].refuses && Noted(Run(first, ours, calls[..k]), l)
  }

  ghost predicate Refused(first: Rows, ours: Luid, calls: seq<Call>, l: Luid) {
    exists k :: RefusedAt(first, ours, calls, l, k)
  }

  /** What a rival is owed: the row it had at first, or when a give-back to it was last refused. */
  function OwedRow(first: Rows, ours: Luid, calls: seq<Call>, l: Luid): Row
    requires l in first
  {
    if calls == [] then first[l]
    else
      var before := calls[..|calls| - 1];
      var s := Run(first, ours, before);
      if l in calls[|calls| - 1].refuses && l in s.rows && Noted(s, l) then s.rows[l]
      else OwedRow(first, ours, before, l)
  }

  /** A rival has what it is owed, or that is noted of it. */
  ghost predicate Tracks(s: Standing, l: Luid, owed: Row) {
    && l in s.rows && s.rows[l] == owed.(metric := s.rows[l].metric, auto := s.rows[l].auto)
    && (forall y | y in s.yielded && y.luid == l :: y.metric == owed.metric && y.auto == owed.auto)
    && (!Noted(s, l) ==> s.rows[l] == owed)
  }

  /** Giving back restores what is noted, unless Windows refuses, and forgets it either way. */
  lemma {:induction false} RestoreRow(rows: Rows, refuses: set<Luid>, yielded: seq<Yielded>, l: Luid, owed: Row)
    requires Tracks(Standing(rows, yielded), l, owed)
    ensures
      var r := Restore(rows, refuses, yielded);
      r[l] == if l !in refuses && Noted(Standing(rows, yielded), l) then owed else rows[l]
  {
    if yielded != [] {
      var front, last := yielded[..|yielded| - 1], yielded[|yielded| - 1];
      assert yielded == front + [last];
      assert forall y | y in front :: y in yielded;
      assert Noted(Standing(rows, yielded), l) <==> Noted(Standing(rows, front), l) || last.luid == l;
      if Noted(Standing(rows, front), l) {
        RestoreRow(rows, refuses, front, l, owed);
      } else {
        RestoreLeaves(rows, refuses, front, l);
      }
    }
  }

  lemma {:induction false} RestoreLeaves(rows: Rows, refuses: set<Luid>, yielded: seq<Yielded>, l: Luid)
    requires l in rows && !Noted(Standing(rows, yielded), l)
    ensures Restore(rows, refuses, yielded)[l] == rows[l]
  {
    if yielded != [] {
      var front, last := yielded[..|yielded| - 1], yielded[|yielded| - 1];
      assert forall y | y in front :: y in yielded;
      assert last in yielded;
      RestoreLeaves(rows, refuses, front, l);
    }
  }

  /** Every move made notes what the interface had. */
  lemma {:induction false} MakeTracks(s: Standing, refuses: set<Luid>, moves: seq<Move>, held: string, l: Luid)
    requires l in s.rows && s.yielded == []
    requires forall m | m in moves && m.rival.luid == l ::
             m.rival.metric == s.rows[l].metric && m.rival.auto == s.rows[l].auto
    ensures Tracks(Make(s, refuses, moves, held).0, l, s.rows[l])
  {
    if moves != [] {
      var front, last := moves[..|moves| - 1], moves[|moves| - 1];
      MakeTracks(s, refuses, front, held, l);
      var before, after := Make(s, refuses, front, held).0, Make(s, refuses, moves, held).0;
      if after != before {
        var y := Yielded(last.rival.luid, last.rival.name, last.rival.metric, last.rival.auto);
        assert y in after.yielded && forall z | z in before.yielded :: z in after.yielded;
        assert Noted(before, l) ==> Noted(after, l);
      }
    }
  }

  lemma TakeTracks(rows: Rows, routes: seq<Route>, refuses: set<Luid>, ours: Luid, l: Luid)
    requires l in rows
    ensures Tracks(Take(Standing(rows, []), routes, refuses, ours).0, l, rows[l])
  {
    var claims := Claims(rows, routes);
    var mine := Mine(claims, ours);
    if mine.Some? {
      MovesAre(claims, mine.value);
      ClaimsAre(rows, routes, Holder(rows, routes));
      hide Mine, Holder, MovesFor, HeldBy, ClaimsFrom, Make;
      MakeTracks(Standing(rows, []), refuses, MovesFor(claims, mine.value), HeldBy(claims, mine.value), l);
    }
  }

  /** What a call leaves a rival: what it is owed, or a raised metric with that noted. */
  lemma StepTracks(s: Standing, ours: Luid, c: Call, l: Luid, owed: Row)
    requires Tracks(s, l, owed) && l != ours
    ensures
      var now := if l in c.refuses && Noted(s, l) then s.rows[l] else owed;
      && Tracks(Step(s, ours, c), l, now)
      && (c.Shut? || !c.prefer ==> Step(s, ours, c).yielded == [] && Step(s, ours, c).rows[l] == now)
  {
    hide Take, Restore, Claims;
    RestoreRow(s.rows, c.refuses, s.yielded, l, owed);
    if c.Switch? && c.prefer {
      var given := Restore(s.rows, c.refuses, s.yielded);
      TakeTracks(Set(given, c.refuses, ours, PREFERRED_METRIC, false), c.routes, c.refuses, ours, l);
    }
  }

  lemma {:induction false} RunTracks(first: Rows, ours: Luid, calls: seq<Call>, l: Luid)
    requires l in first && l != ours
    ensures Tracks(Run(first, ours, calls), l, OwedRow(first, ours, calls, l))
  {
    hide Step;
    if calls != [] {
      var before := calls[..|calls| - 1];
      RunTracks(first, ours, before, l);
      StepTracks(Run(first, ours, before), ours, calls[|calls| - 1], l, OwedRow(first, ours, before, l));
    }
  }

  /** Any sequence of calls that ends by switching off or closing, whatever Windows refuses on the way, leaves
      every rival with exactly what it is owed, and nothing noted. */
  lemma GivenBackIsOwed(first: Rows, ours: Luid, calls: seq<Call>, l: Luid)
    requires l in first && l != ours && calls != [] && (calls[|calls| - 1].Switch? ==> !calls[|calls| - 1].prefer)
    ensures
      var s := Run(first, ours, calls);
      s.yielded == [] && l in s.rows && s.rows[l] == OwedRow(first, ours, calls, l)
  {
    hide Step;
    var before := calls[..|calls| - 1];
    RunTracks(first, ours, before, l);
    StepTracks(Run(first, ours, before), ours, calls[|calls| - 1], l, OwedRow(first, ours, before, l));
  }

  // ----- and that is what it had at first, unless Windows refused -----

  lemma RefusedPrefix(first: Rows, ours: Luid, calls: seq<Call>, l: Luid)
    requires calls != []
    ensures
      var before, last := calls[..|calls| - 1], calls[|calls| - 1];
      Refused(first, ours, calls, l) <==>
        Refused(first, ours, before, l) || (l in last.refuses && Noted(Run(first, ours, before), l))
  {
    hide Run, Noted;
    var before := calls[..|calls| - 1];
    forall k: nat | k < |before| ensures calls[..k] == before[..k] {}
    assert calls[..|before|] == before;
    forall k: nat | k < |before|
      ensures RefusedAt(first, ours, calls, l, k) <==> RefusedAt(first, ours, before, l, k)
    {
      assert calls[..k] == before[..k];
    }
    assert RefusedAt(first, ours, calls, l, |before|) <==>
           l in calls[|before|].refuses && Noted(Run(first, ours, before), l);
    if Refused(first, ours, calls, l) {
      var k: nat :| RefusedAt(first, ours, calls, l, k);
      if k < |before| { assert RefusedAt(first, ours, before, l, k); }
    }
    if Refused(first, ours, before, l) {
      var k: nat :| RefusedAt(first, ours, before, l, k);
      assert RefusedAt(first, ours, calls, l, k);
    }
  }

  /** Every time the switch goes on, the totals fit. */
  predicate AlwaysFits(first: Rows, ours: Luid, calls: seq<Call>) {
    forall k | 0 <= k < |calls| && calls[k].Switch? && calls[k].prefer ::
      Fits(Measured(Run(first, ours, calls[..k]), calls[k].refuses, ours), calls[k].routes, ours)
  }

  /** A rival that is noted stands above what it is owed. */
  predicate Raised(s: Standing, l: Luid, owed: Row)
    requires l in s.rows
  {
    Noted(s, l) ==> s.rows[l].metric > owed.metric
  }

  lemma {:induction false} MakeRaises(s: Standing, refuses: set<Luid>, moves: seq<Move>, held: string, l: Luid)
    requires l in s.rows && s.yielded == []
    requires forall m | m in moves && m.rival.luid == l :: m.metric > s.rows[l].metric
    ensures Raised(Make(s, refuses, moves, held).0, l, s.rows[l])
  {
    if moves != [] {
      var front, last := moves[..|moves| - 1], moves[|moves| - 1];
      MakeRaises(s, refuses, front, held, l);
      var before, after := Make(s, refuses, front, held).0, Make(s, refuses, moves, held).0;
      if after != before {
        assert after.yielded == before.yielded + [after.yielded[|before.yielded|]];
        assert last.rival.luid == l ==> last in moves;
        if Noted(after, l) && last.rival.luid != l {
          var y :| y in after.yielded && y.luid == l;
          assert y in before.yielded;
          assert Noted(before, l);
        }
      }
    }
  }

  lemma TakeRaises(rows: Rows, routes: seq<Route>, refuses: set<Luid>, ours: Luid, l: Luid)
    requires l in rows && l != ours && Fits(rows, routes, ours)
    ensures Raised(Take(Standing(rows, []), routes, refuses, ours).0, l, rows[l])
  {
    var claims := Claims(rows, routes);
    var found := Mine(claims, ours);
    if found.Some? {
      var mine := found.value;
      MovesAre(claims, mine);
      ClaimsAre(rows, routes, Holder(rows, routes));
      MineFits(rows, routes, ours, mine);
      forall m | m in MovesFor(claims, mine) && m.rival.luid == l ensures m.metric > rows[l].metric {
        PastIsPast(mine, m.rival);
      }
      hide Mine, Holder, MovesFor, HeldBy, ClaimsFrom, Make, Past, Added;
      MakeRaises(Standing(rows, []), refuses, MovesFor(claims, mine), HeldBy(claims, mine), l);
    }
  }

  lemma StepRaises(s: Standing, ours: Luid, c: Call, l: Luid, owed: Row)
    requires Tracks(s, l, owed) && l != ours
    requires c.Switch? && c.prefer ==> Fits(Measured(s, c.refuses, ours), c.routes, ours)
    ensures
      var now := if l in c.refuses && Noted(s, l) then s.rows[l] else owed;
      l in Step(s, ours, c).rows && Raised(Step(s, ours, c), l, now)
  {
    hide Take, Restore, Claims, Fits;
    RestoreRow(s.rows, c.refuses, s.yielded, l, owed);
    if c.Switch? && c.prefer { TakeRaises(Measured(s, c.refuses, ours), c.routes, c.refuses, ours, l); }
  }

  lemma {:induction false} RunRaises(first: Rows, ours: Luid, calls: seq<Call>, l: Luid)
    requires l in first && l != ours && AlwaysFits(first, ours, calls)
    ensures
      var s, owed := Run(first, ours, calls), OwedRow(first, ours, calls, l);
      && l in s.rows && Raised(s, l, owed)
      && (if Refused(first, ours, calls, l) then owed.metric > first[l].metric else owed == first[l])
  {
    hide Step, Refused, Fits;
    RunTracks(first, ours, calls, l);
    if calls == [] {
      NothingRefused(first, ours, l);
    } else {
      var before, last := calls[..|calls| - 1], calls[|calls| - 1];
      assert calls[..|before|] == before;
      forall k | 0 <= k < |before| ensures calls[..k] == before[..k] {}
      RunRaises(first, ours, before, l);
      RunTracks(first, ours, before, l);
      StepRaises(Run(first, ours, before), ours, last, l, OwedRow(first, ours, before, l));
      RefusedPrefix(first, ours, calls, l);
    }
  }

  lemma NothingRefused(first: Rows, ours: Luid, l: Luid)
    ensures !Refused(first, ours, [], l)
  {}

  /** So after the last give-back a rival is as it was at first, exactly if Windows refused no give-back of
      what was noted of it. */
  lemma GivenBackExactlyUnlessRefused(first: Rows, ours: Luid, calls: seq<Call>, l: Luid)
    requires l in first && l != ours && calls != [] && (calls[|calls| - 1].Switch? ==> !calls[|calls| - 1].prefer)
    requires AlwaysFits(first, ours, calls)
    ensures l in Run(first, ours, calls).rows
    ensures Run(first, ours, calls).rows[l] == first[l] <==> !Refused(first, ours, calls, l)
  {
    hide Run, Refused, AlwaysFits, OwedRow;
    GivenBackIsOwed(first, ours, calls, l);
    RunRaises(first, ours, calls, l);
  }

  /** With nothing ever refused, everything is given back, whether the totals fit or not. */
  lemma EverythingIsGivenBack(first: Rows, ours: Luid, calls: seq<Call>)
    requires calls != [] && (calls[|calls| - 1].Switch? ==> !calls[|calls| - 1].prefer)
    requires forall c | c in calls :: c.refuses == {}
    ensures
      var s := Run(first, ours, calls);
      forall l | l in first && l != ours :: s.yielded == [] && l in s.rows && s.rows[l] == first[l]
  {
    forall l | l in first && l != ours
      ensures Run(first, ours, calls).yielded == []
      ensures l in Run(first, ours, calls).rows && Run(first, ours, calls).rows[l] == first[l]
    {
      GivenBackIsOwed(first, ours, calls, l);
      OwedFirst(first, ours, calls, l);
    }
  }

  lemma {:induction false} OwedFirst(first: Rows, ours: Luid, calls: seq<Call>, l: Luid)
    requires l in first && forall c | c in calls :: c.refuses == {}
    ensures OwedRow(first, ours, calls, l) == first[l]
  {
    if calls != [] {
      assert calls[|calls| - 1] in calls;
      OwedFirst(first, ours, calls[..|calls| - 1], l);
    }
  }

  // ----- the tunnel's own row -----

  /** What is moved and noted is rivals only. */
  lemma {:induction false} MakeSpares(s: Standing, refuses: set<Luid>, moves: seq<Move>, held: string, l: Luid)
    requires l in s.rows && !Noted(s, l) && forall m | m in moves :: m.rival.luid != l
    ensures
      var r := Make(s, refuses, moves, held).0;
      !Noted(r, l) && r.rows[l] == s.rows[l]
  {
    if moves != [] {
      var front, last := moves[..|moves| - 1], moves[|moves| - 1];
      assert last in moves && forall m | m in front :: m in moves;
      MakeSpares(s, refuses, front, held, l);
    }
  }

  lemma TakeSpares(s: Standing, routes: seq<Route>, refuses: set<Luid>, ours: Luid)
    requires ours in s.rows && !Noted(s, ours)
    ensures
      var r := Take(s, routes, refuses, ours).0;
      !Noted(r, ours) && r.rows[ours] == s.rows[ours]
  {
    var claims := Claims(s.rows, routes);
    var mine := Mine(claims, ours);
    if mine.Some? {
      MineIsOurs(claims, ours);
      MovesAre(claims, mine.value);
      hide Mine, Claims, MovesFor, HeldBy, Make;
      MakeSpares(s, refuses, MovesFor(claims, mine.value), HeldBy(claims, mine.value), ours);
    }
  }

  lemma OwnRowStep(s: Standing, ours: Luid, c: Call)
    requires ours in s.rows && !Noted(s, ours)
    ensures
      var r := Step(s, ours, c);
      && ours in r.rows && !Noted(r, ours)
      && r.rows[ours] == if c.Shut? || ours in c.refuses then s.rows[ours]
                         else s.rows[ours].(metric := if c.prefer then 1 else 0, auto := !c.prefer)
  {
    hide Take, Restore, Claims;
    RestoreLeaves(s.rows, c.refuses, s.yielded, ours);
    if c.Switch? && c.prefer {
      var given := Restore(s.rows, c.refuses, s.yielded);
      TakeSpares(Standing(Set(given, c.refuses, ours, PREFERRED_METRIC, false), []), c.routes, c.refuses, ours);
    }
  }

  /** The tunnel's own metric is what the last switch that was not refused made it: pinned to the floor if on, and
      Windows's own to choose again if off. Nothing else of its row ever changes, and it is never noted as moved. */
  lemma {:induction false} OwnRowFollowsSwitch(first: Rows, ours: Luid, calls: seq<Call>)
    requires ours in first
    ensures
      var s := Run(first, ours, calls);
      && ours in s.rows && !Noted(s, ours)
      && s.rows[ours] == first[ours].(metric := s.rows[ours].metric, auto := s.rows[ours].auto)
      && (calls == [] ==> s.rows[ours] == first[ours])
      && (calls != [] ==>
            var last := calls[|calls| - 1];
            if last.Shut? || ours in last.refuses
            then s.rows[ours] == Run(first, ours, calls[..|calls| - 1]).rows[ours]
            else s.rows[ours].auto == !last.prefer && s.rows[ours].metric == if last.prefer then 1 else 0)
  {
    hide Step;
    if calls != [] {
      OwnRowFollowsSwitch(first, ours, calls[..|calls| - 1]);
      OwnRowStep(Run(first, ours, calls[..|calls| - 1]), ours, calls[|calls| - 1]);
    }
  }

  // ----- an interface that is down -----

  /** It holds nothing and claims nothing, so it is left alone. */
  lemma DownIsLeftAlone(s: Standing, routes: seq<Route>, refuses: set<Luid>, ours: Luid, l: Luid)
    requires l in s.rows && !s.rows[l].connected
    ensures forall c | c in Claims(s.rows, routes) :: c.luid != l
    ensures l != 0 ==> Holder(s.rows, routes) != l
    ensures Take(s, routes, refuses, ours).0.rows[l] == s.rows[l]
  {
    DownClaimsNothing(s.rows, routes, Holder(s.rows, routes), l);
    if l != 0 { DownHoldsNothing(s.rows, routes, 0, NO_METRIC, l); }
    var claims := Claims(s.rows, routes);
    var mine := Mine(claims, ours);
    if mine.Some? {
      MovesAre(claims, mine.value);
      hide Mine, Claims, MovesFor, HeldBy, Make;
      MakeLeaves(s, refuses, MovesFor(claims, mine.value), HeldBy(claims, mine.value), l);
    }
  }

  lemma {:induction false} DownClaimsNothing(rows: Rows, routes: seq<Route>, internet: Luid, l: Luid)
    requires l in rows && !rows[l].connected
    ensures forall c | c in ClaimsFrom(rows, routes, internet) :: c.luid != l
    decreases |routes|
  {
    if routes != [] { DownClaimsNothing(rows, routes[1..], internet, l); }
  }

  lemma {:induction false} DownHoldsNothing(rows: Rows, routes: seq<Route>, holder: Luid, best: uint32, l: Luid)
    requires l in rows && !rows[l].connected && holder != l
    ensures BestDefault(rows, routes, holder, best) != l
    decreases |routes|
  {
    if routes != [] {
      DownHoldsNothing(rows, routes[1..], holder, best, l);
      if routes[0].luid in rows && routes[0].luid != l {
        DownHoldsNothing(rows, routes[1..], routes[0].luid, Worth(rows, routes[0]), l);
      }
    }
  }

  // ----- and Windows can refuse -----

  const TUNNEL := Row("tunnel", 25, true, true)
  const RIVAL := Row("rival", 1, false, true)
  const BOTH := [Route(1, Multicast, 0), Route(2, Multicast, 0)]
  const AT_FIRST := map[1 := TUNNEL, 2 := RIVAL]

  /** The tunnel at the floor, and tied with its rival. */
  const TIED := map[1 := TUNNEL.(metric := 1, auto := false), 2 := RIVAL]

  lemma RunThen(first: Rows, ours: Luid, calls: seq<Call>, c: Call)
    ensures Run(first, ours, calls + [c]) == Step(Run(first, ours, calls), ours, c)
  {
    hide Step;
    assert (calls + [c])[..|calls|] == calls;
  }

  /** On with nothing refused, off while the rival's metric cannot be set, and closed: the rival is left with
      the metric that put it behind the tunnel. */
  lemma RaisedForGood()
    ensures
      var calls := [Switch(true, BOTH, {}), Switch(false, BOTH, {2}), Shut({})];
      var s := Run(AT_FIRST, 1, calls);
      && AlwaysFits(AT_FIRST, 1, calls) && RefusedAt(AT_FIRST, 1, calls, 2, 1)
      && 2 in s.rows && s.rows[2] == RIVAL.(metric := 2)
  {
    hide Step, Fits, Run, Noted, Measured;
    var on, off, shut := Switch(true, BOTH, {}), Switch(false, BOTH, {2}), Shut({});
    var calls := [on, off, shut];
    assert [] + [on] == [on];
    assert [on] + [off] == [on, off];
    assert [on, off] + [shut] == calls;
    assert calls[..0] == [] && calls[..1] == [on];
    assert calls[0] == on && calls[1] == off && calls[2] == shut;
    RunThen(AT_FIRST, 1, [], on);
    RunThen(AT_FIRST, 1, [on], off);
    RunThen(AT_FIRST, 1, [on, off], shut);
    SwitchedOn();
    SwitchedOff();
  }

  lemma SwitchedOn()
    ensures Measured(Standing(AT_FIRST, []), {}, 1) == TIED && Fits(TIED, BOTH, 1)
    ensures Run(AT_FIRST, 1, []) == Standing(AT_FIRST, [])
    ensures Step(Standing(AT_FIRST, []), 1, Switch(true, BOTH, {})) == Moved()
  {
    hide Take, Claims;
    RivalMoves();
  }

  /** The rival moved behind the tunnel, and that noted. */
  function Moved(): Standing {
    Standing(TIED[2 := RIVAL.(metric := 2)], [Yielded(2, "rival", 1, false)])
  }

  lemma SwitchedOff()
    ensures Noted(Moved(), 2)
    ensures
      var s := Step(Moved(), 1, Switch(false, BOTH, {2}));
      s.yielded == [] && 2 in s.rows && s.rows[2] == RIVAL.(metric := 2) && Step(s, 1, Shut({})) == s
  {
    var y := Yielded(2, "rival", 1, false);
    assert y in Moved().yielded;
    assert Moved().yielded[..0] == [];
    assert Restore(Moved().rows, {2}, Moved().yielded) == Moved().rows;
  }

  /** The rival ties with the tunnel, so it is moved one past it. */
  lemma RivalMoves()
    ensures Take(Standing(TIED, []), BOTH, {}, 1).0 == Moved()
  {
    hide Claims, Mine, MovesFor, HeldBy, Make;
    var mine, rival := Claim(1, "tunnel", 0, 1, false, false), Claim(2, "rival", 0, 1, false, false);
    BothClaim(mine, rival);
    MineIs(mine, rival);
    MoveIs(mine, rival);
    OneMove(rival, HeldBy([mine, rival], mine));
  }

  lemma BothClaim(mine: Claim, rival: Claim)
    requires mine == Claim(1, "tunnel", 0, 1, false, false) && rival == Claim(2, "rival", 0, 1, false, false)
    ensures Claims(TIED, BOTH) == [mine, rival]
  {
    hide BestDefault, Holder;
    NobodyHolds();
    assert BOTH[1..] == [BOTH[1]] && BOTH[1..][1..] == [];
    assert ClaimsFrom(TIED, BOTH[1..], 0) == [rival];
  }

  lemma NobodyHolds()
    ensures Holder(TIED, BOTH) == 0
  {
    hide BestDefault;
    NoneBetterKeeps(TIED, BOTH, 0, NO_METRIC);
  }

  lemma MoveIs(mine: Claim, rival: Claim)
    requires mine == Claim(1, "tunnel", 0, 1, false, false) && rival == Claim(2, "rival", 0, 1, false, false)
    ensures MovesFor([mine, rival], mine) == [Move(rival, 2)]
  {
    assert [mine, rival][..1] == [mine] && [mine][..0] == [];
    assert Past(mine, rival) == 2;
    assert MovesFor([mine], mine) == [];
  }

  lemma OneMove(rival: Claim, held: string)
    requires rival == Claim(2, "rival", 0, 1, false, false)
    ensures Make(Standing(TIED, []), {}, [Move(rival, 2)], held).0 == Moved()
  {
    assert [Move(rival, 2)][..0] == [];
    assert Make(Standing(TIED, []), {}, [], held) == (Standing(TIED, []), held);
  }

  lemma MineIs(mine: Claim, rival: Claim)
    requires mine.luid == 1 && rival.luid == 2
    ensures Mine([mine, rival], 1) == Some(mine)
  {
    assert [mine, rival][..1] == [mine];
    assert Mine([mine], 1) == Some(mine);
  }
}
