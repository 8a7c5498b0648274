/** The tunnel's adapter and the machine it is on. The switch for discovery is proved to do to the
    interface table what Contest.dfy says. */
module Adapter {
  import opened Contest
  import opened Netip
  import opened Wrappers

  /** What Windows holds: the interfaces, the routes, the interfaces it will not let be changed, and which of
      the two tables it will not let be read, if either. */
  class Machine {
    var rows: Rows
    var routes: seq<Route>
    var refuses: set<Luid>
    var unread: Option<TunError>

    constructor (rows: Rows, routes: seq<Route>, refuses: set<Luid>, unread: Option<TunError>)
      ensures this.rows == rows && this.routes == routes && this.refuses == refuses && this.unread == unread
    {
      this.rows, this.routes, this.refuses, this.unread := rows, routes, refuses, unread;
    }

    method SetInterfaceMetric(luid: Luid, metric: uint32, automatic: bool) returns (ok: bool)
      modifies `rows
      ensures rows == Set(old(rows), refuses, luid, metric, automatic)
      ensures ok <==> luid in old(rows) && luid !in refuses
    {
      if luid !in rows || luid in refuses {
        return false;
      }
      rows := rows[luid := rows[luid].(metric := metric, auto := automatic)];
      return true;
    }
  }

  /** The interface that holds the best default route, the first of equals. */
  method InternetHolder(live: Rows, routes: seq<Route>, ghost rows: Rows) returns (internet: Luid)
    requires live == map l | l in rows && rows[l].connected :: rows[l]
    ensures internet == Holder(rows, routes)
  {
    var best: uint32 := NO_METRIC;
    internet := 0;
    assert routes[0..] == routes;
    for i := 0 to |routes|
      invariant BestDefault(rows, routes[i..], internet, best) == Holder(rows, routes)
    {
      assert routes[i..][0] == routes[i] && routes[i..][1..] == routes[i + 1..];
      if routes[i].luid !in live || routes[i].destination != Internet {
        continue;
      }
      var total := Added(routes[i].metric, live[routes[i].luid].metric);
      if total < best {
        internet, best := routes[i].luid, total;
      }
    }
  }

  /** Every live interface's hold on the discovery route, in the route table's order. The routes are
      gone through twice, because who carries the internet is only known after all of them. */
  method MulticastClaims(machine: Machine) returns (r: Result<seq<Claim>, TunError>)
    ensures r == match machine.unread
                 case Some(err) => Failure(err)
                 case None => Success(Claims(machine.rows, machine.routes))
  {
    hide ClaimsFrom, Holder;
    if machine.unread.Some? {
      return Failure(machine.unread.value);
    }
    var live := map l | l in machine.rows && machine.rows[l].connected :: machine.rows[l];
    var routes := machine.routes;
    var internet := InternetHolder(live, routes, machine.rows);
    var claims: seq<Claim> := [];
    assert routes[0..] == routes;
    for i := 0 to |routes|
      invariant claims + ClaimsFrom(machine.rows, routes[i..], internet) == Claims(machine.rows, routes)
    {
      ClaimsStep(machine.rows, routes, i, internet, claims);
      if routes[i].luid !in live || routes[i].destination != Multicast {
        continue;
      }
      var row := live[routes[i].luid];
      claims := claims + [Claim(routes[i].luid, row.name, routes[i].metric, row.metric, row.auto,
                                routes[i].luid == internet)];
    }
    NoClaims(machine.rows, routes[|routes|..], internet);
    assert claims + [] == claims == Claims(machine.rows, routes);
    return Success(claims);
  }

  lemma NoClaims(rows: Rows, routes: seq<Route>, internet: Luid)
    requires routes == []
    ensures ClaimsFrom(rows, routes, internet) == []
  {}

  lemma ClaimsStep(rows: Rows, routes: seq<Route>, i: nat, internet: Luid, sofar: seq<Claim>)
    requires i < |routes|
    ensures
      var r := routes[i];
      var next := if Live(rows, r) && r.destination == Multicast then sofar + [ClaimOf(rows, r, internet)] else sofar;
      sofar + ClaimsFrom(rows, routes[i..], internet) == next + ClaimsFrom(rows, routes[i + 1..], internet)
  {
    assert routes[i..][0] == routes[i] && routes[i..][1..] == routes[i + 1..];
  }

  /** What has to move for ours to hold the route, and the name of anything that must be left alone. */
  method FindMoves(claims: seq<Claim>, ours: Luid) returns (r: Result<(seq<Move>, string), TunError>)
    ensures r == match Mine(claims, ours)
                 case None => Failure(ErrNoRoute)
                 case Some(mine) => Success((MovesFor(claims, mine), HeldBy(claims, mine)))
  {
    var mine: Option<Claim> := None;
    for i := 0 to |claims|
      invariant mine == Mine(claims[..i], ours)
      invariant mine.Some? ==> mine.value.luid == ours
    {
      assert claims[..i + 1][..i] == claims[..i];
      if claims[i].luid == ours {
        mine := Some(claims[i]);
      }
    }
    assert claims[..|claims|] == claims;
    if mine.None? {
      return Failure(ErrNoRoute);
    }
    var moves: seq<Move>, held := [], "";
    for i := 0 to |claims|
      invariant moves == MovesFor(claims[..i], mine.value) && held == HeldBy(claims[..i], mine.value)
    {
      assert claims[..i + 1][..i] == claims[..i];
      var rival := claims[i];
      if rival.luid == ours || rival.Total() > mine.value.Total() {
        continue;
      }
      if rival.internet {
        held := rival.name;
        continue;
      }
      moves := moves + [Move(rival, (mine.value.Total() - rival.route + 1) % MODULUS)];
    }
    return Success((moves, held));
  }

  class Device {
    const luid: Luid
    const machine: Machine
    var yielded: seq<Yielded>
    var closed: bool

    ghost function View(): Standing
      reads this, machine
    {
      Standing(machine.rows, yielded)
    }

    constructor (luid: Luid, machine: Machine)
      ensures this.luid == luid && this.machine == machine && yielded == [] && !closed
    {
      this.luid, this.machine := luid, machine;
      yielded, closed := [], false;
    }

    method TakeMulticastRoute() returns (r: Result<string, TunError>)
      modifies `yielded, machine`rows
      ensures machine.unread.None? ==> (View(), r) == Take(old(View()), machine.routes, machine.refuses, luid)
      ensures machine.unread.Some? ==> View() == old(View()) && r == Failure(machine.unread.value)
    {
      var claims := MulticastClaims(machine);
      if claims.Failure? {
        return Failure(claims.error);
      }
      var found := FindMoves(claims.value, luid);
      if found.Failure? {
        return Failure(found.error);
      }
      var moves, held := found.value.0, found.value.1;
      ghost var start, first := View(), held;
      for i := 0 to |moves|
        invariant (View(), held) == Make(start, machine.refuses, moves[..i], first)
      {
        assert moves[..i + 1][..i] == moves[..i];
        var m := moves[i];
        var ok := machine.SetInterfaceMetric(m.rival.luid, m.metric, false);
        if !ok {
          held := m.rival.name;
          continue;
        }
        yielded := yielded + [Yielded(m.rival.luid, m.rival.name, m.rival.metric, m.rival.auto)];
      }
      assert moves[..|moves|] == moves;
      return Success(held);
    }

    /** Gives every interface back, and forgets them, a refused one included. */
    method YieldBack()
      modifies `yielded, machine`rows
      ensures View() == Contest.Close(old(View()), machine.refuses)
    {
      ghost var rows := machine.rows;
      for i := 0 to |yielded|
        invariant yielded == old(yielded) && machine.rows == Restore(rows, machine.refuses, yielded[..i])
      {
        assert yielded[..i + 1][..i] == yielded[..i];
        var was := yielded[i];
        var _ := machine.SetInterfaceMetric(was.luid, was.metric, was.auto);
      }
      assert yielded[..|yielded|] == yielded;
      yielded := [];
    }

    method PreferForMulticast(prefer: bool) returns (r: Result<string, TunError>)
      modifies `yielded, machine`rows
      ensures machine.unread.None? || !prefer ==>
                (View(), r) == Prefer(old(View()), machine.routes, machine.refuses, luid, prefer)
      // With a table unread it ends as with no routes at all, but for the error.
      ensures machine.unread.Some? && prefer ==>
                var (s, none) := Prefer(old(View()), [], machine.refuses, luid, true);
                View() == s && r == if none == Failure(ErrNoRoute) then Failure(machine.unread.value) else none
    {
      YieldBack();
      if !prefer {
        var ok := machine.SetInterfaceMetric(luid, 0, true);
        if !ok {
          return Failure(ErrRefused);
        }
        return Success("");
      }
      var ok := machine.SetInterfaceMetric(luid, PREFERRED_METRIC, false);
      if !ok {
        return Failure(ErrRefused);
      }
      r := TakeMulticastRoute();
    }

    /** Once only, however often it is asked for. */
    method Close()
      modifies `yielded, `closed, machine`rows
      ensures closed
      ensures View() == if old(closed) then old(View()) else Contest.Close(old(View()), machine.refuses)
    {
      if closed {
        return;
      }
      YieldBack();
      closed := true;
    }
  }
}
