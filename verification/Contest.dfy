/** The contest for the machine's discovery route: who holds it, what has to move for the tunnel to
    hold it, and giving it all back. Metrics are 32-bit and wrap. */
module Contest {
  import opened Netip
  import opened Wrappers

  const MODULUS := 0x1_0000_0000
  const NO_METRIC: uint32 := 0xffff_ffff
  const PREFERRED_METRIC: uint32 := 1

  type Luid = nat

  datatype Destination = Multicast | Internet | Elsewhere

  datatype Route = Route(luid: Luid, destination: Destination, metric: uint32)

  /** One interface as Windows keeps it. */
  datatype Row = Row(name: string, metric: uint32, auto: bool, connected: bool)

  type Rows = map<Luid, Row>

  datatype Claim = Claim(luid: Luid, name: string, route: uint32, metric: uint32, auto: bool, internet: bool) {
    function Total(): uint32 { Added(route, metric) }
  }

  datatype Move = Move(rival: Claim, metric: uint32)

  datatype Yielded = Yielded(luid: Luid, name: string, metric: uint32, auto: bool)

  datatype TunError = ErrNoRoute | ErrRefused | ErrInterfaceTable | ErrRouteTable

  function Added(a: uint32, b: uint32): uint32 { (a + b) % MODULUS }

  predicate Live(rows: Rows, r: Route) { r.luid in rows && rows[r.luid].connected }

  /** What a route is worth: its own metric and its interface's, as Windows compares them. */
  function Worth(rows: Rows, r: Route): uint32
    requires r.luid in rows
  {
    Added(r.metric, rows[r.luid].metric)
  }

  // ----- reading the standings -----

  /** The holder of the best default route, having seen one worth `best` so far. The first of equals. */
  function BestDefault(rows: Rows, routes: seq<Route>, holder: Luid, best: uint32): Luid
    decreases |routes|
  {
    if routes == [] then holder
    else
      var r := routes[0];
      if Live(rows, r) && r.destination == Internet && Worth(rows, r) < best
      then BestDefault(rows, routes[1..], r.luid, Worth(rows, r))
      else BestDefault(rows, routes[1..], holder, best)
  }

  function Holder(rows: Rows, routes: seq<Route>): Luid {
    BestDefault(rows, routes, 0, NO_METRIC)
  }

  function ClaimOf(rows: Rows, r: Route, internet: Luid): Claim
    requires r.luid in rows
  {
    var row := rows[r.luid];
    Claim(r.luid, row.name, r.metric, row.metric, row.auto, r.luid == internet)
  }

  function ClaimsFrom(rows: Rows, routes: seq<Route>, internet: Luid): (c: seq<Claim>)
    decreases |routes|
  {
    if routes == [] then []
    else
      var r := routes[0];
      (if Live(rows, r) && r.destination == Multicast then [ClaimOf(rows, r, internet)] else [])
      + ClaimsFrom(rows, routes[1..], internet)
  }

  function Claims(rows: Rows, routes: seq<Route>): seq<Claim> {
    ClaimsFrom(rows, routes, Holder(rows, routes))
  }

  // ----- what has to move -----

  /** The last claim that is ours. */
  function Mine(claims: seq<Claim>, ours: Luid): Option<Claim> {
    if claims == [] then None
    else
      var last := claims[|claims| - 1];
      if last.luid == ours then Some(last) else Mine(claims[..|claims| - 1], ours)
  }

  /** A rival that has to be dealt with: one the tunnel does not beat. A tie is not a win. */
  predicate Beats(rival: Claim, mine: Claim) {
    rival.luid != mine.luid && rival.Total() <= mine.Total()
  }

  /** The metric that puts a rival one past the tunnel, in the arithmetic it is computed in. */
  function Past(mine: Claim, rival: Claim): uint32 {
    (mine.Total() - rival.route + 1) % MODULUS
  }

  function MovesFor(claims: seq<Claim>, mine: Claim): seq<Move> {
    if claims == [] then []
    else
      var c := claims[|claims| - 1];
      MovesFor(claims[..|claims| - 1], mine)
      + (if Beats(c, mine) && !c.internet then [Move(c, Past(mine, c))] else [])
  }

  /** The last rival in the way that must be left alone. */
  function HeldBy(claims: seq<Claim>, mine: Claim): string {
    if claims == [] then ""
    else
      var c := claims[|claims| - 1];
      if Beats(c, mine) && c.internet then c.name else HeldBy(claims[..|claims| - 1], mine)
  }

  // ----- moving and giving back -----

  /** An interface's metric, pinned or handed back to Windows, unless Windows refuses. */
  function Set(rows: Rows, refuses: set<Luid>, luid: Luid, metric: uint32, auto: bool): (r: Rows)
    ensures r.Keys == rows.Keys
  {
    if luid !in rows || luid in refuses then rows else rows[luid := rows[luid].(metric := metric, auto := auto)]
  }

  datatype Standing = Standing(rows: Rows, yielded: seq<Yielded>)

  function Restore(rows: Rows, refuses: set<Luid>, yielded: seq<Yielded>): (r: Rows)
    ensures r.Keys == rows.Keys
  {
    if yielded == [] then rows
    else
      var y := yielded[|yielded| - 1];
      Set(Restore(rows, refuses, yielded[..|yielded| - 1]), refuses, y.luid, y.metric, y.auto)
  }

  /** Every move made in turn, noting what was there, and the name of the last that was refused. */
  function Make(s: Standing, refuses: set<Luid>, moves: seq<Move>, held: string): (r: (Standing, string))
    ensures r.0.rows.Keys == s.rows.Keys
  {
    if moves == [] then (s, held)
    else
      var m := moves[|moves| - 1];
      var (before, name) := Make(s, refuses, moves[..|moves| - 1], held);
      if m.rival.luid !in s.rows || m.rival.luid in refuses then (before, m.rival.name)
      else
        (Standing(Set(before.rows, refuses, m.rival.luid, m.metric, false),
                  before.yielded + [Yielded(m.rival.luid, m.rival.name, m.rival.metric, m.rival.auto)]),
         name)
  }

  function Take(s: Standing, routes: seq<Route>, refuses: set<Luid>, ours: Luid)
    : (r: (Standing, Result<string, TunError>))
    ensures r.0.rows.Keys == s.rows.Keys
  {
    var claims := Claims(s.rows, routes);
    var mine := Mine(claims, ours);
    if mine.None? then (s, Failure(ErrNoRoute))
    else
      var (made, held) := Make(s, refuses, MovesFor(claims, mine.value), HeldBy(claims, mine.value));
      (made, Success(held))
  }

  /** The switch: what was moved goes back first, either way. */
  function Prefer(s: Standing, routes: seq<Route>, refuses: set<Luid>, ours: Luid, prefer: bool)
    : (Standing, Result<string, TunError>)
  {
    var rows := Restore(s.rows, refuses, s.yielded);
    if ours !in rows || ours in refuses then (Standing(rows, []), Failure(ErrRefused))
    else if !prefer then (Standing(Set(rows, refuses, ours, 0, true), []), Success(""))
    else Take(Standing(Set(rows, refuses, ours, PREFERRED_METRIC, false), []), routes, refuses, ours)
  }

  function Close(s: Standing, refuses: set<Luid>): Standing {
    Standing(Restore(s.rows, refuses, s.yielded), [])
  }
}
