/** The coordination server's store: its transactions as the server runs them, each proved to do to the
    tables what its function in Records.dfy says. A transaction that fails commits nothing. */
module Storage {
  import opened MemberLaws
  import opened Netip
  import opened Records
  import opened RecordRuns
  import opened Subnets
  import opened Wrappers

  datatype Member = Member(device: Id, address: Option<uint32>, role: Role, online: bool)

  datatype Peer = Peer(device: Id, address: Option<uint32>, endpoint: Option<AddrPort>)

  datatype Counted = Counted(group: Id, online: nat, members: nat)

  datatype Stale = Stale(id: Id, group: Id, device: Id)

  /** Keys with their times, in the order of those times. */
  ghost predicate InOrder<K(!new)>(order: seq<K>, at: map<K, Time>) {
    && (forall k :: k in order <==> k in at)
    && (forall i, j | 0 <= i < j < |order| :: order[i] != order[j] && at[order[i]] <= at[order[j]])
  }

  lemma {:induction false} EarliestExists<K>(at: map<K, Time>, rest: set<K>)
    requires rest <= at.Keys && rest != {}
    ensures exists k :: k in rest && forall l | l in rest :: at[k] <= at[l]
  {
    var any :| any in rest;
    if rest == {any} {
      assert forall l | l in rest :: at[any] <= at[l];
    } else {
      EarliestExists(at, rest - {any});
      var k :| k in rest - {any} && forall l | l in rest - {any} :: at[k] <= at[l];
      var first := if at[any] < at[k] then any else k;
      assert forall l | l in rest :: at[first] <= at[l];
    }
  }

  /** What an ORDER BY gives: equal times in any order. */
  method OldestFirst<K(==,!new)>(at: map<K, Time>) returns (order: seq<K>)
    ensures InOrder(order, at)
  {
    order := [];
    var rest := at.Keys;
    while rest != {}
      invariant rest <= at.Keys
      invariant forall k :: k in order <==> k in at && k !in rest
      invariant forall k, l | k in order && l in rest :: at[k] <= at[l]
      invariant forall i, j | 0 <= i < j < |order| :: order[i] != order[j] && at[order[i]] <= at[order[j]]
      decreases rest
    {
      EarliestExists(at, rest);
      var k :| k in rest && forall l | l in rest :: at[k] <= at[l];
      rest, order := rest - {k}, order + [k];
    }
  }

  /** Every address spoken for in a group. */
  method TakenAddresses(rows: Memberships, group: Id) returns (taken: set<uint32>)
    ensures taken == Taken(rows, group)
  {
    taken := {};
    var rest := rows.Keys;
    while rest != {}
      invariant rest <= rows.Keys
      invariant taken == set k | k in rows && k !in rest && k.group == group && rows[k].Active() &&
                rows[k].address.Some?
                           :: rows[k].address.value
      decreases rest
    {
      var k :| k in rest;
      rest := rest - {k};
      if k.group == group && rows[k].Active() && rows[k].address.Some? {
        taken := taken + {rows[k].address.value};
      }
    }
  }

  /** Tries each address in turn, and stops at the broadcast address. */
  method FindFreeAddress(p: Prefix, taken: set<uint32>) returns (r: Option<uint32>)
    ensures r == Records.FreeAddress(p, taken)
  {
    var candidate := p.Network() + 1;
    NetworkFits(p);
    while Within(p, candidate)
      invariant p.Network() < candidate && FreeFrom(p, taken, candidate) == Records.FreeAddress(p, taken)
      decreases p.Broadcast() - candidate
    {
      WithinRange(p, candidate);
      WithinRange(p, candidate + 1);
      if !Within(p, candidate + 1) {
        break;
      }
      if candidate !in taken {
        return Some(candidate);
      }
      candidate := candidate + 1;
    }
    WithinRange(p, candidate);
    return None;
  }

  /** Whether a prefix contains a number that may have run past the last address there is. */
  predicate Within(p: Prefix, v: nat) {
    v < 0x1_0000_0000 && p.Contains(v)
  }

  lemma WithinRange(p: Prefix, v: nat)
    ensures Within(p, v) <==> p.Network() <= v <= p.Broadcast()
  {
    if v < 0x1_0000_0000 { ContainsRange(p, v); }
  }

  const DRAWS := 5

  /** The first of five draws that no group has, and none exactly if every one is somebody's. */
  ghost predicate FirstFree(db: Database, draws: nat -> string, code: Option<string>) {
    if code.None? then forall k: nat | k < 5 :: db.CodeUsed(draws(k))
    else exists n: nat | n < 5 ::
           draws(n) == code.value && !db.CodeUsed(draws(n)) && forall k: nat | k < n :: db.CodeUsed(draws(k))
  }

  class Store {
    var groups: map<Id, Group>
    var memberships: Memberships
    var sessions: map<Id, Session>

    function View(): Database
      reads this
    {
      Database(groups, memberships, sessions)
    }

    ghost predicate Valid()
      reads this
    {
      View().Inv()
    }

    constructor ()
      ensures Valid() && View() == EMPTY
    {
      groups, memberships, sessions := map[], map[], map[];
    }

    // ----- groups -----

    /** A join's rows, for the transaction around it to commit. */
    method InsertMembership(tables: Database, place: Place, id: Id, now: Time)
      returns (made: Database, r: Result<Membership, StoreError>)
      ensures (made, r) == tables.Insert(place, id, now)
    {
      if place.group !in tables.groups || (place !in tables.memberships && tables.IdUsed(id)) {
        return tables, Failure(ErrConstraint);
      }
      var previous := None;
      if place in tables.memberships {
        previous := tables.memberships[place].address;
      }
      var rows := Upsert(tables.memberships, place, id, now);
      var taken := TakenAddresses(rows, place.group);
      var address := previous;
      if address.None? || address.value in taken {
        address := FindFreeAddress(tables.groups[place.group].subnet, taken);
        if address.None? {
          return tables, Failure(ErrGroupFull);
        }
      }
      var row := rows[place].(address := address);
      rows := rows[place := row];
      return tables.(memberships := rows), Success(row);
    }

    /** Draws codes until one is nobody's, five times at most. */
    method FreeInviteCode(draws: nat -> string) returns (code: Option<string>)
      ensures FirstFree(View(), draws, code)
    {
      for attempt := 0 to DRAWS
        invariant forall k: nat | k < attempt :: View().CodeUsed(draws(k))
      {
        if !View().CodeUsed(draws(attempt)) {
          return Some(draws(attempt));
        }
      }
      return None;
    }

    method CreateGroup(id: Id, subnet: Prefix, draws: nat -> string, device: Id, membership: Id, now: Time)
      returns (r: Result<Membership, StoreError>, ghost code: Option<string>)
      requires Valid()
      modifies this
      ensures Valid() && FirstFree(old(View()), draws, code)
      ensures if code.None? then View() == old(View()) && r == Failure(ErrNoFreeCode)
              else (View(), r) == old(View()).CreateGroup(id, Group(subnet, code.value), device, membership, now)
    {
      hide Database.Inv;
      var drawn := FreeInviteCode(draws);
      code := drawn;
      if drawn.None? {
        return Failure(ErrNoFreeCode), code;
      }
      var group := Group(subnet, drawn.value);
      CreateKeeps(View(), id, group, device, membership, now);
      if id in groups || View().CodeUsed(group.inviteCode) {
        return Failure(ErrConstraint), code;
      }
      var tx := View().(groups := groups[id := group]);
      var made;
      made, r := InsertMembership(tx, Place(id, device), membership, now);
      if r.Failure? {
        return;
      }
      r := Success(r.value.(role := RoleOwner));
      groups, memberships := made.groups, made.memberships[Place(id, device) := r.value];
    }

    method AddMembership(place: Place, id: Id, now: Time) returns (r: Result<Membership, StoreError>)
      requires Valid()
      modifies `memberships
      ensures Valid() && (View(), r) == old(View()).AddMembership(place, id, now)
    {
      hide Database.Inv;
      JoinKeeps(View(), place, id, now);
      if place in memberships && memberships[place].bannedAt.Some? {
        return Failure(ErrBanned);
      }
      var made;
      made, r := InsertMembership(View(), place, id, now);
      memberships := made.memberships;
    }

    method RevokeMembership(group: Id, device: Id, now: Time) returns (err: Option<StoreError>)
      requires Valid()
      modifies `memberships, `sessions
      ensures Valid() && (View(), err) == old(View()).RevokeMembership(group, device, now)
    {
      hide Database.Inv;
      LeaveKeeps(View(), group, device, now);
      if !HasRow(memberships, group, device) {
        return Some(ErrNotFound);
      }
      var place := Place(group, device);
      memberships := memberships[place := memberships[place].(revokedAt := Some(now))];
      sessions := View().SessionsWithout(memberships[place].id);
      return None;
    }

    method RemoveMember(group: Id, owner: Id, target: Id, now: Time) returns (err: Option<StoreError>)
      requires Valid()
      modifies `memberships, `sessions
      ensures Valid() && (View(), err) == old(View()).RemoveMember(group, owner, target, now)
    {
      hide Database.Inv;
      RemoveKeeps(View(), group, owner, target, now);
      if owner == target {
        return Some(ErrForbidden);
      }
      err := View().OwnerOnly(group, owner);
      if err.Some? {
        return;
      }
      if !HasRow(memberships, group, target) {
        return Some(ErrNotFound);
      }
      var place := Place(group, target);
      memberships := memberships[place := memberships[place].(revokedAt := Some(now), bannedAt := Some(now))];
      var gone := memberships[place].id;
      sessions := map s | s in sessions && !(sessions[s].group == group && sessions[s].membership == gone) ::
        sessions[s];
    }

    method TransferOwnership(group: Id, owner: Id, target: Id) returns (err: Option<StoreError>)
      requires Valid()
      modifies `memberships
      ensures Valid() && (View(), err) == old(View()).TransferOwnership(group, owner, target)
    {
      hide Database.Inv;
      TransferKeeps(View(), group, owner, target);
      err := View().OwnerOnly(group, owner);
      if err.Some? {
        return;
      }
      if !HasRow(memberships, group, target) {
        return Some(ErrNotFound);
      }
      var to, from := Place(group, target), Place(group, owner);
      memberships := memberships[to := memberships[to].(role := RoleOwner)];
      memberships := memberships[from := memberships[from].(role := RoleMember)];
    }

    /** Only the owner gets a new code, and gets it back. */
    method ResetInviteCode(group: Id, owner: Id, draws: nat -> string) returns (r: Result<string, StoreError>)
      requires Valid()
      modifies `groups
      ensures Valid() && (r.Failure? ==> View() == old(View()))
      ensures old(View()).OwnerOnly(group, owner).Some? ==> r == Failure(old(View()).OwnerOnly(group, owner).value)
      ensures old(View()).OwnerOnly(group, owner).None? ==>
                if FirstFree(old(View()), draws, None) then r == Failure(ErrNoFreeCode)
                else if group !in old(groups) then r == Failure(ErrNotFound)
                else r.Success? && FirstFree(old(View()), draws, Some(r.value)) &&
                     (View(), None) == old(View()).ResetInviteCode(group, owner, r.value)
    {
      hide Database.Inv;
      var err := View().OwnerOnly(group, owner);
      if err.Some? {
        return Failure(err.value);
      }
      var code := FreeInviteCode(draws);
      if code.None? {
        return Failure(ErrNoFreeCode);
      }
      if group !in groups {
        return Failure(ErrNotFound);
      }
      ResetKeeps(View(), group, owner, code.value);
      groups := groups[group := groups[group].(inviteCode := code.value)];
      return Success(code.value);
    }

    /** Deletes the group's row. The memberships and sessions that refer to it cascade. */
    method DeleteGroup(group: Id, owner: Id) returns (err: Option<StoreError>)
      requires Valid()
      modifies this
      ensures Valid() && (View(), err) == old(View()).DeleteGroup(group, owner)
    {
      hide Database.Inv;
      DeleteKeeps(View(), group, owner);
      err := View().OwnerOnly(group, owner);
      if err.Some? {
        return;
      }
      if group !in groups {
        return Some(ErrNotFound);
      }
      groups := groups - {group};
      var gone := set k | k in memberships && k.group == group :: memberships[k].id;
      memberships := map k | k in memberships && k.group != group :: memberships[k];
      sessions := map s | s in sessions && sessions[s].group != group && sessions[s].membership !in gone :: sessions[s];
    }

    // ----- sessions -----

    /** The handler that connects a device: it looks the membership up, then replaces its session. */
    method HandleCreateSession(group: Id, device: Id, id: Id, now: Time) returns (r: Result<Session, StoreError>)
      requires Valid()
      modifies `sessions
      ensures Valid() && (View(), r) == old(View()).Connect(group, device, id, now)
    {
      hide Database.Inv;
      ConnectKeeps(View(), group, device, id, now);
      if !HasRow(memberships, group, device) || group !in groups {
        return Failure(ErrNotFound);
      }
      r := CreateSession(group, memberships[Place(group, device)], id, now);
    }

    method CreateSession(group: Id, m: Membership, id: Id, now: Time) returns (r: Result<Session, StoreError>)
      modifies `sessions
      ensures
        var others := old(View()).SessionsWithout(m.id);
        var session := Session(group, m.id, None, now, now);
        (sessions, r) ==
          if id in others then (old(sessions), Failure(ErrConstraint)) else (others[id := session], Success(session))
    {
      var others := View().SessionsWithout(m.id);
      if id in others {
        return Failure(ErrConstraint);
      }
      sessions := others[id := Session(group, m.id, None, now, now)];
      return Success(sessions[id]);
    }

    method SetSessionEndpoint(id: Id, endpoint: AddrPort, now: Time) returns (err: Option<StoreError>)
      requires Valid()
      modifies `sessions
      ensures Valid() && (View(), err) == old(View()).SetSessionEndpoint(id, endpoint, now)
    {
      hide Database.Inv;
      MoveKeeps(View(), id, endpoint, now);
      if id !in sessions {
        return Some(ErrNotFound);
      }
      sessions := sessions[id := sessions[id].(endpoint := Some(endpoint), lastSeenAt := now)];
      return None;
    }

    method TouchSession(id: Id, now: Time) returns (err: Option<StoreError>)
      requires Valid()
      modifies `sessions
      ensures Valid() && (View(), err) == old(View()).TouchSession(id, now)
    {
      hide Database.Inv;
      TouchKeeps(View(), id, now);
      if id !in sessions {
        return Some(ErrNotFound);
      }
      sessions := sessions[id := sessions[id].(lastSeenAt := now)];
      return None;
    }

    method DeleteSession(id: Id) returns (err: Option<StoreError>)
      requires Valid()
      modifies `sessions
      ensures Valid() && (View(), err) == old(View()).DeleteSession(id)
    {
      hide Database.Inv;
      DisconnectKeeps(View(), id);
      if id !in sessions {
        return Some(ErrNotFound);
      }
      sessions := sessions - {id};
      return None;
    }

    /** The row a session's membership id names, which the join on that id finds. */
    method MemberOf(membership: Id) returns (place: Option<Place>)
      ensures place.Some? ==> place.value in memberships && memberships[place.value].id == membership
      ensures place.None? ==> forall k | k in memberships :: memberships[k].id != membership
    {
      var rest := memberships.Keys;
      while rest != {}
        invariant rest <= memberships.Keys
        invariant forall k | k in memberships && k !in rest :: memberships[k].id != membership
        decreases rest
      {
        var k :| k in rest;
        if memberships[k].id == membership {
          return Some(k);
        }
        rest := rest - {k};
      }
      return None;
    }

    /** The sessions nobody has heard from, joined with whose they are: every one, each once. */
    method FindStale(cutoff: Time) returns (stale: seq<Stale>)
      requires Valid()
      ensures forall i | 0 <= i < |stale| :: IsStale(View(), stale[i], cutoff)
      ensures forall s | s in sessions && sessions[s].lastSeenAt <= cutoff ::
              exists i :: 0 <= i < |stale| && stale[i].id == s
      ensures forall i, j | 0 <= i < j < |stale| :: stale[i].id != stale[j].id
    {
      hide Database.Inv;
      stale := [];
      var rest := sessions.Keys;
      while rest != {}
        invariant rest <= sessions.Keys
        invariant forall i | 0 <= i < |stale| :: IsStale(View(), stale[i], cutoff) && stale[i].id !in rest
        invariant forall s | s in sessions && s !in rest && sessions[s].lastSeenAt <= cutoff ::
                    exists i :: 0 <= i < |stale| && stale[i].id == s
        invariant forall i, j | 0 <= i < j < |stale| :: stale[i].id != stale[j].id
        decreases rest
      {
        var s :| s in rest;
        rest := rest - {s};
        if sessions[s].lastSeenAt <= cutoff {
          var place := MemberOf(sessions[s].membership);
          JoinFinds(View(), s, place);
          ghost var before := stale;
          stale := stale + [Stale(s, sessions[s].group, place.value.device)];
          assert stale[|before|].id == s && forall i | 0 <= i < |before| :: stale[i] == before[i];
        }
      }
    }

    /** Drops the sessions nobody has heard from. What it reports is exactly what it drops: each once,
        with its group and the device that held it. */
    method ExpireSessions(cutoff: Time) returns (stale: seq<Stale>)
      requires Valid()
      modifies `sessions
      ensures Valid() && View() == old(View()).ExpireSessions(cutoff)
      ensures forall i | 0 <= i < |stale| :: stale[i].id !in sessions && IsStale(old(View()), stale[i], cutoff)
      ensures forall s | s in old(sessions) && s !in sessions :: exists i :: 0 <= i < |stale| && stale[i].id == s
      ensures forall i, j | 0 <= i < j < |stale| :: stale[i].id != stale[j].id
    {
      hide Database.Inv;
      ExpireKeeps(View(), cutoff);
      stale := FindStale(cutoff);
      if stale == [] {
        assert sessions == View().ExpireSessions(cutoff).sessions;
        return;
      }
      sessions := map s | s in sessions && sessions[s].lastSeenAt > cutoff :: sessions[s];
    }

    // ----- lists -----

    /** Everyone in a group, oldest membership first: each active member once, online exactly when they
        have a session. The join would repeat a member with two. */
    method Members(group: Id) returns (list: seq<Member>)
      requires Valid()
      ensures forall i | 0 <= i < |list| ::
                HasRow(memberships, group, list[i].device) && list[i] == MemberAt(View(), Place(group, list[i].device))
      ensures forall k | k in ActiveMembers(View(), group) :: MemberAt(View(), k) in list
      ensures forall i, j | 0 <= i < j < |list| ::
                && list[i].device != list[j].device
                && HasRow(memberships, group, list[i].device) && HasRow(memberships, group, list[j].device)
                && memberships[Place(group, list[i].device)].createdAt <=
                   memberships[Place(group, list[j].device)].createdAt
    {
      hide Database.Inv, MemberAt;
      var order := OldestFirst(map k | k in memberships && k.group == group && memberships[k].Active() ::
        memberships[k].createdAt);
      forall i | 0 <= i < |order|
        ensures order[i] in memberships && order[i].group == group && memberships[order[i]].Active()
      {
        assert order[i] in order;
      }
      list := [];
      for i := 0 to |order|
        invariant |list| == i
        invariant forall j | 0 <= j < i :: list[j] == MemberAt(View(), order[j])
      {
        var rows := JoinSessions(order[i]);
        list := list + rows;
      }
      forall i | 0 <= i < |order| ensures order[i] == Place(group, order[i].device) &&
        list[i].device == order[i].device {
        assert order[i] in order;
        DeviceAt(View(), order[i]);
      }
      forall k | k in ActiveMembers(View(), group) ensures MemberAt(View(), k) in list {
        assert k in order;
      }
    }

    /** The left join of one active member with their sessions: one row a session, or one row for none. */
    method JoinSessions(k: Place) returns (rows: seq<Member>)
      requires Valid() && k in memberships && memberships[k].Active()
      ensures rows == [MemberAt(View(), k)]
    {
      hide Database.Inv;
      var row := memberships[k];
      var left := set s | s in sessions && sessions[s].membership == row.id;
      ghost var joined := left;
      SessionsOf(View(), k, joined);
      if left == {} {
        return [Member(k.device, row.address, row.role, false)];
      }
      rows := [];
      while left != {}
        invariant (left == joined && rows == []) ||
                  (left == {} && rows == [Member(k.device, row.address, row.role, true)])
        decreases left
      {
        var s :| s in left;
        left := left - {s};
        rows := rows + [Member(k.device, row.address, row.role, true)];
      }
    }

    /** A device's groups, oldest membership first, with how many members each has and how many are on. */
    method MembershipsByDevice(device: Id) returns (list: seq<Counted>)
      requires Valid()
      ensures forall i | 0 <= i < |list| ::
                && HasRow(memberships, list[i].group, device)
                && list[i].online == |Online(View(), list[i].group)|
                && list[i].members == |ActiveMembers(View(), list[i].group)|
                && list[i].online <= list[i].members
      ensures forall k | k in memberships && k.device == device && memberships[k].Active() ::
                exists i :: 0 <= i < |list| && list[i].group == k.group
      ensures forall i, j | 0 <= i < j < |list| ::
                && list[i].group != list[j].group
                && HasRow(memberships, list[i].group, device) && HasRow(memberships, list[j].group, device)
                && memberships[Place(list[i].group, device)].createdAt <=
                   memberships[Place(list[j].group, device)].createdAt
    {
      hide Database.Inv;
      var order := OldestFirst(map k | k in memberships && k.device == device && memberships[k].Active() ::
        memberships[k].createdAt);
      forall i | 0 <= i < |order|
        ensures order[i] in memberships && order[i].device == device && memberships[order[i]].Active()
      {
        assert order[i] in order;
      }
      list := [];
      for i := 0 to |order|
        invariant |list| == i
        invariant forall j | 0 <= j < i :: list[j] == Counted(order[j].group,
                    |Online(View(), order[j].group)|, |ActiveMembers(View(), order[j].group)|)
      {
        var group := order[i].group;
        var online := |set s | s in sessions && sessions[s].group == group|;
        var members := |set k | k in memberships && k.group == group && memberships[k].Active()|;
        list := list + [Counted(group, online, members)];
      }
      forall i | 0 <= i < |list| ensures list[i].online <= list[i].members {
        OnlineIsBelowMembers(View(), list[i].group);
      }
      forall k | k in memberships && k.device == device && memberships[k].Active()
        ensures exists i :: 0 <= i < |list| && list[i].group == k.group
      {
        assert k in order;
        var i :| 0 <= i < |order| && order[i] == k;
        assert list[i].group == k.group;
      }
      forall i | 0 <= i < |list| ensures list[i].group == order[i].group && order[i] == Place(list[i].group, device) {
        assert order[i] in order;
      }
      forall i, j | 0 <= i < j < |list|
        ensures list[i].group != list[j].group && order[i] in memberships && order[j] in memberships
        ensures memberships[order[i]].createdAt <= memberships[order[j]].createdAt
      {
        assert order[i] != order[j] && order[i] in order && order[j] in order;
      }
    }

    /** The live sessions of a group but the asking device's, oldest first: each other member who is
        online, once. `ids` are the sessions. */
    method PeersInGroup(group: Id, except: Id) returns (list: seq<Peer>, ghost ids: seq<Id>)
      requires Valid()
      ensures |ids| == |list| && forall i | 0 <= i < |list| ::
                PeerFor(View(), group, except, ids[i], Place(group, list[i].device), list[i])
      ensures forall s, k | s in sessions && View().Belongs(sessions[s], k) && k.group == group && k.device != except ::
                exists i :: 0 <= i < |list| && list[i].device == k.device
      ensures forall i, j | 0 <= i < j < |list| ::
                && list[i].device != list[j].device
                && ids[i] in sessions && ids[j] in sessions &&
                   sessions[ids[i]].connectedAt <= sessions[ids[j]].connectedAt
    {
      hide Database.Inv;
      list, ids := [], [];
      ghost var places: seq<Place> := [];
      var order := OldestFirst(map s | s in sessions :: sessions[s].connectedAt);
      for n := 0 to |order|
        invariant |list| == |ids| == |places|
        invariant forall i | 0 <= i < |ids| ::
                    ids[i] in order[..n] && PeerFor(View(), group, except, ids[i], places[i], list[i])
        invariant forall s, k | s in order[..n] && s in sessions && View().Belongs(sessions[s], k) && k.group == group
                    && k.device != except :: s in ids
        invariant forall i, j | 0 <= i < j < |ids| :: ids[i] != ids[j] && ids[i] in sessions && ids[j] in sessions
                    && sessions[ids[i]].connectedAt <= sessions[ids[j]].connectedAt
      {
        var s := order[n];
        assert s in order && order[..n + 1] == order[..n] + [s];
        BeforeInOrder(order, map s | s in sessions :: sessions[s].connectedAt, n);
        var place := MemberOf(sessions[s].membership);
        JoinFinds(View(), s, place);
        var k := place.value;
        if sessions[s].group == group && k.device != except && memberships[k].Active() {
          list := list + [Peer(k.device, memberships[k].address, sessions[s].endpoint)];
          places, ids := places + [k], ids + [s];
        }
      }
      assert order[..|order|] == order;
      PeersOnce(View(), group, except, ids, places, list);
    }
  }

  lemma BeforeInOrder<K(!new)>(order: seq<K>, at: map<K, Time>, n: nat)
    requires InOrder(order, at) && n < |order|
    ensures forall k | k in order[..n] :: k in at && k != order[n] && order[n] in at && at[k] <= at[order[n]]
  {
    forall k | k in order[..n] ensures k in at && k != order[n] && order[n] in at && at[k] <= at[order[n]] {
      var i :| 0 <= i < n && order[i] == k;
      assert k in order && order[n] in order;
    }
  }

  /** What Members says of one active member. */
  ghost function MemberAt(db: Database, k: Place): Member
    requires k in db.memberships
  {
    var row := db.memberships[k];
    Member(k.device, row.address, row.role, exists s :: s in db.sessions && db.Belongs(db.sessions[s], k))
  }

  lemma DeviceAt(db: Database, k: Place)
    requires k in db.memberships
    ensures MemberAt(db, k).device == k.device
  {}

  ghost predicate PeerFor(db: Database, group: Id, except: Id, s: Id, k: Place, p: Peer) {
    && s in db.sessions && db.Belongs(db.sessions[s], k) && k.group == group && k.device != except
    && p == Peer(k.device, db.memberships[k].address, db.sessions[s].endpoint)
  }

  ghost predicate IsStale(db: Database, stale: Stale, cutoff: Time) {
    && stale.id in db.sessions && db.sessions[stale.id].lastSeenAt <= cutoff
    && db.Belongs(db.sessions[stale.id], Place(stale.group, stale.device))
  }

  /** Every session's membership id names the active member the session belongs to. */
  lemma JoinFinds(db: Database, s: Id, place: Option<Place>)
    requires db.Inv() && s in db.sessions
    requires place.Some? ==>
               place.value in db.memberships && db.memberships[place.value].id == db.sessions[s].membership
    requires place.None? ==> forall k | k in db.memberships :: db.memberships[k].id != db.sessions[s].membership
    ensures place.Some? && db.Belongs(db.sessions[s], place.value)
    ensures forall k | db.Belongs(db.sessions[s], k) :: k == place.value
  {
    hide Database.AddressesDistinct, Database.OneOwner, Database.SessionsDistinct, Database.CodesDistinct;
    var k :| db.Belongs(db.sessions[s], k);
  }

  /** An active member's sessions: none, or one. */
  lemma SessionsOf(db: Database, k: Place, own: set<Id>)
    requires db.Inv() && k in db.memberships && db.memberships[k].Active()
    requires own == set s | s in db.sessions && db.sessions[s].membership == db.memberships[k].id
    ensures own != {} <==> exists s :: s in db.sessions && db.Belongs(db.sessions[s], k)
    ensures forall s | s in own :: own == {s}
  {
    hide Database.RowsFit, Database.SessionsBelong, Database.AddressesDistinct, Database.OneOwner;
    hide Database.BannedAreOut, Database.CodesDistinct;
    forall s | s in own ensures db.Belongs(db.sessions[s], k) {
      OwnSession(db, k, s);
    }
    assert forall s | s in db.sessions && db.Belongs(db.sessions[s], k) :: s in own;
  }

  lemma OwnSession(db: Database, k: Place, s: Id)
    requires db.Inv() && k in db.memberships && s in db.sessions
    requires db.sessions[s].membership == db.memberships[k].id
    ensures db.Belongs(db.sessions[s], k)
  {
    hide Database.AddressesDistinct, Database.OneOwner, Database.SessionsDistinct, Database.CodesDistinct;
    var j :| db.Belongs(db.sessions[s], j);
  }

  /** Two sessions are not of one place. */
  lemma OnePlaceEach(db: Database, s: Id, t: Id, k: Place)
    requires db.Inv() && s in db.sessions && t in db.sessions
    requires db.Belongs(db.sessions[s], k) && db.Belongs(db.sessions[t], k)
    ensures s == t
  {
    hide Database.RowsFit, Database.AddressesDistinct, Database.OneOwner, Database.CodesDistinct;
  }

  lemma SamePlace(db: Database, s: Id, j: Place, k: Place)
    requires db.Inv() && s in db.sessions && db.Belongs(db.sessions[s], j) && db.Belongs(db.sessions[s], k)
    ensures j == k
  {
    hide Database.AddressesDistinct, Database.OneOwner, Database.SessionsDistinct, Database.CodesDistinct;
  }

  lemma PeersOnce(db: Database, group: Id, except: Id, ids: seq<Id>, places: seq<Place>, list: seq<Peer>)
    requires db.Inv() && |ids| == |places| == |list|
    requires forall i | 0 <= i < |ids| :: PeerFor(db, group, except, ids[i], places[i], list[i])
    requires forall i, j | 0 <= i < j < |ids| :: ids[i] != ids[j]
    requires forall s, k | s in db.sessions && db.Belongs(db.sessions[s], k) && k.group == group
               && k.device != except :: s in ids
    ensures forall i, j | 0 <= i < j < |list| :: list[i].device != list[j].device
    ensures forall s, k | s in db.sessions && db.Belongs(db.sessions[s], k) && k.group == group && k.device != except ::
              exists i :: 0 <= i < |list| && list[i].device == k.device
  {
    hide Database.Inv, Database.Belongs;
    forall s, k | s in db.sessions && db.Belongs(db.sessions[s], k) && k.group == group && k.device != except
      ensures exists i :: 0 <= i < |list| && list[i].device == k.device
    {
      var i :| 0 <= i < |ids| && ids[i] == s;
      SamePlace(db, s, places[i], k);
      assert list[i].device == k.device;
    }
    forall i, j | 0 <= i < j < |list| ensures list[i].device != list[j].device {
      if places[i] == places[j] { OnePlaceEach(db, ids[i], ids[j], places[i]); }
    }
  }
}
