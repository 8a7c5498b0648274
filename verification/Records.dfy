/** The coordination server's tables as values, and every transaction on them as a function: what the
    tables become, and what the caller is told. A refused transaction leaves them as they were. */
module Records {
  import opened Netip
  import opened Subnets
  import opened Wrappers

  type Id = string
  type Time = int

  datatype Role = RoleMember | RoleOwner

  datatype StoreError = ErrNotFound | ErrBanned | ErrForbidden | ErrGroupFull | ErrConstraint | ErrNoFreeCode

  datatype Group = Group(subnet: Prefix, inviteCode: string)

  /** A membership is unique in its group and device. */
  datatype Place = Place(group: Id, device: Id)

  datatype Membership = Membership(
    id: Id, role: Role, createdAt: Time, revokedAt: Option<Time>, bannedAt: Option<Time>, address: Option<uint32>)
  {
    predicate Active() { revokedAt.None? }
  }

  datatype Session = Session(group: Id, membership: Id, endpoint: Option<AddrPort>, connectedAt: Time, lastSeenAt: Time)

  type Memberships = map<Place, Membership>

  // ----- addresses -----

  /** An address a device may have: strictly between the network and the broadcast address. */
  predicate Host(p: Prefix, v: int) {
    p.Network() < v < p.Broadcast()
  }

  /** The lowest address from `v` up that nobody holds. */
  function FreeFrom(p: Prefix, taken: set<uint32>, v: int): (r: Option<uint32>)
    requires v >= 0
    decreases p.Broadcast() - v
  {
    if v >= p.Broadcast() then None
    else if v !in taken then Some(v)
    else FreeFrom(p, taken, v + 1)
  }

  function FreeAddress(p: Prefix, taken: set<uint32>): Option<uint32> {
    FreeFrom(p, taken, p.Network() + 1)
  }

  lemma {:induction false} FreeFromIsLowest(p: Prefix, taken: set<uint32>, v: int)
    requires v > p.Network()
    ensures FreeFrom(p, taken, v).None? <==> forall w | v <= w < p.Broadcast() :: w in taken
    ensures
      var r := FreeFrom(p, taken, v);
      r.Some? ==> v <= r.value < p.Broadcast() && r.value !in taken && forall w | v <= w < r.value :: w in taken
    decreases p.Broadcast() - v
  {
    if v < p.Broadcast() && v in taken { FreeFromIsLowest(p, taken, v + 1); }
  }

  /** The lowest free host address, and none exactly when every one is held. */
  lemma FreeIsLowest(p: Prefix, taken: set<uint32>)
    ensures FreeAddress(p, taken).None? <==> forall w: uint32 | Host(p, w) :: w in taken
    ensures
      var r := FreeAddress(p, taken);
      r.Some? ==> Host(p, r.value) && r.value !in taken && forall w: uint32 | Host(p, w) && w < r.value :: w in taken
  {
    FreeFromIsLowest(p, taken, p.Network() + 1);
  }

  /** Every address an active member of a group holds. A revoked row keeps its address and does not hold it. */
  function Taken(rows: Memberships, group: Id): set<uint32> {
    set k | k in rows && k.group == group && rows[k].Active() && rows[k].address.Some? :: rows[k].address.value
  }

  predicate HasRow(rows: Memberships, group: Id, device: Id) {
    Place(group, device) in rows && rows[Place(group, device)].Active()
  }

  /** A new row, or the old one picked up again. Its address is cleared either way. */
  function Upsert(rows: Memberships, place: Place, id: Id, now: Time): Memberships {
    if place in rows then rows[place := rows[place].(revokedAt := None, address := None)]
    else rows[place := Membership(id, RoleMember, now, None, None, None)]
  }

  /** The former address if nobody else holds it, otherwise the lowest free one. */
  function Choose(subnet: Prefix, taken: set<uint32>, previous: Option<uint32>): Option<uint32> {
    if previous.None? || previous.value in taken then FreeAddress(subnet, taken) else previous
  }

  // ----- the tables -----

  datatype Database = Database(groups: map<Id, Group>, memberships: Memberships, sessions: map<Id, Session>) {
    /** The role of an active member, for a call only the owner may make. */
    function OwnerOnly(group: Id, device: Id): Option<StoreError> {
      if !HasRow(memberships, group, device) then Some(ErrNotFound)
      else if memberships[Place(group, device)].role != RoleOwner then Some(ErrForbidden)
      else None
    }

    predicate IdUsed(id: Id) {
      exists k | k in memberships :: memberships[k].id == id
    }

    predicate CodeUsed(code: string) {
      exists g | g in groups :: groups[g].inviteCode == code
    }

    /** A join, or a rejoin, given a fresh id. The database refuses a group that is gone and an id in use. */
    function Insert(place: Place, id: Id, now: Time): (Database, Result<Membership, StoreError>) {
      if place.group !in groups || (place !in memberships && IdUsed(id)) then (this, Failure(ErrConstraint))
      else
        var previous := if place in memberships then memberships[place].address else None;
        var rows := Upsert(memberships, place, id, now);
        var address := Choose(groups[place.group].subnet, Taken(rows, place.group), previous);
        if address.None? then (this, Failure(ErrGroupFull))
        else
          var row := rows[place].(address := address);
          (this.(memberships := rows[place := row]), Success(row))
    }

    function CreateGroup(id: Id, group: Group, device: Id, membership: Id, now: Time):
      (Database, Result<Membership, StoreError>)
    {
      if id in groups || CodeUsed(group.inviteCode) then (this, Failure(ErrConstraint))
      else
        var (made, r) := this.(groups := groups[id := group]).Insert(Place(id, device), membership, now);
        if r.Failure? then (this, r)
        else
          var owner := r.value.(role := RoleOwner);
          (made.(memberships := made.memberships[Place(id, device) := owner]), Success(owner))
    }

    /** A removed device is refused. One that left picks its membership up again. */
    function AddMembership(place: Place, id: Id, now: Time): (Database, Result<Membership, StoreError>) {
      if place in memberships && memberships[place].bannedAt.Some? then (this, Failure(ErrBanned))
      else Insert(place, id, now)
    }

    /** The sessions of all memberships but one. */
    function SessionsWithout(membership: Id): map<Id, Session> {
      map s | s in sessions && sessions[s].membership != membership :: sessions[s]
    }

    function RevokeMembership(group: Id, device: Id, now: Time): (Database, Option<StoreError>) {
      if !HasRow(memberships, group, device) then (this, Some(ErrNotFound))
      else
        var row := memberships[Place(group, device)];
        (this.(memberships := memberships[Place(group, device) := row.(revokedAt := Some(now))],
               sessions := SessionsWithout(row.id)), None)
    }

    function RemoveMember(group: Id, owner: Id, target: Id, now: Time): (Database, Option<StoreError>) {
      if owner == target then (this, Some(ErrForbidden))
      else if OwnerOnly(group, owner).Some? then (this, OwnerOnly(group, owner))
      else if !HasRow(memberships, group, target) then (this, Some(ErrNotFound))
      else
        var row := memberships[Place(group, target)];
        (this.(memberships := memberships[Place(group, target) := row.(revokedAt := Some(now), bannedAt := Some(now))],
               sessions := map s | s in sessions && !(sessions[s].group == group && sessions[s].membership == row.id)
                             :: sessions[s]), None)
    }

    /** Promotes the target, then demotes the owner: in that order, and whoever they are. */
    function TransferOwnership(group: Id, owner: Id, target: Id): (Database, Option<StoreError>) {
      if OwnerOnly(group, owner).Some? then (this, OwnerOnly(group, owner))
      else if !HasRow(memberships, group, target) then (this, Some(ErrNotFound))
      else
        var promoted := memberships[Place(group, target) := memberships[Place(group, target)].(role := RoleOwner)];
        var demoted := promoted[Place(group, owner)].(role := RoleMember);
        (this.(memberships := promoted[Place(group, owner) := demoted]), None)
    }

    /** A new code for the way in. The database refuses one in use. */
    function ResetInviteCode(group: Id, owner: Id, code: string): (Database, Option<StoreError>) {
      if OwnerOnly(group, owner).Some? then (this, OwnerOnly(group, owner))
      else if CodeUsed(code) then (this, Some(ErrConstraint))
      else if group !in groups then (this, Some(ErrNotFound))
      else (this.(groups := groups[group := groups[group].(inviteCode := code)]), None)
    }

    /** The group goes, and its memberships and sessions with it. */
    function DeleteGroup(group: Id, owner: Id): (Database, Option<StoreError>) {
      if OwnerOnly(group, owner).Some? then (this, OwnerOnly(group, owner))
      else if group !in groups then (this, Some(ErrNotFound))
      else
        var rows := map k | k in memberships && k.group != group :: memberships[k];
        var gone := set k | k in memberships && k.group == group :: memberships[k].id;
        (Database(groups - {group}, rows,
                 map s | s in sessions && sessions[s].group != group && sessions[s].membership !in gone :: sessions[s]),
         None)
    }

    /** A device connects: its membership is looked up and its session replaced, as one step. */
    function Connect(group: Id, device: Id, id: Id, now: Time): (Database, Result<Session, StoreError>) {
      if !HasRow(memberships, group, device) || group !in groups then (this, Failure(ErrNotFound))
      else
        var row := memberships[Place(group, device)];
        var others := SessionsWithout(row.id);
        if id in others then (this, Failure(ErrConstraint))
        else
          var session := Session(group, row.id, None, now, now);
          (this.(sessions := others[id := session]), Success(session))
    }

    function SetSessionEndpoint(id: Id, endpoint: AddrPort, now: Time): (Database, Option<StoreError>) {
      if id !in sessions then (this, Some(ErrNotFound))
      else (this.(sessions := sessions[id := sessions[id].(endpoint := Some(endpoint), lastSeenAt := now)]), None)
    }

    function TouchSession(id: Id, now: Time): (Database, Option<StoreError>) {
      if id !in sessions then (this, Some(ErrNotFound))
      else (this.(sessions := sessions[id := sessions[id].(lastSeenAt := now)]), None)
    }

    function DeleteSession(id: Id): (Database, Option<StoreError>) {
      if id !in sessions then (this, Some(ErrNotFound)) else (this.(sessions := sessions - {id}), None)
    }

    /** Drops every session not heard from since the cutoff. */
    function ExpireSessions(cutoff: Time): Database {
      this.(sessions := map s | s in sessions && sessions[s].lastSeenAt > cutoff :: sessions[s])
    }

    // ----- what holds in every reachable state -----

    /** Rows belong to groups, have distinct ids and hold an address of their group's subnet. */
    ghost predicate RowsFit() {
      && (forall k | k in memberships :: k.group in groups)
      && (forall j, k | j in memberships && k in memberships && memberships[j].id == memberships[k].id :: j == k)
      && (forall k | k in memberships ::
            memberships[k].address.Some? && k.group in groups &&
            Host(groups[k.group].subnet, memberships[k].address.value))
    }

    /** No two active members of a group hold the same address. */
    ghost predicate AddressesDistinct() {
      forall j, k | j in memberships && k in memberships && j.group == k.group && j != k
        && memberships[j].Active() && memberships[k].Active() :: memberships[j].address != memberships[k].address
    }

    /** No group has two rows with the owner's role, revoked rows included. */
    ghost predicate OneOwner() {
      forall j, k | j in memberships && k in memberships && j.group == k.group
        && memberships[j].role == RoleOwner && memberships[k].role == RoleOwner :: j == k
    }

    ghost predicate BannedAreOut() {
      forall k | k in memberships && memberships[k].bannedAt.Some? :: !memberships[k].Active()
    }

    /** The active member of the session's own group that a session belongs to. */
    ghost predicate Belongs(s: Session, k: Place) {
      k in memberships && memberships[k].id == s.membership && k.group == s.group && memberships[k].Active()
    }

    ghost predicate SessionsBelong() {
      forall s | s in sessions :: exists k :: Belongs(sessions[s], k)
    }

    /** No membership has two sessions. */
    ghost predicate SessionsDistinct() {
      forall s, t | s in sessions && t in sessions && sessions[s].membership == sessions[t].membership :: s == t
    }

    ghost predicate CodesDistinct() {
      forall g, h | g in groups && h in groups && groups[g].inviteCode == groups[h].inviteCode :: g == h
    }

    ghost predicate Inv() {
      RowsFit() && AddressesDistinct() && OneOwner() && BannedAreOut() && SessionsBelong() && SessionsDistinct() &&
        CodesDistinct()
    }
  }
}
