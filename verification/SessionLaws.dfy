/** What each transaction changes and nothing else does: the groups, the rows, and exactly which sessions there are
    after any sequence of transactions. */
module SessionLaws {
  import opened Netip
  import opened RecordRuns
  import opened Records
  import opened Subnets
  import opened Wrappers

  // ----- what is refused -----

  /** An active member who runs the group. */
  predicate Runs(db: Database, group: Id, device: Id) {
    HasRow(db.memberships, group, device) && db.memberships[Place(group, device)].role == RoleOwner
  }

  /** The session of some other membership. */
  predicate OfAnother(db: Database, s: Id, membership: Id) {
    s in db.sessions && db.sessions[s].membership != membership
  }

  /** When a transaction that needs no address is carried out. */
  predicate Allowed(db: Database, e: Event) {
    match e
    case Leave(group, device, _) => HasRow(db.memberships, group, device)
    case Remove(group, owner, target, _) =>
      owner != target && Runs(db, group, owner) && HasRow(db.memberships, group, target)
    case Transfer(group, owner, target) => Runs(db, group, owner) && HasRow(db.memberships, group, target)
    case Reset(group, owner, code) =>
      Runs(db, group, owner) && group in db.groups && forall g | g in db.groups :: db.groups[g].inviteCode != code
    case Delete(group, owner) => Runs(db, group, owner) && group in db.groups
    case Connect(group, device, session, _) =>
      HasRow(db.memberships, group, device) && group in db.groups &&
      !OfAnother(db, session, db.memberships[Place(group, device)].id)
    case Move(session, _, _) => session in db.sessions
    case Touch(session, _) => session in db.sessions
    case Disconnect(session) => session in db.sessions
    case _ => true
  }

  /** Whether the caller is told that it was. */
  predicate Accepted(db: Database, e: Event) {
    match e
    case Leave(group, device, now) => db.RevokeMembership(group, device, now).1.None?
    case Remove(group, owner, target, now) => db.RemoveMember(group, owner, target, now).1.None?
    case Transfer(group, owner, target) => db.TransferOwnership(group, owner, target).1.None?
    case Reset(group, owner, code) => db.ResetInviteCode(group, owner, code).1.None?
    case Delete(group, owner) => db.DeleteGroup(group, owner).1.None?
    case Connect(group, device, session, now) => db.Connect(group, device, session, now).1.Success?
    case Move(session, endpoint, now) => db.SetSessionEndpoint(session, endpoint, now).1.None?
    case Touch(session, now) => db.TouchSession(session, now).1.None?
    case Disconnect(session) => db.DeleteSession(session).1.None?
    case _ => true
  }

  /** A transaction is carried out exactly if it is allowed, and one that is refused changes nothing. */
  lemma RefusedExactly(db: Database, e: Event)
    ensures Accepted(db, e) <==> Allowed(db, e)
    ensures !Allowed(db, e) ==> Step(db, e) == db
  {}

  /** And the caller is told why: a removed device that it is banned; an owner's call that the device is no member,
      or no owner; and a removal of oneself that it is not for that. */
  lemma RefusalsSayWhy(db: Database, group: Id, device: Id, target: Id, id: Id, code: string, now: Time)
    ensures
      var place := Place(group, device);
      && (db.AddMembership(place, id, now).1 == Failure(ErrBanned) <==>
            place in db.memberships && db.memberships[place].bannedAt != None)
      && (!HasRow(db.memberships, group, device) ==>
            && db.RevokeMembership(group, device, now).1 == Some(ErrNotFound)
            && db.Connect(group, device, id, now).1 == Failure(ErrNotFound)
            && db.TransferOwnership(group, device, target).1 == Some(ErrNotFound)
            && db.ResetInviteCode(group, device, code).1 == Some(ErrNotFound)
            && db.DeleteGroup(group, device).1 == Some(ErrNotFound)
            && (device != target ==> db.RemoveMember(group, device, target, now).1 == Some(ErrNotFound)))
      && (HasRow(db.memberships, group, device) && !Runs(db, group, device) ==>
            && db.TransferOwnership(group, device, target).1 == Some(ErrForbidden)
            && db.ResetInviteCode(group, device, code).1 == Some(ErrForbidden)
            && db.DeleteGroup(group, device).1 == Some(ErrForbidden)
            && db.RemoveMember(group, device, target, now).1 == Some(ErrForbidden))
      && db.RemoveMember(group, device, device, now).1 == Some(ErrForbidden)
      && (Runs(db, group, device) && device != target && !HasRow(db.memberships, group, target) ==>
            && db.RemoveMember(group, device, target, now).1 == Some(ErrNotFound)
            && db.TransferOwnership(group, device, target).1 == Some(ErrNotFound))
  {
    hide Taken, Choose, Database.IdUsed;
  }

  // ----- what stays -----

  /** The rows a transaction speaks of. */
  predicate Concerns(e: Event, k: Place) {
    match e
    case Create(id, _, device, _, _) => k == Place(id, device)
    case Join(place, _, _) => k == place
    case Leave(group, device, _) => k == Place(group, device)
    case Remove(group, _, target, _) => k == Place(group, target)
    case Transfer(group, owner, target) => k == Place(group, owner) || k == Place(group, target)
    case Delete(group, _) => k.group == group
    case _ => false
  }

  /** The groups it speaks of. */
  predicate Renames(e: Event, g: Id) {
    match e
    case Create(id, _, _, _, _) => g == id
    case Reset(group, _, _) => g == group
    case Delete(group, _) => g == group
    case _ => false
  }

  /** Every other row and every other group is as it was. */
  lemma OthersStay(db: Database, e: Event, k: Place, g: Id)
    requires !Concerns(e, k) && !Renames(e, g)
    ensures
      var r := Step(db, e);
      && (k in r.memberships <==> k in db.memberships)
      && (k in r.memberships ==> r.memberships[k] == db.memberships[k])
      && (g in r.groups <==> g in db.groups) && (g in r.groups ==> r.groups[g] == db.groups[g])
  {
    hide Taken, Choose;
  }

  // ----- sessions, one transaction at a time -----

  /** A session ends: its member leaves, is removed or connects again, its group goes, or it is closed or expires. */
  predicate Ends(db: Database, e: Event, s: Id)
    requires s in db.sessions
  {
    var x := db.sessions[s];
    match e
    case Leave(group, device, _) => Allowed(db, e) && db.memberships[Place(group, device)].id == x.membership
    case Remove(group, _, target, _) => Allowed(db, e) && db.memberships[Place(group, target)].id == x.membership
    case Delete(group, _) => Allowed(db, e) && x.group == group
    case Connect(group, device, _, _) => Allowed(db, e) && db.memberships[Place(group, device)].id == x.membership
    case Disconnect(session) => session == s
    case Expire(cutoff) => x.lastSeenAt <= cutoff
    case _ => false
  }

  /** A session is opened, by an active member's connecting. */
  predicate Opens(db: Database, e: Event, s: Id) {
    e.Connect? && e.session == s && Allowed(db, e)
  }

  /** The session that a member opens. */
  function Opened(db: Database, e: Event): Session
    requires e.Connect? && Allowed(db, e)
  {
    Session(e.group, db.memberships[Place(e.group, e.device)].id, None, e.now, e.now)
  }

  /** What else a transaction makes of a session: an endpoint that is published, a heartbeat. */
  function Kept(x: Session, e: Event, s: Id): Session {
    match e
    case Move(session, endpoint, now) => if session == s then x.(endpoint := Some(endpoint), lastSeenAt := now) else x
    case Touch(session, now) => if session == s then x.(lastSeenAt := now) else x
    case _ => x
  }

  /** After a transaction there are exactly the sessions it opened, and those there were that it did not end; and
      each is what it was, but for an endpoint or a heartbeat of its own. */
  lemma SessionsAre(db: Database, e: Event, s: Id)
    requires db.Inv()
    ensures s in Step(db, e).sessions <==> Opens(db, e, s) || (s in db.sessions && !Ends(db, e, s))
    ensures s in Step(db, e).sessions ==>
              Step(db, e).sessions[s] == if Opens(db, e, s) then Opened(db, e) else Kept(db.sessions[s], e, s)
  {
    hide Database.Inv;
    match e
    case Create(_, _, _, _, _) => SameSessions(db, e);
    case Join(_, _, _) => SameSessions(db, e);
    case Remove(group, _, target, _) => RemoveEnds(db, e, s);
    case Delete(group, _) => DeleteEnds(db, e, s);
    case _ => OneTable(db, e, s);
  }

  lemma OneTable(db: Database, e: Event, s: Id)
    requires !e.Create? && !e.Join? && !e.Remove? && !e.Delete?
    ensures s in Step(db, e).sessions <==> Opens(db, e, s) || (s in db.sessions && !Ends(db, e, s))
    ensures s in Step(db, e).sessions ==>
              Step(db, e).sessions[s] == if Opens(db, e, s) then Opened(db, e) else Kept(db.sessions[s], e, s)
  {}

  lemma SameSessions(db: Database, e: Event)
    requires e.Create? || e.Join?
    ensures Step(db, e).sessions == db.sessions
  {
    hide Taken, Choose, Database.IdUsed, Database.CodeUsed;
  }

  lemma RemoveEnds(db: Database, e: Event, s: Id)
    requires db.Inv() && e.Remove?
    ensures s in Step(db, e).sessions <==> s in db.sessions && !Ends(db, e, s)
    ensures s in Step(db, e).sessions ==> Step(db, e).sessions[s] == db.sessions[s]
  {
    hide Database.Inv;
    if Allowed(db, e) && s in db.sessions {
      var place := Place(e.group, e.target);
      if db.sessions[s].membership == db.memberships[place].id { SessionIsInGroup(db, place, s); }
    }
  }

  lemma DeleteEnds(db: Database, e: Event, s: Id)
    requires db.Inv() && e.Delete?
    ensures s in Step(db, e).sessions <==> s in db.sessions && !Ends(db, e, s)
    ensures s in Step(db, e).sessions ==> Step(db, e).sessions[s] == db.sessions[s]
  {
    hide Database.Inv;
    if Allowed(db, e) && s in db.sessions { OneRowEach(db, s); }
  }

  /** The row a session is of is in its group, and there is one. */
  lemma OneRowEach(db: Database, s: Id)
    requires db.Inv() && s in db.sessions
    ensures exists k :: db.Belongs(db.sessions[s], k)
    ensures forall k | k in db.memberships && db.memberships[k].id == db.sessions[s].membership ::
              k.group == db.sessions[s].group
  {
    hide Database.AddressesDistinct, Database.OneOwner, Database.SessionsDistinct, Database.CodesDistinct;
    var k :| db.Belongs(db.sessions[s], k);
    forall j | j in db.memberships && db.memberships[j].id == db.sessions[s].membership ensures j == k {}
  }

  /** Connecting, in so many words: what is returned is stored at its id, every session of another membership is
      there as it was, and there is no other. */
  lemma ConnectingStoresOne(db: Database, group: Id, device: Id, id: Id, now: Time)
    requires db.Inv() && db.Connect(group, device, id, now).1.Success?
    ensures
      var (r, made) := db.Connect(group, device, id, now);
      && Place(group, device) in db.memberships
      && var membership := db.memberships[Place(group, device)].id;
      && r == db.(sessions := r.sessions)
      && id in r.sessions && r.sessions[id] == made.value == Session(group, membership, None, now, now)
      && (forall s | s in db.sessions && db.sessions[s].membership != membership ::
            s != id && s in r.sessions && r.sessions[s] == db.sessions[s])
      && (forall s | s in r.sessions && s != id :: s in db.sessions && db.sessions[s].membership != membership)
  {
    hide Database.Inv;
  }

  /** Leaving ends the sessions of that membership and touches no other. */
  lemma LeavingEndsItsOwn(db: Database, group: Id, device: Id, now: Time)
    requires db.RevokeMembership(group, device, now).1.None?
    ensures
      var r := db.RevokeMembership(group, device, now).0;
      && Place(group, device) in db.memberships
      && var membership := db.memberships[Place(group, device)].id;
         forall s :: (s in r.sessions <==> s in db.sessions && db.sessions[s].membership != membership) &&
                     (s in r.sessions ==> r.sessions[s] == db.sessions[s])
  {}

  /** And so does removing. */
  lemma RemovingEndsItsOwn(db: Database, group: Id, owner: Id, target: Id, now: Time)
    requires db.Inv() && db.RemoveMember(group, owner, target, now).1.None?
    ensures
      var r := db.RemoveMember(group, owner, target, now).0;
      && Place(group, target) in db.memberships
      && var membership := db.memberships[Place(group, target)].id;
         forall s :: (s in r.sessions <==> s in db.sessions && db.sessions[s].membership != membership) &&
                     (s in r.sessions ==> r.sessions[s] == db.sessions[s])
  {
    hide Database.Inv;
    var e := Remove(group, owner, target, now);
    forall s ensures s in Step(db, e).sessions <==> s in db.sessions && !Ends(db, e, s) { RemoveEnds(db, e, s); }
    forall s | s in Step(db, e).sessions ensures Step(db, e).sessions[s] == db.sessions[s] { RemoveEnds(db, e, s); }
  }

  // ----- sessions, over any run -----

  /** The k-th transaction opened the session, and none since has ended it. */
  ghost predicate OpenSince(events: seq<Event>, s: Id, k: nat)
    requires k < |events|
  {
    && Opens(Run(events[..k]), events[k], s)
    && forall j | k < j < |events| :: s in Run(events[..j]).sessions && !Ends(Run(events[..j]), events[j], s)
  }

  ghost predicate IsOpen(events: seq<Event>, s: Id) {
    exists k: nat | k < |events| :: OpenSince(events, s, k)
  }

  /** After any sequence of transactions there are exactly the sessions that were opened and have not been
      replaced, left, removed, deleted, closed or expired since. */
  lemma {:induction false} SessionsOverRuns(events: seq<Event>, s: Id)
    ensures s in Run(events).sessions <==> IsOpen(events, s)
  {
    if events != [] {
      hide Step, Ends, Opens;
      var last := |events| - 1;
      SessionsOverRuns(events[..last], s);
      RunKeeps(events[..last]);
      SessionsAre(Run(events[..last]), events[last], s);
      OpenStill(events, s);
    }
  }

  lemma OpenStill(events: seq<Event>, s: Id)
    requires events != []
    requires s in Run(events[..|events| - 1]).sessions <==> IsOpen(events[..|events| - 1], s)
    ensures
      var last := |events| - 1;
      var db := Run(events[..last]);
      IsOpen(events, s) <==> Opens(db, events[last], s) || (s in db.sessions && !Ends(db, events[last], s))
  {
    hide Run, Ends, Opens;
    var last := |events| - 1;
    var front := events[..last];
    forall k | 0 <= k < last ensures front[..k] == events[..k] && front[k] == events[k] {}
    if s in Run(front).sessions && !Ends(Run(front), events[last], s) {
      var k: nat :| k < last && OpenSince(front, s, k);
      assert OpenSince(events, s, k);
    }
    if Opens(Run(front), events[last], s) { assert OpenSince(events, s, last); }
    if IsOpen(events, s) {
      var k: nat :| k < |events| && OpenSince(events, s, k);
      if k < last { assert OpenSince(front, s, k); }
    }
  }

  // ----- the other transactions -----

  /** The owner's new code opens the group and no other, and the old one opens none. */
  lemma ResetGivesTheCode(db: Database, group: Id, owner: Id, code: string)
    requires db.Inv() && db.ResetInviteCode(group, owner, code).1.None?
    ensures
      var r := db.ResetInviteCode(group, owner, code).0;
      && r == db.(groups := r.groups) && r.groups.Keys == db.groups.Keys && group in db.groups
      && r.groups[group] == db.groups[group].(inviteCode := code)
      && (forall g | g in r.groups && g != group :: r.groups[g] == db.groups[g] && r.groups[g].inviteCode != code)
      && (forall g | g in r.groups :: r.groups[g].inviteCode != db.groups[group].inviteCode)
  {
    hide Database.RowsFit, Database.AddressesDistinct, Database.OneOwner, Database.BannedAreOut;
    hide Database.SessionsBelong, Database.SessionsDistinct;
  }

  /** A deleted group is gone, with every row and session of it, and nothing else is. */
  lemma DeletionIsWhole(db: Database, group: Id, owner: Id)
    requires db.Inv() && db.DeleteGroup(group, owner).1.None?
    ensures
      var r := db.DeleteGroup(group, owner).0;
      && r.groups == db.groups - {group}
      && (forall k :: k in r.memberships <==> k in db.memberships && k.group != group)
      && (forall k | k in r.memberships :: r.memberships[k] == db.memberships[k])
      && (forall s :: s in r.sessions <==> s in db.sessions && db.sessions[s].group != group)
      && (forall s | s in r.sessions :: r.sessions[s] == db.sessions[s])
  {
    hide Database.Inv;
    var e := Delete(group, owner);
    forall s ensures s in Step(db, e).sessions <==> s in db.sessions && !Ends(db, e, s) { DeleteEnds(db, e, s); }
    forall s | s in Step(db, e).sessions ensures Step(db, e).sessions[s] == db.sessions[s] { DeleteEnds(db, e, s); }
  }

  /** A session that was heard from outlives an expiry exactly if that was after its cutoff. */
  lemma HeartbeatsCount(db: Database, s: Id, now: Time, cutoff: Time)
    requires s in db.sessions
    ensures s in db.TouchSession(s, now).0.ExpireSessions(cutoff).sessions <==> now > cutoff
    ensures s in db.ExpireSessions(cutoff).sessions <==> db.sessions[s].lastSeenAt > cutoff
  {}

  /** An endpoint that is published is the session's, and counts as a heartbeat. */
  lemma PublishedIsSeen(db: Database, s: Id, endpoint: AddrPort, now: Time)
    requires s in db.sessions
    ensures
      var r := db.SetSessionEndpoint(s, endpoint, now).0;
      && r == db.(sessions := db.sessions[s := r.sessions[s]])
      && r.sessions[s] == db.sessions[s].(endpoint := Some(endpoint), lastSeenAt := now)
  {}

  // ----- rows -----

  /** Whoever joins has one row: with the id they were given and a member's role if they are new, and the id, role
      and time they had if they come back; active either way, and not banned. */
  lemma JoinedRow(db: Database, place: Place, id: Id, now: Time)
    requires db.AddMembership(place, id, now).1.Success?
    ensures
      var (r, made) := db.AddMembership(place, id, now);
      var row := made.value;
      && r == db.(memberships := db.memberships[place := row]) && row.revokedAt == None && row.bannedAt == None
      && (place !in db.memberships ==> row.id == id && row.role == RoleMember && row.createdAt == now)
      && (place in db.memberships ==>
            row == db.memberships[place].(revokedAt := None, address := row.address))
  {
    hide Taken, Choose, Database.IdUsed;
  }

  /** Whoever makes a group owns it, with the lowest host address of its subnet. */
  lemma MakerOwns(db: Database, id: Id, group: Group, device: Id, membership: Id, now: Time)
    requires db.Inv() && db.CreateGroup(id, group, device, membership, now).1.Success?
    ensures
      var (r, made) := db.CreateGroup(id, group, device, membership, now);
      && r.sessions == db.sessions && r.groups == db.groups[id := group] && id !in db.groups
      && r.memberships == db.memberships[Place(id, device) := made.value]
      && made.value == Membership(membership, RoleOwner, now, None, None, made.value.address)
      && made.value.address.Some?
      && Host(group.subnet, made.value.address.value)
      && forall v: uint32 | Host(group.subnet, v) :: made.value.address.value <= v
  {
    hide Taken, Choose, Database.IdUsed, Database.CodeUsed, Host;
    var named := db.(groups := db.groups[id := group]);
    assert Place(id, device) !in db.memberships by { NoRowsYet(db, id); }
    FirstInGroup(db, id, device, membership, now);
    FirstHost(group.subnet);
  }

  lemma NoRowsYet(db: Database, id: Id)
    requires db.Inv() && id !in db.groups
    ensures forall k | k in db.memberships :: k.group != id
  {}

  lemma FirstInGroup(db: Database, id: Id, device: Id, membership: Id, now: Time)
    requires db.Inv() && id !in db.groups
    ensures Taken(Upsert(db.memberships, Place(id, device), membership, now), id) == {}
  {
    NoRowsYet(db, id);
  }

  lemma FirstHost(subnet: Prefix)
    ensures
      var r := Choose(subnet, {}, None);
      r.Some? ==> Host(subnet, r.value) && forall v: uint32 | Host(subnet, v) :: r.value <= v
  {
    FreeIsLowest(subnet, {});
  }

  /** Whoever leaves keeps everything but being there, and whoever is removed is banned besides. */
  lemma LeaversKeepTheirRow(db: Database, group: Id, device: Id, owner: Id, now: Time)
    requires HasRow(db.memberships, group, device)
    ensures
      var row := db.memberships[Place(group, device)];
      && db.RevokeMembership(group, device, now).0.memberships ==
         db.memberships[Place(group, device) := row.(revokedAt := Some(now))]
      && (db.RemoveMember(group, owner, device, now).1.None? ==>
            db.RemoveMember(group, owner, device, now).0.memberships ==
            db.memberships[Place(group, device) := row.(revokedAt := Some(now), bannedAt := Some(now))])
  {}

  /** Handing a group over changes two rows at most, and of them nothing but roles. */
  lemma TransferChangesRoles(db: Database, group: Id, owner: Id, target: Id, k: Place)
    requires k in db.memberships
    ensures
      var r := db.TransferOwnership(group, owner, target).0;
      && r == db.(memberships := r.memberships) && r.memberships.Keys == db.memberships.Keys
      && r.memberships[k] == db.memberships[k].(role := r.memberships[k].role)
  {}
}
