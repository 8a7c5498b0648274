/** What the tables keep through any sequence of transactions, and what it means for members. */
module RecordRuns {
  import opened Netip
  import opened Records
  import opened Subnets
  import opened Wrappers

  datatype Event =
    | Create(id: Id, made: Group, device: Id, membership: Id, now: Time)
    | Join(place: Place, membership: Id, now: Time)
    | Leave(group: Id, device: Id, now: Time)
    | Remove(group: Id, owner: Id, target: Id, now: Time)
    | Transfer(group: Id, owner: Id, target: Id)
    | Reset(group: Id, owner: Id, code: string)
    | Delete(group: Id, owner: Id)
    | Connect(group: Id, device: Id, session: Id, now: Time)
    | Move(session: Id, endpoint: AddrPort, now: Time)
    | Touch(session: Id, now: Time)
    | Disconnect(session: Id)
    | Expire(cutoff: Time)

  function Step(db: Database, e: Event): Database {
    match e
    case Create(id, made, device, membership, now) => db.CreateGroup(id, made, device, membership, now).0
    case Join(place, membership, now) => db.AddMembership(place, membership, now).0
    case Leave(group, device, now) => db.RevokeMembership(group, device, now).0
    case Remove(group, owner, target, now) => db.RemoveMember(group, owner, target, now).0
    case Transfer(group, owner, target) => db.TransferOwnership(group, owner, target).0
    case Reset(group, owner, code) => db.ResetInviteCode(group, owner, code).0
    case Delete(group, owner) => db.DeleteGroup(group, owner).0
    case Connect(group, device, session, now) => db.Connect(group, device, session, now).0
    case Move(session, endpoint, now) => db.SetSessionEndpoint(session, endpoint, now).0
    case Touch(session, now) => db.TouchSession(session, now).0
    case Disconnect(session) => db.DeleteSession(session).0
    case Expire(cutoff) => db.ExpireSessions(cutoff)
  }

  const EMPTY := Database.Database(map[], map[], map[])

  function Run(events: seq<Event>): Database {
    if events == [] then EMPTY else Step(Run(events[..|events| - 1]), events[|events| - 1])
  }

  // ----- every transaction keeps the invariant -----

  lemma ChosenIsFree(p: Prefix, taken: set<uint32>, previous: Option<uint32>)
    requires previous.Some? ==> Host(p, previous.value)
    ensures
      var r := Choose(p, taken, previous);
      r.Some? ==> Host(p, r.value) && r.value !in taken
  {
    FreeIsLowest(p, taken);
  }

  /** What a row must be to take a place without breaking anything. */
  ghost predicate RowFits(db: Database, place: Place, row: Membership) {
    && place.group in db.groups
    && row.address.Some? && Host(db.groups[place.group].subnet, row.address.value)
    && (row.bannedAt.Some? ==> !row.Active())
    && (if place in db.memberships then row.id == db.memberships[place].id else !db.IdUsed(row.id))
    && (row.Active() ==> forall k | k in db.memberships && k != place && k.group == place.group
                          && db.memberships[k].Active() :: db.memberships[k].address != row.address)
    && (row.role == RoleOwner ==> forall k | k in db.memberships && k != place && k.group == place.group ::
                                    db.memberships[k].role != RoleOwner)
  }

  /** Sessions that are left, whose membership is active still. */
  ghost predicate SessionsLeft(db: Database, place: Place, row: Membership, sessions: map<Id, Session>) {
    forall s | s in sessions ::
      && s in db.sessions
      && sessions[s].membership == db.sessions[s].membership && sessions[s].group == db.sessions[s].group
      && (sessions[s].membership == row.id ==> row.Active())
  }

  lemma PutRowsFit(db: Database, place: Place, row: Membership, r: Database)
    requires db.RowsFit() && RowFits(db, place, row)
    requires r.groups == db.groups && r.memberships == db.memberships[place := row]
    ensures r.RowsFit()
  {}

  lemma PutAddresses(db: Database, place: Place, row: Membership, r: Database)
    requires db.AddressesDistinct() && RowFits(db, place, row)
    requires r.memberships == db.memberships[place := row]
    ensures r.AddressesDistinct()
  {}

  lemma PutOwners(db: Database, place: Place, row: Membership, r: Database)
    requires db.OneOwner() && RowFits(db, place, row)
    requires r.memberships == db.memberships[place := row]
    ensures r.OneOwner()
  {}

  lemma PutSessions(db: Database, place: Place, row: Membership, r: Database)
    requires db.SessionsBelong() && SessionsLeft(db, place, row, r.sessions)
    requires place in db.memberships ==> row.id == db.memberships[place].id
    requires r.memberships == db.memberships[place := row]
    ensures r.SessionsBelong()
  {
    forall s | s in r.sessions ensures exists k :: r.Belongs(r.sessions[s], k) {
      var k :| db.Belongs(db.sessions[s], k);
      assert r.Belongs(r.sessions[s], k);
    }
  }

  /** Fewer sessions, each of the membership it was of, are distinct still. */
  lemma FewerSessions(db: Database, r: Database)
    requires db.SessionsDistinct()
    requires forall s | s in r.sessions :: s in db.sessions && r.sessions[s].membership == db.sessions[s].membership
    ensures r.SessionsDistinct()
  {}

  /** A row put in place of the one before, or where there was none, and the sessions that are left. */
  lemma PutKeeps(db: Database, place: Place, row: Membership, sessions: map<Id, Session>)
    requires db.Inv() && RowFits(db, place, row) && SessionsLeft(db, place, row, sessions)
    ensures db.(memberships := db.memberships[place := row], sessions := sessions).Inv()
  {
    var r := db.(memberships := db.memberships[place := row], sessions := sessions);
    assert place in db.memberships ==> row.id == db.memberships[place].id;
    FewerSessions(db, r);
    hide Database.RowsFit, Database.AddressesDistinct, Database.OneOwner, Database.SessionsBelong;
    hide Database.SessionsDistinct;
    hide SessionsLeft, RowFits;
    PutRowsFit(db, place, row, r);
    PutAddresses(db, place, row, r);
    PutOwners(db, place, row, r);
    PutSessions(db, place, row, r);
  }

  lemma TakenAfterUpsert(db: Database, place: Place, id: Id, now: Time)
    requires db.RowsFit()
    ensures
      forall v :: v in Taken(Upsert(db.memberships, place, id, now), place.group) <==>
        exists k :: k in db.memberships && k != place && k.group == place.group && db.memberships[k].Active()
                    && db.memberships[k].address == Some(v)
  {
    var rows := Upsert(db.memberships, place, id, now);
    forall v | v in Taken(rows, place.group)
      ensures exists k :: k in db.memberships && k != place && k.group == place.group && db.memberships[k].Active()
                          && db.memberships[k].address == Some(v)
    {
      var k :| k in rows && k.group == place.group && rows[k].Active() && rows[k].address == Some(v);
      assert k != place;
    }
    forall v, k | k in db.memberships && k != place && k.group == place.group && db.memberships[k].Active()
                  && db.memberships[k].address == Some(v)
      ensures v in Taken(rows, place.group)
    {
      assert rows[k] == db.memberships[k];
    }
  }

  lemma InsertKeeps(db: Database, place: Place, id: Id, now: Time)
    requires db.Inv() && (place in db.memberships ==> db.memberships[place].bannedAt.None?)
    ensures db.Insert(place, id, now).0.Inv()
  {
    hide Database.Inv, RowFits, SessionsLeft, Taken, Choose, Database.IdUsed;
    var (r, made) := db.Insert(place, id, now);
    if made.Success? {
      InsertFits(db, place, id, now);
      assert r == db.(memberships := db.memberships[place := made.value]);
      PutKeeps(db, place, made.value, db.sessions);
    }
  }

  lemma InsertFits(db: Database, place: Place, id: Id, now: Time)
    requires db.Inv() && (place in db.memberships ==> db.memberships[place].bannedAt.None?)
    requires db.Insert(place, id, now).1.Success?
    ensures RowFits(db, place, db.Insert(place, id, now).1.value)
    ensures SessionsLeft(db, place, db.Insert(place, id, now).1.value, db.sessions)
  {
    hide Database.AddressesDistinct, Database.SessionsBelong, Database.SessionsDistinct, Database.CodesDistinct;
    var previous := if place in db.memberships then db.memberships[place].address else None;
    var rows := Upsert(db.memberships, place, id, now);
    ChosenIsFree(db.groups[place.group].subnet, Taken(rows, place.group), previous);
    TakenAfterUpsert(db, place, id, now);
  }

  lemma CreateKeeps(db: Database, id: Id, group: Group, device: Id, membership: Id, now: Time)
    requires db.Inv()
    ensures db.CreateGroup(id, group, device, membership, now).0.Inv()
  {
    hide Database.RowsFit, Database.AddressesDistinct, Database.OneOwner, Database.SessionsBelong;
    hide Database.SessionsDistinct, Database.CodesDistinct;
    if id !in db.groups && !db.CodeUsed(group.inviteCode) {
      var named := db.(groups := db.groups[id := group]);
      NamedKeeps(db, id, group);
      InsertKeeps(named, Place(id, device), membership, now);
      var (made, r) := named.Insert(Place(id, device), membership, now);
      if r.Success? {
        assert made == named.(memberships := named.memberships[Place(id, device) := r.value]);
        PromoteOnly(made, Place(id, device));
      }
    }
  }

  lemma NamedKeeps(db: Database, id: Id, group: Group)
    requires db.Inv() && id !in db.groups && !db.CodeUsed(group.inviteCode)
    ensures db.(groups := db.groups[id := group]).Inv()
    ensures forall k | k in db.memberships :: k.group != id
  {
    assert forall k | k in db.memberships :: k.group != id;
    hide Database.RowsFit, Database.AddressesDistinct, Database.OneOwner, Database.BannedAreOut;
    hide Database.SessionsBelong, Database.SessionsDistinct, Database.CodesDistinct;
    var r := db.(groups := db.groups[id := group]);
    SameRows(db, r);
    KeptBelong(db, r);
    FewerSessions(db, r);
    NewCode(db, id, group);
  }

  lemma NewCode(db: Database, id: Id, group: Group)
    requires db.CodesDistinct() && !db.CodeUsed(group.inviteCode)
    ensures db.(groups := db.groups[id := group]).CodesDistinct()
  {}

  /** The rows fit whatever is added to the groups, so long as their subnets stay. */
  lemma SameRows(db: Database, r: Database)
    requires db.Inv() && r.memberships == db.memberships
    requires forall g | g in db.groups :: g in r.groups && r.groups[g].subnet == db.groups[g].subnet
    ensures r.RowsFit() && r.AddressesDistinct() && r.OneOwner() && r.BannedAreOut()
  {
    hide Database.SessionsBelong, Database.SessionsDistinct, Database.CodesDistinct;
  }

  /** The only row of its group may take the owner's role. */
  lemma PromoteOnly(db: Database, place: Place)
    requires db.Inv() && place in db.memberships && db.memberships[place].Active()
    requires forall k | k in db.memberships && k.group == place.group :: k == place
    ensures db.(memberships := db.memberships[place := db.memberships[place].(role := RoleOwner)]).Inv()
  {
    PutKeeps(db, place, db.memberships[place].(role := RoleOwner), db.sessions);
  }

  /** A member revoked, banned or not, with its session ended. */
  lemma RevokeKeeps(db: Database, place: Place, row: Membership, sessions: map<Id, Session>)
    requires db.Inv() && place in db.memberships
    requires row == db.memberships[place].(revokedAt := row.revokedAt, bannedAt := row.bannedAt) && row.revokedAt.Some?
    requires SessionsLeft(db, place, row, sessions)
    ensures db.(memberships := db.memberships[place := row], sessions := sessions).Inv()
  {
    RevokedFits(db, place, row);
    PutKeeps(db, place, row, sessions);
  }

  lemma RevokedFits(db: Database, place: Place, row: Membership)
    requires db.RowsFit() && db.OneOwner() && place in db.memberships && !row.Active()
    requires row == db.memberships[place].(revokedAt := row.revokedAt, bannedAt := row.bannedAt)
    ensures RowFits(db, place, row)
  {}

  /** A session of a removed member's membership is a session of that group. */
  lemma SessionIsInGroup(db: Database, place: Place, s: Id)
    requires db.Inv() && place in db.memberships && s in db.sessions
    requires db.sessions[s].membership == db.memberships[place].id
    ensures db.sessions[s].group == place.group
  {
    var k :| db.Belongs(db.sessions[s], k);
  }

  lemma RemoveKeeps(db: Database, group: Id, owner: Id, target: Id, now: Time)
    requires db.Inv()
    ensures db.RemoveMember(group, owner, target, now).0.Inv()
  {
    var (r, err) := db.RemoveMember(group, owner, target, now);
    if err.None? {
      var place := Place(group, target);
      forall s | s in r.sessions ensures r.sessions[s].membership != db.memberships[place].id {
        if db.sessions[s].membership == db.memberships[place].id { SessionIsInGroup(db, place, s); }
      }
      hide Database.Inv;
      RevokeKeeps(db, place, r.memberships[place], r.sessions);
    }
  }

  lemma RoleFits(db: Database, place: Place, role: Role)
    requires db.Inv() && place in db.memberships
    requires role == RoleOwner ==> forall k | k in db.memberships && k != place && k.group == place.group ::
                                     db.memberships[k].role != RoleOwner
    ensures RowFits(db, place, db.memberships[place].(role := role))
    ensures SessionsLeft(db, place, db.memberships[place].(role := role), db.sessions)
  {
    forall s | s in db.sessions && db.sessions[s].membership == db.memberships[place].id
      ensures db.memberships[place].Active()
    {
      var k :| db.Belongs(db.sessions[s], k);
    }
  }

  lemma PutRole(db: Database, place: Place, role: Role)
    requires db.Inv() && place in db.memberships
    requires role == RoleOwner ==> forall k | k in db.memberships && k != place && k.group == place.group ::
                                     db.memberships[k].role != RoleOwner
    ensures db.(memberships := db.memberships[place := db.memberships[place].(role := role)]).Inv()
  {
    RoleFits(db, place, role);
    hide Database.Inv, RowFits, SessionsLeft;
    PutKeeps(db, place, db.memberships[place].(role := role), db.sessions);
  }

  /** The same rows come of demoting first: which is how no step of the argument sees two owners. */
  lemma TransferKeeps(db: Database, group: Id, owner: Id, target: Id)
    requires db.Inv()
    ensures db.TransferOwnership(group, owner, target).0.Inv()
  {
    hide Database.RowsFit, Database.AddressesDistinct, Database.OneOwner, Database.BannedAreOut;
    hide Database.SessionsBelong, Database.SessionsDistinct, Database.CodesDistinct;
    var (r, err) := db.TransferOwnership(group, owner, target);
    if err.None? {
      var from, to := Place(group, owner), Place(group, target);
      OnlyOwnerDemoted(db, from);
      PutRole(db, from, RoleMember);
      var demoted := db.(memberships := db.memberships[from := db.memberships[from].(role := RoleMember)]);
      if from == to {
        assert r == demoted;
      } else {
        PutRole(demoted, to, RoleOwner);
        assert r == demoted.(memberships := demoted.memberships[to := demoted.memberships[to].(role := RoleOwner)]);
      }
    }
  }

  lemma OnlyOwnerDemoted(db: Database, from: Place)
    requires db.OneOwner() && from in db.memberships && db.memberships[from].role == RoleOwner
    ensures
      var rows := db.memberships[from := db.memberships[from].(role := RoleMember)];
      forall k | k in rows && k.group == from.group :: rows[k].role != RoleOwner
  {}

  lemma DeleteKeeps(db: Database, group: Id, owner: Id)
    requires db.Inv()
    ensures db.DeleteGroup(group, owner).0.Inv()
  {
    hide Database.RowsFit, Database.AddressesDistinct, Database.OneOwner, Database.BannedAreOut;
    hide Database.SessionsBelong, Database.SessionsDistinct, Database.CodesDistinct;
    var (r, err) := db.DeleteGroup(group, owner);
    if err.None? {
      FewerRows(db, r);
      FewerSessions(db, r);
      FewerCodes(db, r);
      LeftBelong(db, r, group);
    }
  }

  lemma FewerCodes(db: Database, r: Database)
    requires db.CodesDistinct() && forall g | g in r.groups :: g in db.groups && r.groups[g] == db.groups[g]
    ensures r.CodesDistinct()
  {}

  lemma LeftBelong(db: Database, r: Database, gone: Id)
    requires db.SessionsBelong()
    requires forall k | k in db.memberships && k.group != gone ::
             k in r.memberships && r.memberships[k] == db.memberships[k]
    requires forall s | s in r.sessions ::
               && s in db.sessions && r.sessions[s].group != gone
               && r.sessions[s].membership == db.sessions[s].membership && r.sessions[s].group == db.sessions[s].group
    ensures r.SessionsBelong()
  {
    forall s | s in r.sessions ensures exists k :: r.Belongs(r.sessions[s], k) {
      var k :| db.Belongs(db.sessions[s], k);
      assert r.Belongs(r.sessions[s], k);
    }
  }

  lemma FewerRows(db: Database, r: Database)
    requires db.Inv()
    requires forall k | k in r.memberships :: k in db.memberships && r.memberships[k] == db.memberships[k]
    requires forall k | k in r.memberships && k.group in db.groups :: k.group in r.groups
    requires forall g | g in r.groups :: g in db.groups && r.groups[g] == db.groups[g]
    ensures r.RowsFit() && r.AddressesDistinct() && r.OneOwner() && r.BannedAreOut()
  {
    hide Database.SessionsBelong, Database.SessionsDistinct, Database.CodesDistinct;
  }

  /** Sessions may go, or change in what does not say whose they are. */
  lemma SessionsKeep(db: Database, sessions: map<Id, Session>)
    requires db.Inv()
    requires forall s | s in sessions ::
               s in db.sessions && sessions[s].membership == db.sessions[s].membership &&
                 sessions[s].group == db.sessions[s].group
    ensures db.(sessions := sessions).Inv()
  {
    hide Database.RowsFit, Database.AddressesDistinct, Database.OneOwner, Database.BannedAreOut;
    hide Database.SessionsBelong, Database.SessionsDistinct, Database.CodesDistinct;
    var r := db.(sessions := sessions);
    SameRows(db, r);
    FewerSessions(db, r);
    SameCodes(db, r);
    KeptBelong(db, r);
  }

  lemma KeptBelong(db: Database, r: Database)
    requires db.SessionsBelong() && r.memberships == db.memberships
    requires forall s | s in r.sessions ::
               && s in db.sessions
               && r.sessions[s].membership == db.sessions[s].membership && r.sessions[s].group == db.sessions[s].group
    ensures r.SessionsBelong()
  {
    forall s | s in r.sessions ensures exists k :: r.Belongs(r.sessions[s], k) {
      var k :| db.Belongs(db.sessions[s], k);
      assert r.Belongs(r.sessions[s], k);
    }
  }

  lemma ConnectKeeps(db: Database, group: Id, device: Id, id: Id, now: Time)
    requires db.Inv()
    ensures db.Connect(group, device, id, now).0.Inv()
  {
    hide Database.RowsFit, Database.AddressesDistinct, Database.OneOwner, Database.BannedAreOut;
    hide Database.SessionsBelong, Database.SessionsDistinct, Database.CodesDistinct;
    var (r, made) := db.Connect(group, device, id, now);
    if made.Success? {
      SameRows(db, r);
      ConnectedFits(db, r, Place(group, device), id, made.value);
      ConnectedDistinct(db, r, id, made.value);
      assert r.CodesDistinct() by { SameCodes(db, r); }
    }
  }

  lemma SameCodes(db: Database, r: Database)
    requires db.CodesDistinct() && r.groups == db.groups
    ensures r.CodesDistinct()
  {}

  lemma ConnectedFits(db: Database, r: Database, place: Place, id: Id, session: Session)
    requires db.SessionsBelong() && HasRow(db.memberships, place.group, place.device)
    requires session.group == place.group && session.membership == db.memberships[place].id
    requires r.memberships == db.memberships && r.sessions == db.SessionsWithout(session.membership)[id := session]
    ensures r.SessionsBelong()
  {
    forall s | s in r.sessions ensures exists k :: r.Belongs(r.sessions[s], k) {
      if s == id {
        assert r.Belongs(r.sessions[s], place);
      } else {
        var k :| db.Belongs(db.sessions[s], k);
        assert r.Belongs(r.sessions[s], k);
      }
    }
  }

  lemma ConnectedDistinct(db: Database, r: Database, id: Id, session: Session)
    requires db.SessionsDistinct() && id !in db.SessionsWithout(session.membership)
    requires r.sessions == db.SessionsWithout(session.membership)[id := session]
    ensures r.SessionsDistinct()
  {}

  lemma ResetKeeps(db: Database, group: Id, owner: Id, code: string)
    requires db.Inv()
    ensures db.ResetInviteCode(group, owner, code).0.Inv()
  {
    hide Database.RowsFit, Database.AddressesDistinct, Database.OneOwner, Database.BannedAreOut;
    hide Database.SessionsBelong, Database.SessionsDistinct, Database.CodesDistinct;
    var (r, err) := db.ResetInviteCode(group, owner, code);
    if err.None? {
      SameRows(db, r);
      KeptBelong(db, r);
      FewerSessions(db, r);
      NewCode(db, group, r.groups[group]);
    }
  }

  lemma JoinKeeps(db: Database, place: Place, membership: Id, now: Time)
    requires db.Inv()
    ensures db.AddMembership(place, membership, now).0.Inv()
  {
    hide Database.Inv;
    if !(place in db.memberships && db.memberships[place].bannedAt.Some?) { InsertKeeps(db, place, membership, now); }
  }

  lemma LeaveKeeps(db: Database, group: Id, device: Id, now: Time)
    requires db.Inv()
    ensures db.RevokeMembership(group, device, now).0.Inv()
  {
    hide Database.Inv;
    if HasRow(db.memberships, group, device) {
      var row := db.memberships[Place(group, device)];
      RevokeKeeps(db, Place(group, device), row.(revokedAt := Some(now)), db.SessionsWithout(row.id));
    }
  }

  lemma MoveKeeps(db: Database, session: Id, endpoint: AddrPort, now: Time)
    requires db.Inv()
    ensures db.SetSessionEndpoint(session, endpoint, now).0.Inv()
  {
    hide Database.Inv;
    SessionsKeep(db, db.SetSessionEndpoint(session, endpoint, now).0.sessions);
  }

  lemma TouchKeeps(db: Database, session: Id, now: Time)
    requires db.Inv()
    ensures db.TouchSession(session, now).0.Inv()
  {
    hide Database.Inv;
    SessionsKeep(db, db.TouchSession(session, now).0.sessions);
  }

  lemma DisconnectKeeps(db: Database, session: Id)
    requires db.Inv()
    ensures db.DeleteSession(session).0.Inv()
  {
    hide Database.Inv;
    SessionsKeep(db, db.DeleteSession(session).0.sessions);
  }

  lemma ExpireKeeps(db: Database, cutoff: Time)
    requires db.Inv()
    ensures db.ExpireSessions(cutoff).Inv()
  {
    hide Database.Inv;
    SessionsKeep(db, db.ExpireSessions(cutoff).sessions);
  }

  lemma StepKeeps(db: Database, e: Event)
    requires db.Inv()
    ensures Step(db, e).Inv()
  {
    hide Database.Inv;
    match e
    case Create(id, made, device, membership, now) => CreateKeeps(db, id, made, device, membership, now);
    case Join(place, membership, now) => JoinKeeps(db, place, membership, now);
    case Leave(group, device, now) => LeaveKeeps(db, group, device, now);
    case Remove(group, owner, target, now) => RemoveKeeps(db, group, owner, target, now);
    case Transfer(group, owner, target) => TransferKeeps(db, group, owner, target);
    case Reset(group, owner, code) => ResetKeeps(db, group, owner, code);
    case Delete(group, owner) => DeleteKeeps(db, group, owner);
    case Connect(group, device, session, now) => ConnectKeeps(db, group, device, session, now);
    case Move(session, endpoint, now) => MoveKeeps(db, session, endpoint, now);
    case Touch(session, now) => TouchKeeps(db, session, now);
    case Disconnect(session) => DisconnectKeeps(db, session);
    case Expire(cutoff) => ExpireKeeps(db, cutoff);
  }

  /** In every reachable state: active members of a group hold distinct host addresses, no group has two
      owners, the banned are out, and sessions inject into active members of their own group. */
  lemma {:induction false} RunKeeps(events: seq<Event>)
    ensures Run(events).Inv()
  {
    hide Step;
    if events != [] {
      RunKeeps(events[..|events| - 1]);
      StepKeeps(Run(events[..|events| - 1]), events[|events| - 1]);
    }
  }
}
