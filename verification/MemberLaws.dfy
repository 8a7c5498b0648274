/** What the tables promise members: the address they get, who runs a group, and that being removed
    is for good. */
module MemberLaws {
  import Bytes
  import opened Netip
  import opened Records
  import opened RecordRuns
  import opened Subnets
  import opened Wrappers

  // ----- addresses -----

  /** Another active member of the group holds the address. */
  ghost predicate Held(db: Database, place: Place, v: uint32) {
    exists k :: k in db.memberships && k != place && k.group == place.group && db.memberships[k].Active()
      && db.memberships[k].address == Some(v)
  }

  /** A join gives a device the address it had before, unless another active member holds it, and
      otherwise the lowest one free. It is refused as full, changing nothing, exactly when neither exists. */
  lemma JoinAddress(db: Database, place: Place, id: Id, now: Time)
    requires db.Inv() && place.group in db.groups
    requires place in db.memberships || !db.IdUsed(id)
    requires place in db.memberships ==> db.memberships[place].bannedAt.None?
    ensures
      var (r, made) := db.AddMembership(place, id, now);
      var subnet := db.groups[place.group].subnet;
      var former := if place in db.memberships then db.memberships[place].address else None;
      && (made == Failure(ErrGroupFull) <==>
          (former.None? || Held(db, place, former.value)) && forall v: uint32 | Host(subnet, v) :: Held(db, place, v))
      && (made.Failure? ==> made == Failure(ErrGroupFull) && r == db)
      && (made.Success? ==>
          && r.memberships == db.memberships[place := made.value] && made.value.Active() && made.value.address.Some?
          && var v := made.value.address.value;
             if former.Some? && !Held(db, place, former.value) then former == Some(v)
             else Host(subnet, v) && !Held(db, place, v) &&
                  forall w: uint32 | Host(subnet, w) && w < v :: Held(db, place, w))
  {
    hide Database.Inv, Taken, Upsert, Choose, Held, Host, Database.AddMembership;
    var former := if place in db.memberships then db.memberships[place].address else None;
    var taken := Taken(Upsert(db.memberships, place, id, now), place.group);
    TakenIsHeld(db, place, id, now);
    ChosenAddress(db.groups[place.group].subnet, taken, former);
    JoinIsChosen(db, place, id, now);
  }

  lemma ChosenAddress(p: Prefix, taken: set<uint32>, former: Option<uint32>)
    ensures
      var r := Choose(p, taken, former);
      && (r.None? <==> (former.None? || former.value in taken) && forall v: uint32 | Host(p, v) :: v in taken)
      && (former.Some? && former.value !in taken ==> r == former)
      && (r.Some? && (former.None? || former.value in taken) ==>
          Host(p, r.value) && r.value !in taken && forall w: uint32 | Host(p, w) && w < r.value :: w in taken)
  {
    FreeIsLowest(p, taken);
    hide FreeAddress, Host;
  }

  lemma JoinIsChosen(db: Database, place: Place, id: Id, now: Time)
    requires place.group in db.groups && (place in db.memberships || !db.IdUsed(id))
    requires place in db.memberships ==> db.memberships[place].bannedAt.None?
    ensures
      var (r, made) := db.AddMembership(place, id, now);
      var former := if place in db.memberships then db.memberships[place].address else None;
      var address := Choose(db.groups[place.group].subnet, Taken(Upsert(db.memberships, place, id, now), place.group),
        former);
      && made == (if address.None? then Failure(ErrGroupFull)
                  else Success(Upsert(db.memberships, place, id, now)[place].(address := address)))
      && (made.Failure? ==> r == db)
      && (made.Success? ==> r == db.(memberships := db.memberships[place := made.value]) && made.value.Active())
      && (made.Success? ==> made.value.address == address)
      && (made.Success? && place in db.memberships ==>
          made.value == db.memberships[place].(revokedAt := None, address := address))
  {
    hide Taken, Choose, Database.IdUsed;
  }

  lemma TakenIsHeld(db: Database, place: Place, id: Id, now: Time)
    requires db.Inv()
    ensures forall v :: v in Taken(Upsert(db.memberships, place, id, now), place.group) <==> Held(db, place, v)
  {
    hide Database.AddressesDistinct, Database.OneOwner, Database.SessionsBelong, Database.SessionsDistinct;
    TakenAfterUpsert(db, place, id, now);
  }

  /** Whoever leaves and comes straight back is as they were: the same membership, role and address. */
  lemma LeavingIsUndone(db: Database, place: Place, id: Id, before: Time, now: Time)
    requires db.Inv() && HasRow(db.memberships, place.group, place.device)
    ensures
      var left := db.RevokeMembership(place.group, place.device, before).0;
      left.AddMembership(place, id, now).0.memberships == db.memberships
  {
    hide Database.Inv, Held, Taken, Upsert, Choose, Host, Database.IdUsed;
    hide Database.AddMembership;
    var left := db.RevokeMembership(place.group, place.device, before).0;
    InGroup(db, place);
    StepKeeps(db, Leave(place.group, place.device, before));
    NotHeld(db, left, place, before);
    JoinAddress(left, place, id, now);
    JoinIsChosen(left, place, id, now);
  }

  lemma InGroup(db: Database, place: Place)
    requires db.Inv() && HasRow(db.memberships, place.group, place.device)
    ensures place.group in db.groups && db.memberships[place].bannedAt.None?
  {}

  lemma NotHeld(db: Database, left: Database, place: Place, before: Time)
    requires db.Inv() && HasRow(db.memberships, place.group, place.device)
    requires left.memberships == db.memberships[place := db.memberships[place].(revokedAt := Some(before))]
    ensures db.memberships[place].address.Some? && !Held(left, place, db.memberships[place].address.value)
  {
    hide Database.OneOwner, Database.SessionsBelong, Database.SessionsDistinct, Database.CodesDistinct;
  }

  // ----- ownership -----

  ghost function Owners(db: Database, group: Id): set<Place> {
    set k | k in db.memberships && k.group == group && db.memberships[k].role == RoleOwner
  }

  /** Handing a group over leaves it exactly one owner, the target, if the target is somebody else,
      and leaves it none if it is the owner. */
  lemma TransferLeaves(db: Database, group: Id, owner: Id, target: Id)
    requires db.Inv() && db.TransferOwnership(group, owner, target).1.None?
    ensures Owners(db, group) == {Place(group, owner)}
    ensures Owners(db.TransferOwnership(group, owner, target).0, group) ==
            if owner == target then {} else {Place(group, target)}
  {
    hide Database.RowsFit, Database.AddressesDistinct, Database.SessionsBelong, Database.SessionsDistinct;
  }

  const EXAMPLE := Group(Prefix([10, 0, 0, 0], 24), "code")

  /** "Exactly one owner" is false of the code: whoever makes a group can hand it to themselves, and
      nobody runs it then. */
  lemma SelfTransferLeavesNobody()
    ensures
      var db := Run([Create("g", EXAMPLE, "d", "m", 0), Transfer("g", "d", "d")]);
      "g" in db.groups && HasRow(db.memberships, "g", "d") && Owners(db, "g") == {}
  {
    FirstGroup();
    hide Run, Database.CreateGroup, Database.Inv, Owners;
    RunTwo(Create("g", EXAMPLE, "d", "m", 0), Transfer("g", "d", "d"));
    CreateKeeps(EMPTY, "g", EXAMPLE, "d", "m", 0);
    TransferLeaves(EMPTY.CreateGroup("g", EXAMPLE, "d", "m", 0).0, "g", "d", "d");
  }

  lemma RunTwo(first: Event, second: Event)
    ensures Run([first, second]) == Step(Step(EMPTY, first), second)
  {
    hide Step;
    var events := [first, second];
    assert events[..1] == [first];
    assert [first][..0] == [];
    assert Run([first]) == Step(EMPTY, first);
  }

  lemma FirstGroup()
    ensures EMPTY.Inv()
    ensures
      var made := EMPTY.CreateGroup("g", EXAMPLE, "d", "m", 0).0;
      "g" in made.groups && HasRow(made.memberships, "g", "d") && made.memberships[Place("g", "d")].role == RoleOwner
  {
    FirstAddress(EXAMPLE.subnet);
    hide FreeAddress;
  }

  lemma FirstAddress(subnet: Prefix)
    requires subnet.bits == 24
    ensures FreeAddress(subnet, {}).Some?
  {
    Bytes.PowersOfTwo();
    assert subnet.Broadcast() == subnet.Network() + 0xff;
    FreeIsLowest(subnet, {});
    assert Host(subnet, subnet.Network() + 1);
  }

  // ----- being removed -----

  ghost predicate Banned(db: Database, place: Place) {
    place in db.memberships && db.memberships[place].bannedAt.Some?
  }

  /** A successful removal bans the device and ends its session. */
  lemma RemovalBans(db: Database, group: Id, owner: Id, target: Id, now: Time)
    requires db.Inv() && db.RemoveMember(group, owner, target, now).1.None?
    ensures
      var r := db.RemoveMember(group, owner, target, now).0;
      Banned(r, Place(group, target)) && forall s | s in r.sessions :: !r.Belongs(r.sessions[s], Place(group, target))
  {}

  lemma BannedStays(db: Database, e: Event, place: Place)
    requires Banned(db, place) && place.group in db.groups && place.group in Step(db, e).groups
    ensures Banned(Step(db, e), place)
  {
    hide Taken, Choose;
  }

  /** A device removed from a group is never an active member of it again, and has no session in it,
      while the group exists, whatever is done. */
  lemma {:induction false} RemovedStaysOut(events: seq<Event>, more: seq<Event>, place: Place)
    requires Banned(Run(events), place)
    requires forall n | |events| <= n <= |events + more| :: place.group in Run((events + more)[..n]).groups
    ensures Banned(Run(events + more), place)
    ensures !HasRow(Run(events + more).memberships, place.group, place.device)
    ensures forall s | s in Run(events + more).sessions ::
            !Run(events + more).Belongs(Run(events + more).sessions[s], place)
    decreases |more|
  {
    hide Step;
    RunKeeps(events + more);
    if more == [] {
      assert events + more == events;
    } else {
      var last := |more| - 1;
      var sofar := events + more[..last];
      assert (events + more)[..|events + more| - 1] == sofar;
      assert (events + more)[|events + more| - 1] == more[last];
      forall n | |events| <= n <= |sofar| ensures place.group in Run(sofar[..n]).groups {
        assert sofar[..n] == (events + more)[..n];
      }
      RemovedStaysOut(events, more[..last], place);
      assert sofar[..|sofar|] == sofar && (events + more)[..|sofar|] == sofar;
      assert (events + more)[..|events + more|] == events + more;
      BannedStays(Run(sofar), more[last], place);
    }
    hide Database.RowsFit, Database.AddressesDistinct, Database.OneOwner, Database.SessionsBelong;
    hide Database.SessionsDistinct;
  }

  // ----- counts -----

  ghost function Online(db: Database, group: Id): set<Id> {
    set s | s in db.sessions && db.sessions[s].group == group
  }

  ghost function ActiveMembers(db: Database, group: Id): set<Place> {
    set k | k in db.memberships && k.group == group && db.memberships[k].Active()
  }

  /** Sessions that are each of another member of a group are no more than its members. */
  lemma {:induction false} SessionsCount(db: Database, online: set<Id>, active: set<Place>)
    requires forall s | s in online :: s in db.sessions && exists k :: k in active && db.Belongs(db.sessions[s], k)
    requires forall k, s, t | k in active && s in online && t in online
               && db.Belongs(db.sessions[s], k) && db.Belongs(db.sessions[t], k) :: s == t
    ensures |online| <= |active|
    decreases |online|
  {
    if online != {} {
      var s :| s in online;
      var k :| k in active && db.Belongs(db.sessions[s], k);
      forall t | t in online - {s} ensures exists j :: j in active - {k} && db.Belongs(db.sessions[t], j) {
        var j :| j in active && db.Belongs(db.sessions[t], j);
      }
      SessionsCount(db, online - {s}, active - {k});
    }
  }

  /** No group ever has more members online than it has members. */
  lemma OnlineIsBelowMembers(db: Database, group: Id)
    requires db.Inv()
    ensures |Online(db, group)| <= |ActiveMembers(db, group)|
  {
    hide Database.RowsFit, Database.AddressesDistinct, Database.OneOwner, Database.BannedAreOut, Database.CodesDistinct;
    forall s | s in Online(db, group)
      ensures exists k :: k in ActiveMembers(db, group) && db.Belongs(db.sessions[s], k)
    {
      var k :| db.Belongs(db.sessions[s], k);
    }
    SessionsCount(db, Online(db, group), ActiveMembers(db, group));
  }
}
