/** Who runs a group, over any sequence of transactions: one row with the owner's role until the group is
    handed to its own owner, and none from then on; and that row's device, unless it has left. */
module Ownership {
  import opened MemberLaws
  import opened RecordRuns
  import opened Records
  import opened Wrappers

  /** An event that hands a group to the device that owns it, and is not refused. */
  ghost predicate HandsToSelf(db: Database, e: Event, group: Id) {
    e.Transfer? && e.group == group && e.owner == e.target && db.OwnerOnly(group, e.owner).None?
  }

  /** The k-th event did, and the group has existed ever since. */
  ghost predicate HandedToSelf(events: seq<Event>, group: Id, k: nat) {
    && k < |events| && HandsToSelf(Run(events[..k]), events[k], group)
    && forall n | k <= n <= |events| :: group in Run(events[..n]).groups
  }

  /** What an event makes of a group's owner rows: one when it is made, another's when it is handed over, none
      when it is handed to its owner, and the same otherwise. */
  lemma OwnersAfter(db: Database, e: Event, group: Id)
    requires db.Inv() && group in Step(db, e).groups
    ensures group !in db.groups ==> e.Create? && Owners(Step(db, e), group) == {Place(group, e.device)}
    ensures group in db.groups && HandsToSelf(db, e, group) ==> Owners(Step(db, e), group) == {}
    ensures group in db.groups && !HandsToSelf(db, e, group) && db.memberships != Step(db, e).memberships
            && e.Transfer? && e.group == group ==>
              Owners(db, group) == {Place(group, e.owner)} && Owners(Step(db, e), group) == {Place(group, e.target)}
    ensures group in db.groups && !(e.Transfer? && e.group == group) ==> Owners(Step(db, e), group) == Owners(db, group)
  {
    hide Database.Inv, Taken, Choose;
    match e
    case Create(id, made, device, membership, now) => CreateOwners(db, e, group);
    case Join(place, membership, now) => JoinOwners(db, place, membership, now, group);
    case Transfer(g, owner, target) => TransferOwners(db, g, owner, target, group);
    case Delete(g, owner) => DeleteOwners(db, g, owner, group);
    case _ => SameRoles(db, Step(db, e), group);
  }

  lemma SameRoles(db: Database, r: Database, group: Id)
    requires forall k :: k in r.memberships && k.group == group <==> k in db.memberships && k.group == group
    requires forall k | k in db.memberships && k.group == group :: r.memberships[k].role == db.memberships[k].role
    ensures Owners(r, group) == Owners(db, group)
  {}

  lemma JoinOwners(db: Database, place: Place, id: Id, now: Time, group: Id)
    requires db.Inv()
    ensures Owners(db.AddMembership(place, id, now).0, group) == Owners(db, group)
  {
    hide Database.Inv, Taken, Choose;
    var r := db.AddMembership(place, id, now).0;
    assert r == db ||
           (r.memberships == db.memberships[place := r.memberships[place]] &&
            r.memberships[place].role == if place in db.memberships then db.memberships[place].role else RoleMember);
  }

  lemma CreateOwners(db: Database, e: Event, group: Id)
    requires db.Inv() && e.Create? && group in Step(db, e).groups
    ensures group !in db.groups ==> Owners(Step(db, e), group) == {Place(group, e.device)}
    ensures group in db.groups ==> Owners(Step(db, e), group) == Owners(db, group)
  {
    hide Database.Inv, Database.CreateGroup;
    CreatedRow(db, e);
    if e.id !in db.groups { NoRowsYet(db, e.id); }
  }

  lemma CreatedRow(db: Database, e: Event)
    requires e.Create?
    ensures
      var r := Step(db, e);
      var place := Place(e.id, e.device);
      r == db || (e.id !in db.groups && place in r.memberships && r.memberships[place].role == RoleOwner &&
                  r.memberships == db.memberships[place := r.memberships[place]] &&
                    r.groups.Keys == db.groups.Keys + {e.id})
  {
    hide Taken, Choose;
  }

  lemma NoRowsYet(db: Database, group: Id)
    requires db.Inv() && group !in db.groups
    ensures forall k | k in db.memberships :: k.group != group
  {
    hide Database.AddressesDistinct, Database.OneOwner, Database.BannedAreOut;
    hide Database.SessionsBelong, Database.SessionsDistinct, Database.CodesDistinct;
  }

  lemma TransferOwners(db: Database, g: Id, owner: Id, target: Id, group: Id)
    requires db.Inv()
    ensures
      var (r, err) := db.TransferOwnership(g, owner, target);
      && (err.Some? || g != group ==> Owners(r, group) == Owners(db, group))
      && (err.None? && g == group ==>
            Owners(db, group) == {Place(group, owner)} &&
            Owners(r, group) == if owner == target then {} else {Place(group, target)})
      && (g == group && owner == target && db.OwnerOnly(group, owner).None? ==> err.None?)
  {
    hide Database.Inv;
    if db.TransferOwnership(g, owner, target).1.None? { TransferLeaves(db, g, owner, target); }
  }

  lemma DeleteOwners(db: Database, g: Id, owner: Id, group: Id)
    requires group in db.DeleteGroup(g, owner).0.groups
    ensures Owners(db.DeleteGroup(g, owner).0, group) == Owners(db, group)
  {
    hide Database.Inv;
  }

  /** An existing group has one row with the owner's role, or none, and none exactly if it was handed to its
      owner since it was made. As an earlier such event stays one, there is never one again. */
  lemma {:induction false} OneOwnerUnlessHandedToSelf(events: seq<Event>, group: Id)
    requires group in Run(events).groups
    ensures Owners(Run(events), group) == {} || exists p :: Owners(Run(events), group) == {p}
    ensures Owners(Run(events), group) == {} <==> exists k :: HandedToSelf(events, group, k)
  {
    hide Step, Database.Inv, Owners, HandsToSelf;
    if events != [] {
      var before, last := events[..|events| - 1], events[|events| - 1];
      RunKeeps(before);
      OwnersAfter(Run(before), last, group);
      HandedNext(events, group);
      if group in Run(before).groups {
        OneOwnerUnlessHandedToSelf(before, group);
        if last.Transfer? && last.group == group { TransferOwners(Run(before), group, last.owner, last.target, group); }
        TransferSplits(Run(before), last, group);
      }
    }
  }

  lemma TransferSplits(db: Database, e: Event, group: Id)
    requires db.Inv() && group in db.groups
    ensures Owners(db, group) == {} ==>
              !HandsToSelf(db, e, group) && (e.Transfer? && e.group == group ==> Step(db, e) == db)
    ensures !HandsToSelf(db, e, group) && e.Transfer? && e.group == group ==>
              Owners(Step(db, e), group) == Owners(db, group) || Owners(Step(db, e), group) == {Place(group, e.target)}
    ensures Owners(db, group) != {} && !HandsToSelf(db, e, group) && e.Transfer? && e.group == group ==>
              Owners(Step(db, e), group) != {}
  {
    hide Database.Inv;
    if e.Transfer? && e.group == group {
      TransferOwners(db, group, e.owner, e.target, group);
      if db.OwnerOnly(group, e.owner).None? { assert Place(group, e.owner) in Owners(db, group); }
    }
  }

  /** A group was handed to its owner by the last event, or before and it exists still. */
  lemma HandedNext(events: seq<Event>, group: Id)
    requires events != [] && group in Run(events).groups
    ensures
      var before, last := events[..|events| - 1], events[|events| - 1];
      (exists k :: HandedToSelf(events, group, k)) <==>
        group in Run(before).groups &&
        (HandsToSelf(Run(before), last, group) || exists k :: HandedToSelf(before, group, k))
  {
    hide Run, HandsToSelf;
    var before, n := events[..|events| - 1], |events| - 1;
    assert events[..n] == before && events[..|events|] == events && before[..n] == before;
    forall m: nat | m <= n ensures events[..m] == before[..m] {}
    if k: nat :| HandedToSelf(events, group, k) {
      assert group in Run(events[..n]).groups;
      if k < n {
        forall m | k <= m <= |before| ensures group in Run(before[..m]).groups { assert events[..m] == before[..m]; }
        assert HandedToSelf(before, group, k);
      }
    }
    if group in Run(before).groups {
      if HandsToSelf(Run(before), events[n], group) { assert HandedToSelf(events, group, n); }
      if k: nat :| HandedToSelf(before, group, k) {
        forall m | k <= m <= |events| ensures group in Run(events[..m]).groups {
          if m <= n { assert events[..m] == before[..m]; } else { assert events[..m] == events; }
        }
        assert HandedToSelf(events, group, k);
      }
    }
  }

  // ----- an owner who is there -----

  /** The group has an active member with the owner's role. */
  ghost predicate Led(db: Database, group: Id) {
    exists p :: p in Owners(db, group) && db.memberships[p].Active()
  }

  /** So a group has an owner who is there exactly if it was not handed to its owner and that one row is not
      revoked. */
  lemma LedExactly(events: seq<Event>, group: Id)
    requires group in Run(events).groups
    ensures Led(Run(events), group) <==>
            (forall k :: !HandedToSelf(events, group, k)) &&
            exists p :: Owners(Run(events), group) == {p} && p in Run(events).memberships &&
              Run(events).memberships[p].Active()
  {
    hide Run, HandedToSelf;
    OneOwnerUnlessHandedToSelf(events, group);
    var db := Run(events);
    if Led(db, group) {
      var p :| p in Owners(db, group) && db.memberships[p].Active();
      assert Owners(db, group) == {p};
    }
    if p :| Owners(db, group) == {p} && p in db.memberships && db.memberships[p].Active() {
      assert p in Owners(db, group);
    }
  }

  /** The owner leaves, or hands the group to itself. */
  ghost predicate OwnerGoes(db: Database, e: Event, group: Id) {
    || (e.Leave? && e.group == group && Place(group, e.device) in Owners(db, group))
    || HandsToSelf(db, e, group)
  }

  /** The device whose row has the owner's role comes back. */
  ghost predicate OwnerComesBack(db: Database, e: Event, group: Id) {
    e.Join? && e.place.group == group && e.place in Owners(db, group) &&
      db.AddMembership(e.place, e.membership, e.now).1.Success?
  }

  /** Nothing else leaves a group without an owner who is there, and nothing else gives it one again. */
  lemma LedChanges(db: Database, e: Event, group: Id)
    requires db.Inv() && group in db.groups && group in Step(db, e).groups
    ensures Led(db, group) ==> (Led(Step(db, e), group) <==> !OwnerGoes(db, e, group))
    ensures !Led(db, group) ==> (Led(Step(db, e), group) <==> OwnerComesBack(db, e, group))
  {
    hide Database.Inv, Taken, Choose, Owners;
    OwnersAfter(db, e, group);
    if e.Transfer? && e.group == group {
      TransferLed(db, e, group);
    } else if e.Leave? && e.group == group {
      LeaveLed(db, e, group);
    } else if e.Join? && e.place.group == group {
      JoinLed(db, e, group);
    } else if e.Remove? && e.group == group {
      RemoveLed(db, e, group);
    } else {
      OtherwiseLed(db, e, group);
    }
  }

  /** Two databases with the same owner rows, and the same of them active. */
  lemma SameLed(db: Database, r: Database, group: Id)
    requires Owners(r, group) == Owners(db, group)
    requires forall p | p in Owners(db, group) ::
             p in r.memberships && (r.memberships[p].Active() <==> db.memberships[p].Active())
    ensures Led(r, group) <==> Led(db, group)
  {}

  lemma TransferLed(db: Database, e: Event, group: Id)
    requires db.Inv() && e.Transfer? && e.group == group
    ensures Led(db, group) ==> (Led(Step(db, e), group) <==> !OwnerGoes(db, e, group))
    ensures !Led(db, group) ==> !Led(Step(db, e), group)
  {
    hide Database.Inv;
    var (r, err) := db.TransferOwnership(group, e.owner, e.target);
    TransferOwners(db, group, e.owner, e.target, group);
    if err.None? {
      assert Place(group, e.owner) in Owners(db, group) && db.memberships[Place(group, e.owner)].Active();
      if e.owner != e.target {
        assert Place(group, e.target) in Owners(r, group) && r.memberships[Place(group, e.target)].Active();
      }
    }
  }

  lemma LeaveLed(db: Database, e: Event, group: Id)
    requires db.Inv() && e.Leave? && e.group == group && Owners(Step(db, e), group) == Owners(db, group)
    ensures Led(db, group) ==> (Led(Step(db, e), group) <==> !OwnerGoes(db, e, group))
    ensures !Led(db, group) ==> !Led(Step(db, e), group)
  {
    hide Database.RowsFit, Database.AddressesDistinct, Database.SessionsBelong, Database.SessionsDistinct;
    hide Database.CodesDistinct;
    var place, r := Place(group, e.device), Step(db, e);
    if place in Owners(db, group) {
      forall p | p in Owners(r, group) ensures p == place {}
    } else {
      SameLed(db, r, group);
    }
  }

  lemma JoinLed(db: Database, e: Event, group: Id)
    requires db.Inv() && e.Join? && e.place.group == group && Owners(Step(db, e), group) == Owners(db, group)
    ensures Led(db, group) ==> Led(Step(db, e), group)
    ensures !Led(db, group) ==> (Led(Step(db, e), group) <==> OwnerComesBack(db, e, group))
  {
    hide Database.RowsFit, Database.AddressesDistinct, Database.SessionsBelong, Database.SessionsDistinct;
    hide Database.CodesDistinct;
    hide Taken, Choose;
    var r := Step(db, e);
    var made := db.AddMembership(e.place, e.membership, e.now).1;
    assert if made.Failure? then r == db
           else r.memberships == db.memberships[e.place := r.memberships[e.place]] && r.memberships[e.place].Active();
    if e.place in Owners(db, group) && made.Success? {
      assert e.place in Owners(r, group) && r.memberships[e.place].Active();
    } else {
      SameLed(db, r, group);
    }
  }

  /** The owner is never removed: only the owner removes, and not itself. */
  lemma RemoveLed(db: Database, e: Event, group: Id)
    requires db.Inv() && e.Remove? && e.group == group && Owners(Step(db, e), group) == Owners(db, group)
    ensures Led(Step(db, e), group) <==> Led(db, group)
  {
    hide Database.RowsFit, Database.AddressesDistinct, Database.SessionsBelong, Database.SessionsDistinct;
    hide Database.CodesDistinct;
    SameLed(db, Step(db, e), group);
  }

  lemma OtherwiseLed(db: Database, e: Event, group: Id)
    requires db.Inv() && group in db.groups && group in Step(db, e).groups
    requires Owners(Step(db, e), group) == Owners(db, group)
    requires !(e.Transfer? && e.group == group) && !(e.Leave? && e.group == group)
    requires !(e.Join? && e.place.group == group) && !(e.Remove? && e.group == group)
    ensures Led(Step(db, e), group) <==> Led(db, group)
  {
    hide Database.Inv, Taken, Choose;
    SameLed(db, Step(db, e), group);
  }

  /** And the owner may leave: the group goes on, and nobody who is there runs it. */
  lemma OwnerMayLeave()
    ensures
      var events := [Create("g", EXAMPLE, "d", "m", 0), Leave("g", "d", 1)];
      && "g" in Run(events).groups && Owners(Run(events), "g") == {Place("g", "d")} && !Led(Run(events), "g")
      && Led(Run(events[..1]), "g")
  {
    hide Run, Step, Database.Inv, Owners, HandsToSelf;
    var create, leave := Create("g", EXAMPLE, "d", "m", 0), Leave("g", "d", 1);
    FirstGroup();
    RunTwo(create, leave);
    assert [create, leave][..1] == [create];
    RunOne(create);
    var made := Step(EMPTY, create);
    RunKeeps([create]);
    GroupMade(made);
    LeftGroup(made, leave);
    OwnersAfter(made, leave, "g");
    LedChanges(made, leave, "g");
  }

  lemma RunOne(e: Event)
    ensures Run([e]) == Step(EMPTY, e)
  {
    assert [e][..0] == [];
  }

  lemma GroupMade(db: Database)
    requires db == Step(EMPTY, Create("g", EXAMPLE, "d", "m", 0)) && db.Inv()
    ensures "g" in db.groups && Owners(db, "g") == {Place("g", "d")} && Led(db, "g")
    ensures Place("g", "d") in Owners(db, "g")
  {
    hide Database.Inv;
    FirstGroup();
    OwnersAfter(EMPTY, Create("g", EXAMPLE, "d", "m", 0), "g");
    assert Place("g", "d") in Owners(db, "g") && db.memberships[Place("g", "d")].Active();
  }

  lemma LeftGroup(db: Database, e: Event)
    requires e.Leave?
    ensures Step(db, e).groups == db.groups
  {}
}
