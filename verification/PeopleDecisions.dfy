/** Two ways of asking the same question agree, and the lazy expiry sweep is invisible to the snapshot after it. */
module PeopleDecisions {
  import opened Core
  import opened People
  import opened PeopleRuns

  /** What the per-person access call answers to a runtime holding the current revision. */
  predicate AccessGrants(t: Tables, limits: Limits, owner: OwnerId, id: PersonId, session: Tag, sessionRecall: bool, clock: Clock) {
    id in t.persons
    && var outcome := ProvisionalMemoryPolicy(t, limits, owner, id, Some(t.persons[id].revision), None, Session(session), clock);
       outcome.Done? && Grants(outcome.view.policy, sessionRecall)
  }

  /** The person's rows, read now, allow the use: theirs to have and not withheld, with the permission on. */
  predicate RowsAllow(t: Tables, limits: Limits, owner: OwnerId, id: PersonId, sessionRecall: bool, now: real) {
    id in t.persons && id in t.realms && t.persons[id].owner == owner
    && !Withheld(t.persons[id], limits, now) && Grants(t.realms[id].provisional, sessionRecall)
  }

  /** At one instant of any reachable state the two procedures agree about every person of an active owner; for any owner
      they agree exactly when the owner is active or the person's rows would not allow the use. */
  lemma DecisionsAgreeExactly(
    limits: Limits, events: seq<Event>, owner: OwnerId, id: PersonId, session: Tag, sessionRecall: bool, clock: Clock)
    ensures var t := Run(EMPTY, limits, events);
            var listed := id in ProvisionalRuntimeRealms(t, limits, owner, sessionRecall, clock(0));
            var granted := AccessGrants(t, limits, owner, id, session, sessionRecall, clock);
            && (OwnerIsActive(t, owner) ==> (listed <==> granted))
            && (granted ==> OwnerIsActive(t, owner))
            && ((listed <==> granted) <==> OwnerIsActive(t, owner) || !RowsAllow(t, limits, owner, id, sessionRecall, clock(0)))
  {
    RunKeepsSound(EMPTY, limits, events);
    var t := Run(EMPTY, limits, events);
    if id in t.realms { assert RealmSound(t, id); }
    if id in t.persons { assert PersonSound(t.persons[id]); }
    if id in t.receipts { assert ReceiptSound(t, id); }
  }

  /** The projection does not look at the owner: after archive_owner it still lists a candidate's realm. */
  lemma ArchivedOwnerStillListed(limits: Limits, session: Tag)
    requires limits.ttl > 0.0 && limits.maxCandidates > 0
    ensures var clock: Clock := _ => 0.0;
            var saving := MemoryDefaults(Policy(true, false), false);
            var events := [
              Event(1, Owners(CmdCreateOwner), clock, 0.0),
              Event(1, Memory(CmdDefaults(Some(1), saving)), clock, 0.0),
              Event(1, Persons(CmdCreate(PersonCreate(7, 0, Candidate, false, 0), 70)), clock, 0.0),
              Event(1, Owners(CmdArchiveOwner), clock, 0.0)];
            var t := Run(EMPTY, limits, events);
            7 in ProvisionalRuntimeRealms(t, limits, 1, false, 0.0) && !AccessGrants(t, limits, 1, 7, session, false, clock)
  {
    var clock: Clock := _ => 0.0;
    var saving := MemoryDefaults(Policy(true, false), false);
    var request := PersonCreate(7, 0, Candidate, false, 0);
    var e0 := Event(1, Owners(CmdCreateOwner), clock, 0.0);
    var e1 := Event(1, Memory(CmdDefaults(Some(1), saving)), clock, 0.0);
    var e2 := Event(1, Persons(CmdCreate(request, 70)), clock, 0.0);
    var e3 := Event(1, Owners(CmdArchiveOwner), clock, 0.0);
    var t1 := Step(EMPTY, limits, e0);
    var t2 := Step(t1, limits, e1);
    assert t2.owners == map[1 := Owner(OwnerActive, saving, 2)];
    assert Pool(t2, 1, limits, 0.0) == {};
    var t3 := Step(t2, limits, e2);
    assert t3.persons == map[7 := NewPerson(1, request, 0.0)];
    assert t3.realms == map[7 := Realm(70, 1, RealmInactive, Policy(true, false), true, false)];
    var t4 := Step(t3, limits, e3);
    assert t4.persons == t3.persons && t4.realms[7] == t3.realms[7];
    FourSteps(EMPTY, limits, e0, e1, e2, e3);
  }

  lemma FourSteps(t: Tables, limits: Limits, a: Event, b: Event, c: Event, d: Event)
    ensures Run(t, limits, [a, b, c, d]) == Step(Step(Step(Step(t, limits, a), limits, b), limits, c), limits, d)
  {
    var t1 := Step(t, limits, a);
    var t2 := Step(t1, limits, b);
    var t3 := Step(t2, limits, c);
    assert [a, b, c, d][1..] == [b, c, d] && Run(t, limits, [a, b, c, d]) == Run(t1, limits, [b, c, d]);
    assert [b, c, d][1..] == [c, d] && Run(t1, limits, [b, c, d]) == Run(t2, limits, [c, d]);
    assert [c, d][1..] == [d] && Run(t2, limits, [c, d]) == Run(t3, limits, [d]);
    assert [d][1..] == [] && Run(t3, limits, [d]) == Step(t3, limits, d);
  }

  /** Whichever expired candidates a sweep retains, no later snapshot, of any owner, shows a difference. */
  lemma SweepIsInvisible(
    t: Tables, limits: Limits, owner: OwnerId, chosen: set<PersonId>, at: real, other: OwnerId,
    policy: Option<DiscoveryPolicy>, now: real)
    requires at <= now
    ensures RecognitionSnapshot(After(t, Sweep(t, limits, owner, chosen, at)), limits, other, policy, now) ==
            RecognitionSnapshot(t, limits, other, policy, now)
  {
    var u := After(t, Sweep(t, limits, owner, chosen, at));
    if u != t {
      forall p | p in t.profiles && t.profiles[p].person in t.persons
        ensures var id := t.profiles[p].person;
                && (Recognized(u.persons[id], other, limits, now) <==> Recognized(t.persons[id], other, limits, now))
                && (Recognized(t.persons[id], other, limits, now) ==> u.persons[id] == t.persons[id])
      {
        assert u.persons.Keys == t.persons.Keys;
      }
      var (before, after) := (Entries(t, limits, other, now), Entries(u, limits, other, now));
      EntriesAre(t, limits, other, now);
      EntriesAre(u, limits, other, now);
      assert forall p :: p in after <==> p in before;
      assert forall p | p in before :: after[p] == before[p];
      assert after == before;
    }
  }

  /** Nor does it change what the bulk projection lists. */
  lemma SweepKeepsProjection(
    t: Tables, limits: Limits, owner: OwnerId, chosen: set<PersonId>, at: real, other: OwnerId, sessionRecall: bool, now: real)
    requires at <= now
    ensures ProvisionalRuntimeRealms(After(t, Sweep(t, limits, owner, chosen, at)), limits, other, sessionRecall, now) ==
            ProvisionalRuntimeRealms(t, limits, other, sessionRecall, now)
  {
    var u := After(t, Sweep(t, limits, owner, chosen, at));
    if u != t {
      forall id ensures id in ProvisionalRuntimeRealms(u, limits, other, sessionRecall, now)
                        <==> id in ProvisionalRuntimeRealms(t, limits, other, sessionRecall, now)
      {
        assert u.persons.Keys == t.persons.Keys;
        if id in t.persons && id in chosen { assert !FreshAt(t.persons[id], limits, now); }
      }
    }
  }
}
