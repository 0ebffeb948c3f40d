/** The candidate pool never exceeds its cap. */
module PeoplePool {
  import opened Core
  import opened People
  import opened PeopleRuns

  ghost predicate Capped(t: Tables, limits: Limits, now: real) {
    forall owner: OwnerId :: |Pool(t, owner, limits, now)| <= limits.maxCandidates
  }

  /** Waiting only empties the pool. */
  lemma PoolAntitone(t: Tables, owner: OwnerId, limits: Limits, a: real, b: real)
    requires a <= b
    ensures Pool(t, owner, limits, b) <= Pool(t, owner, limits, a)
  {
    forall id | id in Pool(t, owner, limits, b) ensures id in Pool(t, owner, limits, a) {
      assert InPool(t.persons[id], owner, limits, a);
    }
  }

  lemma CapLasts(t: Tables, limits: Limits, a: real, b: real)
    requires a <= b && Capped(t, limits, a)
    ensures Capped(t, limits, b)
  {
    forall owner: OwnerId ensures |Pool(t, owner, limits, b)| <= limits.maxCandidates {
      PoolAntitone(t, owner, limits, a, b);
      SubsetSize(Pool(t, owner, limits, b), Pool(t, owner, limits, a));
    }
  }

  /** Every member of u's pool at end, apart from the one excused, was a member of t's pool at now. */
  ghost predicate WereMembers(t: Tables, u: Tables, limits: Limits, now: real, end: real, excused: Option<PersonId>) {
    forall id | id in u.persons && Some(id) != excused && InPool(u.persons[id], u.persons[id].owner, limits, end) ::
      id in t.persons && InPool(t.persons[id], u.persons[id].owner, limits, now)
  }

  lemma MembersWithin(t: Tables, u: Tables, limits: Limits, now: real, end: real, excused: Option<PersonId>, owner: OwnerId)
    requires WereMembers(t, u, limits, now, end, excused)
    ensures Pool(u, owner, limits, end) <= Pool(t, owner, limits, now) + if excused.Some? then {excused.value} else {}
    ensures excused.Some? && !(excused.value in u.persons && u.persons[excused.value].owner == owner) ==>
              Pool(u, owner, limits, end) <= Pool(t, owner, limits, now)
  {
    forall id | id in Pool(u, owner, limits, end) && Some(id) != excused ensures id in Pool(t, owner, limits, now) {
      assert InPool(u.persons[id], u.persons[id].owner, limits, end);
    }
    forall id | id in Pool(u, owner, limits, end) ensures id in u.persons && u.persons[id].owner == owner {
      assert InPool(u.persons[id], owner, limits, end);
    }
  }

  /** The pool after: no member that was not one at the earlier instant. */
  lemma NoNewMembers(t: Tables, u: Tables, limits: Limits, now: real, end: real)
    requires Capped(t, limits, now) && WereMembers(t, u, limits, now, end, None)
    ensures Capped(u, limits, end)
  {
    forall owner: OwnerId ensures |Pool(u, owner, limits, end)| <= limits.maxCandidates {
      MembersWithin(t, u, limits, now, end, None, owner);
      SubsetSize(Pool(u, owner, limits, end), Pool(t, owner, limits, now));
    }
  }

  /** One member joins the pool of an owner that was found not full. */
  lemma OneNewMember(t: Tables, u: Tables, limits: Limits, joined: OwnerId, id: PersonId, now: real, end: real)
    requires Capped(t, limits, now) && !PoolFull(t, joined, limits, now)
    requires WereMembers(t, u, limits, now, end, Some(id))
    requires id in u.persons && u.persons[id].owner == joined
    ensures Capped(u, limits, end)
  {
    forall owner: OwnerId ensures |Pool(u, owner, limits, end)| <= limits.maxCandidates {
      MembersWithin(t, u, limits, now, end, Some(id), owner);
      if owner == joined {
        SubsetSizePlusOne(Pool(u, owner, limits, end), Pool(t, owner, limits, now), id);
      } else {
        SubsetSize(Pool(u, owner, limits, end), Pool(t, owner, limits, now));
      }
    }
  }

  /** Reactivation is the one update that adds a member, and it is the one that is checked. */
  lemma UpdateKeepsCap(t: Tables, limits: Limits, o: OwnerId, id: PersonId, update: PersonUpdate, clock: Clock, end: real)
    requires Nondecreasing(clock) && ReadsUpTo(clock, end) && Capped(t, limits, clock(0))
    ensures Capped(After(t, Update(t, limits, o, id, update, clock)), limits, end)
  {
    var u := After(t, Update(t, limits, o, id, update, clock));
    CapLasts(t, limits, clock(0), clock(1));
    CapLasts(t, limits, clock(0), end);
    if u != t {
      var row := t.persons[id];
      assert forall other | other in u.persons && other != id :: u.persons[other] == t.persons[other];
      if Reactivates(row, update) && FreshAt(row, limits, clock(0)) {
        OneNewMember(t, u, limits, o, id, clock(1), end);
      } else {
        NoNewMembers(t, u, limits, end, end);
      }
    }
  }

  lemma InsertKeepsCap(
    t: Tables, u: Tables, limits: Limits, o: OwnerId, request: PersonCreate, realm: RealmId, checked: real, now: real, end: real)
    requires o in t.owners && request.id !in t.persons
    requires u.persons == InsertPerson(t, o, request, realm, now).persons
    requires checked <= end && Capped(t, limits, checked)
    requires request.maturity == Candidate ==> !PoolFull(t, o, limits, checked)
    ensures Capped(u, limits, end)
  {
    if request.maturity == Candidate {
      OneNewMember(t, u, limits, o, request.id, checked, end);
    } else {
      NoNewMembers(t, u, limits, checked, end);
    }
  }

  lemma PersonsKeepCap(t: Tables, limits: Limits, o: OwnerId, c: PersonCommand, clock: Clock, end: real)
    requires Nondecreasing(clock) && ReadsUpTo(clock, end) && Capped(t, limits, clock(0))
    ensures Capped(StepPersons(t, limits, o, c, clock), limits, end)
  {
    var u := StepPersons(t, limits, o, c, clock);
    CapLasts(t, limits, clock(0), end);
    match c
    case CmdCreate(created, realm) =>
      if u != t { InsertKeepsCap(t, u, limits, o, created, realm, clock(0), clock(1), end); }
    case CmdUpdate(id, update) => UpdateKeepsCap(t, limits, o, id, update, clock, end);
    case _ => NoNewMembers(t, u, limits, end, end);
  }

  lemma MemoryKeepsCap(t: Tables, limits: Limits, o: OwnerId, c: MemoryCommand, clock: Clock, end: real)
    requires Capped(t, limits, end)
    ensures Capped(StepMemory(t, limits, o, c, clock), limits, end)
  {
    NoNewMembers(t, StepMemory(t, limits, o, c, clock), limits, end, end);
  }

  lemma DiscoveryKeepsCap(
    t: Tables, limits: Limits, o: OwnerId, policy: Option<DiscoveryPolicy>, request: DiscoverRequest, id: PersonId,
    realm: RealmId, profile: ProfileId, clock: Clock, end: real)
    requires Nondecreasing(clock) && ReadsUpTo(clock, end) && Capped(t, limits, clock(0))
    ensures Capped(After(t, DiscoverCandidate(t, limits, o, policy, request, id, realm, profile, clock)), limits, end)
  {
    var u := After(t, DiscoverCandidate(t, limits, o, policy, request, id, realm, profile, clock));
    CapLasts(t, limits, clock(0), end);
    DiscoverEffect(t, limits, o, policy, request, id, realm, profile, clock);
    DiscoveryHadRoom(t, limits, o, policy, request, id, realm, profile, clock);
    if u != t {
      CapLasts(t, limits, clock(0), clock(3));
      InsertKeepsCap(t, u, limits, o, DiscoveredPerson(id), realm, clock(3), clock(4), end);
    }
  }

  /** Accepted evidence refreshes only a candidate the snapshot still showed, hence one the pool already counted. */
  lemma EvidenceKeepsCap(
    t: Tables, limits: Limits, o: OwnerId, discovery: Option<DiscoveryPolicy>, promotion: Option<PromotionPolicy>,
    request: EvidenceRequest, clock: Clock, end: real)
    requires Nondecreasing(clock) && ReadsUpTo(clock, end) && Capped(t, limits, clock(0))
    ensures Capped(After(t, RecordEvidence(t, limits, o, discovery, promotion, request, clock)), limits, end)
  {
    var u := After(t, RecordEvidence(t, limits, o, discovery, promotion, request, clock));
    CapLasts(t, limits, clock(0), clock(2));
    CapLasts(t, limits, clock(0), end);
    if u != t {
      var id := request.observation.person.value;
      EvidenceEffect(t, limits, o, discovery, promotion, request, clock);
      assert forall other | other in u.persons && other != id :: u.persons[other] == t.persons[other];
      NoNewMembers(t, u, limits, clock(2), end);
    }
  }

  lemma VoiceKeepsCap(t: Tables, limits: Limits, o: OwnerId, c: VoiceCommand, clock: Clock, end: real)
    requires Nondecreasing(clock) && ReadsUpTo(clock, end) && Capped(t, limits, clock(0))
    ensures Capped(StepVoice(t, limits, o, c, clock), limits, end)
  {
    var u := StepVoice(t, limits, o, c, clock);
    CapLasts(t, limits, clock(0), end);
    match c
    case CmdDiscover(policy, request, id, realm, profile) =>
      DiscoveryKeepsCap(t, limits, o, policy, request, id, realm, profile, clock, end);
    case CmdEvidence(discovery, promotion, request) => EvidenceKeepsCap(t, limits, o, discovery, promotion, request, clock, end);
    case _ => NoNewMembers(t, u, limits, end, end);
  }

  lemma StepKeepsCap(t: Tables, limits: Limits, e: Event)
    requires Nondecreasing(e.clock) && ReadsUpTo(e.clock, e.end) && Capped(t, limits, e.clock(0))
    ensures Capped(Step(t, limits, e), limits, e.end)
  {
    CapLasts(t, limits, e.clock(0), e.end);
    match e.command
    case Persons(c) => PersonsKeepCap(t, limits, e.owner, c, e.clock, e.end);
    case Memory(c) => MemoryKeepsCap(t, limits, e.owner, c, e.clock, e.end);
    case Voice(c) => VoiceKeepsCap(t, limits, e.owner, c, e.clock, e.end);
    case Owners(c) => NoNewMembers(t, Step(t, limits, e), limits, e.end, e.end);
  }

  lemma {:induction false} RunKeepsCap(t: Tables, limits: Limits, events: seq<Event>, from: real)
    requires WellTimed(events, from) && Capped(t, limits, from)
    ensures Capped(Run(t, limits, events), limits, EndOf(events, from))
    decreases |events|
  {
    if events != [] {
      CapLasts(t, limits, from, events[0].clock(0));
      StepKeepsCap(t, limits, events[0]);
      RunKeepsCap(Step(t, limits, events[0]), limits, events[1..], events[0].end);
    }
  }

  /** For every nondecreasing clock and every run, at every instant from its end on, each owner's pool is within the cap. */
  lemma PoolNeverExceedsCap(limits: Limits, events: seq<Event>, from: real, owner: OwnerId, now: real)
    requires WellTimed(events, from) && EndOf(events, from) <= now
    ensures |Pool(Run(EMPTY, limits, events), owner, limits, now)| <= limits.maxCandidates
  {
    assert Capped(EMPTY, limits, from);
    RunKeepsCap(EMPTY, limits, events, from);
    CapLasts(Run(EMPTY, limits, events), limits, EndOf(events, from), now);
  }

  // ----- An expired candidate stays out ---------------------------------------

  /** Out of the pool and the snapshot at this instant: an expired candidate, or erased for good. */
  ghost predicate Lapsed(t: Tables, limits: Limits, id: PersonId, now: real) {
    if id in t.persons then t.persons[id].maturity == Candidate && !FreshAt(t.persons[id], limits, now)
    else id in t.receipts && t.receipts[id].completed
  }

  lemma PersonsKeepLapse(t: Tables, limits: Limits, o: OwnerId, c: PersonCommand, clock: Clock, id: PersonId, now: real)
    requires Sound(t) && Lapsed(t, limits, id, now)
    ensures Lapsed(StepPersons(t, limits, o, c, clock), limits, id, now)
  {
    if id in t.receipts { assert ReceiptSound(t, id); }
  }

  lemma DiscoveryKeepsLapse(
    t: Tables, limits: Limits, o: OwnerId, policy: Option<DiscoveryPolicy>, request: DiscoverRequest, found: PersonId,
    realm: RealmId, profile: ProfileId, clock: Clock, id: PersonId, now: real)
    requires Lapsed(t, limits, id, now)
    ensures Lapsed(After(t, DiscoverCandidate(t, limits, o, policy, request, found, realm, profile, clock)), limits, id, now)
  {
    DiscoverEffect(t, limits, o, policy, request, found, realm, profile, clock);
  }

  lemma EvidenceKeepsLapse(
    t: Tables, limits: Limits, o: OwnerId, discovery: Option<DiscoveryPolicy>, promotion: Option<PromotionPolicy>,
    request: EvidenceRequest, clock: Clock, id: PersonId, now: real)
    requires Nondecreasing(clock) && now <= clock(0) && Lapsed(t, limits, id, now)
    ensures Lapsed(After(t, RecordEvidence(t, limits, o, discovery, promotion, request, clock)), limits, id, now)
  {
    EvidenceEffect(t, limits, o, discovery, promotion, request, clock);
    assert now <= clock(2);
  }

  lemma VoiceKeepsLapse(t: Tables, limits: Limits, o: OwnerId, c: VoiceCommand, clock: Clock, id: PersonId, now: real)
    requires Nondecreasing(clock) && now <= clock(0) && Lapsed(t, limits, id, now)
    ensures Lapsed(StepVoice(t, limits, o, c, clock), limits, id, now)
  {
    match c
    case CmdDiscover(policy, request, found, realm, profile) =>
      DiscoveryKeepsLapse(t, limits, o, policy, request, found, realm, profile, clock, id, now);
    case CmdEvidence(discovery, promotion, request) =>
      EvidenceKeepsLapse(t, limits, o, discovery, promotion, request, clock, id, now);
    case _ =>
  }

  lemma MemoryKeepsLapse(t: Tables, limits: Limits, o: OwnerId, c: MemoryCommand, clock: Clock, id: PersonId, now: real)
    requires Lapsed(t, limits, id, now)
    ensures Lapsed(StepMemory(t, limits, o, c, clock), limits, id, now)
  {
  }

  lemma OwnersKeepLapse(t: Tables, limits: Limits, o: OwnerId, c: OwnerCommand, id: PersonId, now: real)
    requires Lapsed(t, limits, id, now)
    ensures Lapsed(StepOwners(t, o, c), limits, id, now)
  {
  }

  lemma StepKeepsLapse(t: Tables, limits: Limits, e: Event, id: PersonId, now: real)
    requires Sound(t) && Lapsed(t, limits, id, now) && Nondecreasing(e.clock) && now <= e.clock(0)
    ensures Lapsed(Step(t, limits, e), limits, id, now)
  {
    match e.command
    case Persons(c) => PersonsKeepLapse(t, limits, e.owner, c, e.clock, id, now);
    case Voice(c) => VoiceKeepsLapse(t, limits, e.owner, c, e.clock, id, now);
    case Memory(c) => MemoryKeepsLapse(t, limits, e.owner, c, e.clock, id, now);
    case Owners(c) => OwnersKeepLapse(t, limits, e.owner, c, id, now);
  }

  /** No evidence, update, restore or promotion in any later run brings an expired candidate back into a pool,
      establishes it, or shows it in a snapshot's rows. */
  lemma {:induction false} ExpiredStaysOut(t: Tables, limits: Limits, events: seq<Event>, from: real, id: PersonId, now: real)
    requires Sound(t) && Lapsed(t, limits, id, now)
    requires now <= from && WellTimed(events, from)
    ensures var u := Run(t, limits, events);
            id in u.persons ==>
              && u.persons[id].maturity == Candidate
              && forall owner: OwnerId, at: real :: now <= at ==>
                   !InPool(u.persons[id], owner, limits, at) && !Recognized(u.persons[id], owner, limits, at)
    decreases |events|
  {
    if events != [] {
      StepKeepsSound(t, limits, events[0]);
      StepKeepsLapse(t, limits, events[0], id, now);
      assert events[0].clock(0) <= events[0].end;
      ExpiredStaysOut(Step(t, limits, events[0]), limits, events[1..], events[0].end, id, now);
    }
  }
}
