/** Private memory is live only for the right person, and stays off until someone explicitly restores it. */
module PeopleMemory {
  import opened Core
  import opened People
  import opened PeopleRuns

  /** In every reachable state a live realm belongs to an undeleted, active, established person of its owner, and
      an inactive person's provisional permissions are all off. */
  lemma MemoryOnlyForLivePersons(limits: Limits, events: seq<Event>, id: PersonId)
    requires id in Run(EMPTY, limits, events).realms
    ensures var t := Run(EMPTY, limits, events);
            && id in t.persons
            && t.realms[id].owner == t.persons[id].owner
            && (t.realms[id].status == RealmActive ==>
                  !t.persons[id].deleted && t.persons[id].status == Active && t.persons[id].maturity == Established)
            && (t.persons[id].status == Inactive ==> t.realms[id].provisional == NO_POLICY)
  {
    RunKeepsSound(EMPTY, limits, events);
    assert RealmSound(Run(EMPTY, limits, events), id);
  }

  /** Off, and with no way back through promotion: blocked, or past the only promotion there is. */
  ghost predicate Silenced(t: Tables, id: PersonId) {
    if id in t.realms then
      && t.realms[id].status != RealmActive
      && (t.realms[id].preparationBlocked || (id in t.persons && t.persons[id].maturity == Established))
    else id in t.receipts && t.receipts[id].completed
  }

  lemma EvidenceKeepsSilence(
    t: Tables, limits: Limits, o: OwnerId, discovery: Option<DiscoveryPolicy>, promotion: Option<PromotionPolicy>,
    request: EvidenceRequest, clock: Clock, id: PersonId)
    requires Sound(t) && Silenced(t, id)
    ensures Silenced(After(t, RecordEvidence(t, limits, o, discovery, promotion, request, clock)), id)
  {
    EvidenceEffect(t, limits, o, discovery, promotion, request, clock);
  }

  lemma DeletionKeepsSilence(t: Tables, o: OwnerId, id: PersonId, expected: int, complete: bool, silent: PersonId)
    requires Sound(t) && Silenced(t, silent)
    ensures Silenced(After(t, PermanentDelete(t, o, id, expected, complete)), silent)
  {
    if id in t.receipts {
      assert ReceiptSound(t, id);
    }
  }

  lemma CreationKeepsSilence(
    t: Tables, limits: Limits, o: OwnerId, created: PersonCreate, realm: RealmId, clock: Clock, id: PersonId)
    requires Sound(t) && Silenced(t, id)
    ensures Silenced(After(t, Create(t, limits, o, created, realm, clock)), id)
  {
  }

  lemma DiscoveryKeepsSilence(
    t: Tables, limits: Limits, o: OwnerId, policy: Option<DiscoveryPolicy>, request: DiscoverRequest, found: PersonId,
    realm: RealmId, profile: ProfileId, clock: Clock, id: PersonId)
    requires Sound(t) && Silenced(t, id)
    ensures Silenced(After(t, DiscoverCandidate(t, limits, o, policy, request, found, realm, profile, clock)), id)
  {
    DiscoverEffect(t, limits, o, policy, request, found, realm, profile, clock);
  }

  lemma PersonsKeepSilence(t: Tables, limits: Limits, o: OwnerId, c: PersonCommand, clock: Clock, id: PersonId)
    requires Sound(t) && Silenced(t, id)
    ensures Silenced(StepPersons(t, limits, o, c, clock), id)
  {
    match c
    case CmdCreate(created, realm) => CreationKeepsSilence(t, limits, o, created, realm, clock, id);
    case CmdDelete(person, expected, complete) => DeletionKeepsSilence(t, o, person, expected, complete, id);
    case _ =>
  }

  lemma MemoryKeepsSilence(t: Tables, limits: Limits, o: OwnerId, c: MemoryCommand, clock: Clock, id: PersonId)
    requires Sound(t) && Silenced(t, id)
    requires !(c.CmdRestoreMemory? && c.id == id)
    ensures Silenced(StepMemory(t, limits, o, c, clock), id)
  {
    if id in t.receipts { assert ReceiptSound(t, id); }
    if id in t.realms { assert RealmSound(t, id); }
  }

  lemma VoiceKeepsSilence(t: Tables, limits: Limits, o: OwnerId, c: VoiceCommand, clock: Clock, id: PersonId)
    requires Sound(t) && Silenced(t, id)
    ensures Silenced(StepVoice(t, limits, o, c, clock), id)
  {
    match c
    case CmdDiscover(policy, request, found, realm, profile) =>
      DiscoveryKeepsSilence(t, limits, o, policy, request, found, realm, profile, clock, id);
    case CmdEvidence(discovery, promotion, request) => EvidenceKeepsSilence(t, limits, o, discovery, promotion, request, clock, id);
    case _ =>
  }

  predicate RestoresMemoryOf(c: Command, id: PersonId) {
    c.Memory? && c.memory.CmdRestoreMemory? && c.memory.id == id
  }

  /** Only restore_memory for this very person turns a silenced realm back on. */
  lemma StepKeepsSilence(t: Tables, limits: Limits, e: Event, id: PersonId)
    requires Sound(t) && Silenced(t, id)
    requires !RestoresMemoryOf(e.command, id)
    ensures Silenced(Step(t, limits, e), id)
  {
    match e.command
    case Persons(c) => PersonsKeepSilence(t, limits, e.owner, c, e.clock, id);
    case Memory(c) => MemoryKeepsSilence(t, limits, e.owner, c, e.clock, id);
    case Voice(c) => VoiceKeepsSilence(t, limits, e.owner, c, e.clock, id);
    case Owners(c) =>
  }

  /** Once silenced, no run without an explicit restore_memory for the person makes the realm live again. */
  lemma {:induction false} SilenceLasts(t: Tables, limits: Limits, events: seq<Event>, id: PersonId)
    requires Sound(t) && Silenced(t, id)
    requires forall e | e in events :: !RestoresMemoryOf(e.command, id)
    ensures var u := Run(t, limits, events);
            id in u.realms ==> u.realms[id].status != RealmActive
    decreases |events|
  {
    if events != [] {
      assert events[0] in events;
      StepKeepsSound(t, limits, events[0]);
      StepKeepsSilence(t, limits, events[0], id);
      SilenceLasts(Step(t, limits, events[0]), limits, events[1..], id);
    }
  }

  /** Suspension, deactivation, archive, restore and owner archive all silence the realm they touch. */
  lemma WhatSilences(t: Tables, limits: Limits, o: OwnerId, id: PersonId, expected: int, update: PersonUpdate, clock: Clock)
    requires Sound(t) && id in t.realms
    ensures SuspendMemory(t, o, id, expected).Done? ==> Silenced(After(t, SuspendMemory(t, o, id, expected)), id)
    ensures update.status == Inactive && Update(t, limits, o, id, update, clock).Done? ==>
              Silenced(After(t, Update(t, limits, o, id, update, clock)), id)
    ensures Archive(t, o, id, expected).Done? ==> Silenced(After(t, Archive(t, o, id, expected)), id)
    ensures Restore(t, o, id, expected).Done? ==> Silenced(After(t, Restore(t, o, id, expected)), id)
    ensures t.realms[id].status == RealmActive && ArchiveOwner(t, t.realms[id].owner).Done? ==>
              t.owners[t.realms[id].owner].status == OwnerActive ==> Silenced(After(t, ArchiveOwner(t, t.realms[id].owner)), id)
  {
    assert RealmSound(t, id);
  }
}
