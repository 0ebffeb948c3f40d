/** Runs of people commands under a nondecreasing clock, and the row invariant every command keeps. */
module PeopleRuns {
  import opened Core
  import opened People

  datatype PersonCommand =
    | CmdCreate(created: PersonCreate, realm: RealmId)
    | CmdUpdate(id: PersonId, update: PersonUpdate)
    | CmdRetire(id: PersonId, expected: int)
    | CmdArchive(id: PersonId, expected: int)
    | CmdRestore(id: PersonId, expected: int)
    | CmdDelete(id: PersonId, expected: int, complete: bool)

  datatype MemoryCommand =
    | CmdDefaults(at: Option<int>, defaults: MemoryDefaults)
    | CmdPolicy(id: PersonId, at: Option<int>, policy: Option<Policy>, session: Session)
    | CmdRealm(id: PersonId, create: bool, realm: RealmId)
    | CmdSuspend(id: PersonId, expected: int)
    | CmdRestoreMemory(id: PersonId, expected: int)

  datatype VoiceCommand =
    | CmdSweep(chosen: set<PersonId>)
    | CmdDiscover(discovery: Option<DiscoveryPolicy>, found: DiscoverRequest, id: PersonId, realm: RealmId, profile: ProfileId)
    | CmdEvidence(discovery: Option<DiscoveryPolicy>, promotion: Option<PromotionPolicy>, evidence: EvidenceRequest)
    | CmdDeleteProfile(profile: ProfileId)
    | CmdWriteProfile(id: PersonId, profile: ProfileId, model: Model, template: Tag)

  datatype OwnerCommand = CmdCreateOwner | CmdUpdateOwner(settings: MemoryDefaults) | CmdArchiveOwner

  datatype Command =
    | Persons(person: PersonCommand)
    | Memory(memory: MemoryCommand)
    | Voice(voice: VoiceCommand)
    | Owners(owning: OwnerCommand)

  function StepPersons(t: Tables, limits: Limits, o: OwnerId, c: PersonCommand, clock: Clock): Tables {
    match c
    case CmdCreate(created, realm) => After(t, Create(t, limits, o, created, realm, clock))
    case CmdUpdate(id, update) => After(t, Update(t, limits, o, id, update, clock))
    case CmdRetire(id, expected) => After(t, RetireCandidate(t, o, id, expected))
    case CmdArchive(id, expected) => After(t, Archive(t, o, id, expected))
    case CmdRestore(id, expected) => After(t, Restore(t, o, id, expected))
    case CmdDelete(id, expected, complete) => After(t, PermanentDelete(t, o, id, expected, complete))
  }

  function StepMemory(t: Tables, limits: Limits, o: OwnerId, c: MemoryCommand, clock: Clock): Tables {
    match c
    case CmdDefaults(at, defaults) => After(t, SetMemoryDefaults(t, o, at, defaults))
    case CmdPolicy(id, at, policy, session) => After(t, ProvisionalMemoryPolicy(t, limits, o, id, at, policy, session, clock))
    case CmdRealm(id, create, realm) => After(t, MemoryRealm(t, o, id, create, realm))
    case CmdSuspend(id, expected) => After(t, SuspendMemory(t, o, id, expected))
    case CmdRestoreMemory(id, expected) => After(t, RestoreMemory(t, o, id, expected))
  }

  ghost function StepVoice(t: Tables, limits: Limits, o: OwnerId, c: VoiceCommand, clock: Clock): Tables {
    match c
    case CmdSweep(chosen) => After(t, Sweep(t, limits, o, chosen, clock(0)))
    case CmdDiscover(policy, request, id, realm, profile) =>
      After(t, DiscoverCandidate(t, limits, o, policy, request, id, realm, profile, clock))
    case CmdEvidence(discovery, promotion, request) => After(t, RecordEvidence(t, limits, o, discovery, promotion, request, clock))
    case CmdDeleteProfile(profile) => After(t, DeleteProfile(t, o, profile))
    case CmdWriteProfile(id, profile, model, template) => After(t, WriteProfile(t, o, id, profile, model, template))
  }

  ghost function StepOwners(t: Tables, o: OwnerId, c: OwnerCommand): Tables {
    match c
    case CmdCreateOwner => After(t, CreateOwner(t, o))
    case CmdUpdateOwner(settings) => After(t, UpdateOwner(t, o, settings))
    case CmdArchiveOwner => After(t, ArchiveOwner(t, o))
  }

  ghost function Step(t: Tables, limits: Limits, e: Event): Tables {
    match e.command
    case Persons(c) => StepPersons(t, limits, e.owner, c, e.clock)
    case Memory(c) => StepMemory(t, limits, e.owner, c, e.clock)
    case Voice(c) => StepVoice(t, limits, e.owner, c, e.clock)
    case Owners(c) => StepOwners(t, e.owner, c)
  }

  /** One command of an owner, the clock readings it makes, and an instant by which it is over. */
  datatype Event = Event(owner: OwnerId, command: Command, clock: Clock, end: real)

  ghost predicate WellTimed(events: seq<Event>, from: real) {
    events != [] ==>
      && from <= events[0].clock(0)
      && Nondecreasing(events[0].clock)
      && ReadsUpTo(events[0].clock, events[0].end)
      && WellTimed(events[1..], events[0].end)
  }

  ghost function Run(t: Tables, limits: Limits, events: seq<Event>): Tables
    decreases |events|
  {
    if events == [] then t else Run(Step(t, limits, events[0]), limits, events[1..])
  }

  function EndOf(events: seq<Event>, from: real): real {
    if events == [] then from else EndOf(events[1..], events[0].end)
  }

  // ----- The row invariant ----------------------------------------------------

  ghost predicate RealmSound(t: Tables, id: PersonId)
    requires id in t.realms
  {
    && id in t.persons
    && t.realms[id].owner == t.persons[id].owner
    && (t.realms[id].status == RealmActive ==>
          !t.persons[id].deleted && t.persons[id].status == Active && t.persons[id].maturity == Established)
    && (t.persons[id].status == Inactive ==> t.realms[id].provisional == NO_POLICY)
    && (t.realms[id].status == RealmDeleting ==> Pending(t, id))
  }

  ghost predicate PersonSound(row: Person) {
    && (row.deleted ==> row.status == Inactive)
    && (row.maturity == Candidate ==> row.activityAt.Some?)
  }

  ghost predicate ReceiptSound(t: Tables, id: PersonId)
    requires id in t.receipts
  {
    if t.receipts[id].completed then id !in t.persons && id !in t.realms
    else && id in t.persons && t.persons[id].deleted && t.persons[id].owner == t.receipts[id].owner
         && id in t.realms && t.realms[id].status == RealmDeleting && t.realms[id].id == t.receipts[id].realm
  }

  /** An erasure was requested and not yet completed. */
  predicate Pending(t: Tables, id: PersonId) {
    id in t.receipts && !t.receipts[id].completed
  }

  ghost predicate Sound(t: Tables) {
    && (forall id | id in t.realms :: RealmSound(t, id))
    && (forall id | id in t.persons :: PersonSound(t.persons[id]))
    && (forall id | id in t.receipts :: ReceiptSound(t, id))
  }

  /** Sound speaks of the person, realm and receipt rows only. */
  lemma SameRowsSound(t: Tables, u: Tables)
    requires Sound(t) && t.persons == u.persons && t.realms == u.realms && t.receipts == u.receipts
    ensures Sound(u)
  {
    forall id | id in u.realms ensures RealmSound(u, id) { assert RealmSound(t, id); }
    forall id | id in u.receipts ensures ReceiptSound(u, id) { assert ReceiptSound(t, id); }
  }

  lemma InsertKeepsSound(t: Tables, owner: OwnerId, request: PersonCreate, realm: RealmId, now: real)
    requires Sound(t) && owner in t.owners
    requires request.id !in t.persons && request.id !in t.receipts && request.id !in t.realms
    ensures Sound(InsertPerson(t, owner, request, realm, now))
  {
  }

  lemma DiscoverKeepsSound(
    t: Tables, limits: Limits, o: OwnerId, policy: Option<DiscoveryPolicy>, request: DiscoverRequest,
    id: PersonId, realm: RealmId, profile: ProfileId, clock: Clock)
    requires Sound(t)
    ensures Sound(After(t, DiscoverCandidate(t, limits, o, policy, request, id, realm, profile, clock)))
  {
    var u := After(t, DiscoverCandidate(t, limits, o, policy, request, id, realm, profile, clock));
    if id !in t.persons && id in u.persons {
      InsertKeepsSound(t, o, DiscoveredPerson(id), realm, clock(4));
      SameRowsSound(InsertPerson(t, o, DiscoveredPerson(id), realm, clock(4)), u);
    } else {
      SameRowsSound(t, u);
    }
  }

  lemma WithEvidenceKeepsSound(t: Tables, o: OwnerId, promotion: Option<PromotionPolicy>, request: EvidenceRequest, clock: Clock)
    requires Sound(t) && request.observation.person.Some? && request.observation.person.value in t.persons
    requires request.observation.profile.Some? && o in t.owners
    requires SpeakerRefusal(t, o, request.observation.person.value).None?
    ensures Sound(WithEvidence(t, o, promotion, request, clock))
  {
    var u := WithEvidence(t, o, promotion, request, clock);
    forall other | other in u.realms ensures RealmSound(u, other) { assert RealmSound(t, other); }
    forall other | other in u.receipts ensures ReceiptSound(u, other) { assert ReceiptSound(t, other); }
  }

  lemma EvidenceKeepsSound(
    t: Tables, limits: Limits, o: OwnerId, discovery: Option<DiscoveryPolicy>, promotion: Option<PromotionPolicy>,
    request: EvidenceRequest, clock: Clock)
    requires Sound(t)
    ensures Sound(After(t, RecordEvidence(t, limits, o, discovery, promotion, request, clock)))
  {
    EvidenceEffect(t, limits, o, discovery, promotion, request, clock);
    if After(t, RecordEvidence(t, limits, o, discovery, promotion, request, clock)) != t {
      WithEvidenceKeepsSound(t, o, promotion, request, clock);
    }
  }

  lemma RetireKeepsSound(t: Tables, o: OwnerId, id: PersonId, expected: int)
    requires Sound(t)
    ensures Sound(After(t, RetireCandidate(t, o, id, expected)))
  {
  }

  lemma ArchiveKeepsSound(t: Tables, o: OwnerId, id: PersonId, expected: int)
    requires Sound(t)
    ensures Sound(After(t, Archive(t, o, id, expected)))
  {
  }

  lemma RestoreKeepsSound(t: Tables, o: OwnerId, id: PersonId, expected: int)
    requires Sound(t)
    ensures Sound(After(t, Restore(t, o, id, expected)))
  {
  }

  lemma DeleteKeepsSound(t: Tables, o: OwnerId, id: PersonId, expected: int, complete: bool)
    requires Sound(t)
    ensures Sound(After(t, PermanentDelete(t, o, id, expected, complete)))
  {
    if id in t.receipts {
      assert ReceiptSound(t, id);
    }
  }

  lemma UpdateKeepsSound(t: Tables, limits: Limits, o: OwnerId, id: PersonId, request: PersonUpdate, clock: Clock)
    requires Sound(t)
    ensures Sound(After(t, Update(t, limits, o, id, request, clock)))
  {
  }

  lemma SuspendKeepsSound(t: Tables, o: OwnerId, id: PersonId, expected: int)
    requires Sound(t)
    ensures Sound(After(t, SuspendMemory(t, o, id, expected)))
  {
  }

  lemma RestoreMemoryKeepsSound(t: Tables, o: OwnerId, id: PersonId, expected: int)
    requires Sound(t)
    ensures Sound(After(t, RestoreMemory(t, o, id, expected)))
  {
  }

  lemma RealmKeepsSound(t: Tables, o: OwnerId, id: PersonId, create: bool, realm: RealmId)
    requires Sound(t)
    ensures Sound(After(t, MemoryRealm(t, o, id, create, realm)))
  {
  }

  lemma PolicyKeepsSound(
    t: Tables, limits: Limits, o: OwnerId, id: PersonId, at: Option<int>, policy: Option<Policy>, session: Session, clock: Clock)
    requires Sound(t)
    ensures Sound(After(t, ProvisionalMemoryPolicy(t, limits, o, id, at, policy, session, clock)))
  {
  }

  lemma OwnerKeepsSound(t: Tables, o: OwnerId)
    requires Sound(t)
    ensures Sound(After(t, ArchiveOwner(t, o)))
    ensures Sound(After(t, CreateOwner(t, o)))
  {
  }

  lemma OwnersKeepSound(t: Tables, o: OwnerId, c: OwnerCommand)
    requires Sound(t)
    ensures Sound(StepOwners(t, o, c))
  {
    match c
    case CmdUpdateOwner(settings) => SameRowsSound(t, StepOwners(t, o, c));
    case _ => OwnerKeepsSound(t, o);
  }

  lemma SweepKeepsSound(t: Tables, limits: Limits, o: OwnerId, chosen: set<PersonId>, now: real)
    requires Sound(t)
    ensures Sound(After(t, Sweep(t, limits, o, chosen, now)))
  {
  }

  lemma PersonsKeepSound(t: Tables, limits: Limits, o: OwnerId, c: PersonCommand, clock: Clock)
    requires Sound(t)
    ensures Sound(StepPersons(t, limits, o, c, clock))
  {
    match c
    case CmdCreate(created, realm) =>
      if StepPersons(t, limits, o, c, clock) != t { InsertKeepsSound(t, o, created, realm, clock(1)); }
    case CmdUpdate(id, update) => UpdateKeepsSound(t, limits, o, id, update, clock);
    case CmdRetire(id, expected) => RetireKeepsSound(t, o, id, expected);
    case CmdArchive(id, expected) => ArchiveKeepsSound(t, o, id, expected);
    case CmdRestore(id, expected) => RestoreKeepsSound(t, o, id, expected);
    case CmdDelete(id, expected, complete) => DeleteKeepsSound(t, o, id, expected, complete);
  }

  lemma MemoryKeepsSound(t: Tables, limits: Limits, o: OwnerId, c: MemoryCommand, clock: Clock)
    requires Sound(t)
    ensures Sound(StepMemory(t, limits, o, c, clock))
  {
    match c
    case CmdDefaults(at, defaults) => SameRowsSound(t, StepMemory(t, limits, o, c, clock));
    case CmdPolicy(id, at, policy, session) => PolicyKeepsSound(t, limits, o, id, at, policy, session, clock);
    case CmdRealm(id, create, realm) => RealmKeepsSound(t, o, id, create, realm);
    case CmdSuspend(id, expected) => SuspendKeepsSound(t, o, id, expected);
    case CmdRestoreMemory(id, expected) => RestoreMemoryKeepsSound(t, o, id, expected);
  }

  lemma VoiceKeepsSound(t: Tables, limits: Limits, o: OwnerId, c: VoiceCommand, clock: Clock)
    requires Sound(t)
    ensures Sound(StepVoice(t, limits, o, c, clock))
  {
    match c
    case CmdSweep(chosen) => SweepKeepsSound(t, limits, o, chosen, clock(0));
    case CmdDiscover(policy, request, id, realm, profile) =>
      DiscoverKeepsSound(t, limits, o, policy, request, id, realm, profile, clock);
    case CmdEvidence(discovery, promotion, request) => EvidenceKeepsSound(t, limits, o, discovery, promotion, request, clock);
    case CmdDeleteProfile(profile) => SameRowsSound(t, StepVoice(t, limits, o, c, clock));
    case CmdWriteProfile(id, profile, model, template) => SameRowsSound(t, StepVoice(t, limits, o, c, clock));
  }

  /** Every command keeps the row invariant. */
  lemma StepKeepsSound(t: Tables, limits: Limits, e: Event)
    requires Sound(t)
    ensures Sound(Step(t, limits, e))
  {
    match e.command
    case Persons(c) => PersonsKeepSound(t, limits, e.owner, c, e.clock);
    case Memory(c) => MemoryKeepsSound(t, limits, e.owner, c, e.clock);
    case Voice(c) => VoiceKeepsSound(t, limits, e.owner, c, e.clock);
    case Owners(c) => OwnersKeepSound(t, e.owner, c);
  }

  lemma {:induction false} RunKeepsSound(t: Tables, limits: Limits, events: seq<Event>)
    requires Sound(t)
    ensures Sound(Run(t, limits, events))
    decreases |events|
  {
    if events != [] {
      StepKeepsSound(t, limits, events[0]);
      RunKeepsSound(Step(t, limits, events[0]), limits, events[1..]);
    }
  }
}
