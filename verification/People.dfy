/**
 * Owners, Persons, personal memory realms, deletion receipts and candidate voice evidence: the tables
 * and what each command does to them. A command either answers with new tables or refuses; a refusal
 * leaves the tables as they were.
 *
 * Identifiers, digests and opaque documents are compared for equality only, so each is an integer tag.
 */
module People {
  import opened Core

  type OwnerId = int
  type PersonId = int
  type RealmId = int
  type ProfileId = int
  type Tag = int

  datatype OwnerStatus = OwnerActive | OwnerArchived
  datatype Policy = Policy(saveAllowed: bool, sessionRecallAllowed: bool)
  datatype MemoryDefaults = MemoryDefaults(candidate: Policy, prepareOnPromotion: bool)
  datatype Owner = Owner(status: OwnerStatus, defaults: MemoryDefaults, revision: int)

  const NO_POLICY := Policy(false, false)
  const NO_DEFAULTS := MemoryDefaults(NO_POLICY, false)

  datatype Status = Active | Inactive
  datatype Maturity = Candidate | Established
  datatype Recognition = Recognizable | Retained
  datatype Person = Person(
    owner: OwnerId, displayName: Tag, isNamed: bool, profile: Tag, status: Status, deleted: bool,
    maturity: Maturity, recognition: Recognition, activityAt: Option<real>, identityMissing: bool, revision: int)

  datatype RealmStatus = RealmActive | RealmInactive | RealmDeleting
  datatype Realm = Realm(
    id: RealmId, owner: OwnerId, status: RealmStatus, provisional: Policy,
    fromDefaults: bool, preparationBlocked: bool)

  datatype Receipt = Receipt(owner: OwnerId, realm: RealmId, revision: int, completed: bool)

  /** Model id, weights hash and preprocessing version of an embedding. */
  datatype Model = Model(id: Tag, weights: Tag, preprocessing: Tag)
  datatype VoiceProfile = VoiceProfile(owner: OwnerId, person: PersonId, revision: int, model: Model, template: Tag)

  /** The captured interval [start, end) of one input stream. */
  datatype Source = Source(input: Tag, generation: int, start: int, end: int)
  datatype Observation = Observation(
    owner: OwnerId, person: Option<PersonId>, personRevision: int, session: Tag, turn: Tag, source: Source,
    profile: Option<ProfileId>, profileRevision: int, decision: Tag, scoring: Tag, model: Model,
    overlap: Option<int>, speechMs: nat, cosine: Option<real>, issuedAt: real, expiresAt: real)
  /** One accepted receipt; profile and profileRevision are the row's own columns. */
  datatype EvidenceRow = EvidenceRow(
    owner: OwnerId, person: PersonId, session: Tag, turn: Tag, audio: Tag,
    profile: ProfileId, profileRevision: int, digest: Tag, observation: Observation)

  datatype Tables = Tables(
    owners: map<OwnerId, Owner>,
    persons: map<PersonId, Person>,
    realms: map<PersonId, Realm>,
    receipts: map<PersonId, Receipt>,
    evidence: seq<EvidenceRow>,
    profiles: map<ProfileId, VoiceProfile>)

  const EMPTY := Tables(map[], map[], map[], map[], [], map[])

  /** Deployment constants. MAX_* and CANDIDATE_EVIDENCE_LIMIT are SDK values, so any number is allowed here. */
  datatype Limits = Limits(ttl: real, maxCandidates: nat, maxRecognition: nat, evidenceLimit: nat)

  datatype DiscoveryPolicy = DiscoveryPolicy(
    version: Tag, decision: Tag, model: Model, minSpeechMs: nat, maxExistingSimilarity: real)
  datatype PromotionPolicy = PromotionPolicy(
    decision: Tag, scoring: Tag, model: Model, minSimilarity: real,
    minTurns: nat, minTotalSpeechMs: nat, maxEvidenceAge: real)

  datatype Refusal =
    | OwnerNotActive | PersonNotFound | PermanentlyDeleted | UseExplicitRestore | PersonIdUnavailable
    | PersonDataDiffers | RetainedMemory | CandidatePoolFull | RevisionChanged | ActivityMissing | NotACandidate
    | IdentityMissing | NotArchived | ErasurePending | DeletionNotRequested | DeletionRevisionMismatch
    | ArchiveFirst | RealmNotFound | PersonRowMissing | InvalidSession | RevisionRequired | PersonInactive
    | CandidateMemoryScoped | RealmInactiveRefused | ProfileNotFound | ProfileTaken
    | DiscoveryUnavailable | DiscoveryMismatch | SourceUsed | CandidateRevoked | EvidenceExpired
    | RecognitionFull | SnapshotChanged | NotExcluded | AudioUsed | CaptureOverlaps | IdentityUsed
    | OwnerMismatch | NotAccepting | AlreadyEstablished | TemplateChanged | EvidenceFull | OwnerExists

  /** Done carries the committed tables and the answer. */
  datatype Outcome<+V> = Done(tables: Tables, view: V) | Refused(why: Refusal)

  function After<V>(t: Tables, outcome: Outcome<V>): Tables {
    if outcome.Done? then outcome.tables else t
  }

  function Answer<V>(outcome: Outcome<V>): Result<V, Refusal> {
    if outcome.Done? then Ok(outcome.view) else Err(outcome.why)
  }

  // ----- Shared row tests ---------------------------------------------------

  predicate OwnerIsActive(t: Tables, owner: OwnerId) {
    owner in t.owners && t.owners[owner].status == OwnerActive
  }

  /** Persons._person: the refusal it raises, or None. */
  function PersonRefusal(t: Tables, owner: OwnerId, id: PersonId, includeDeleted: bool): Option<Refusal> {
    if !OwnerIsActive(t, owner) then Some(OwnerNotActive)
    else if id !in t.persons || t.persons[id].owner != owner || (t.persons[id].deleted && !includeDeleted) then
      Some(PersonNotFound)
    else None
  }

  /** Voiceprints._person, which looks at the status instead of the deletion mark. */
  function SpeakerRefusal(t: Tables, owner: OwnerId, id: PersonId): Option<Refusal> {
    if !OwnerIsActive(t, owner) then Some(OwnerNotActive)
    else if id !in t.persons || t.persons[id].owner != owner then Some(PersonNotFound)
    else if t.persons[id].status != Active then Some(PersonInactive)
    else None
  }

  predicate HasRealm(t: Tables, owner: OwnerId, id: PersonId) {
    id in t.realms && t.realms[id].owner == owner
  }

  predicate FreshAt(person: Person, limits: Limits, now: real) {
    person.activityAt.Some? && person.activityAt.value > now - limits.ttl
  }

  /** A row the candidate pool counts at this instant. */
  predicate InPool(person: Person, owner: OwnerId, limits: Limits, now: real) {
    && person.owner == owner && person.maturity == Candidate && person.status == Active && !person.deleted
    && person.recognition == Recognizable && FreshAt(person, limits, now)
  }

  function Pool(t: Tables, owner: OwnerId, limits: Limits, now: real): set<PersonId> {
    set id | id in t.persons && InPool(t.persons[id], owner, limits, now)
  }

  predicate PoolFull(t: Tables, owner: OwnerId, limits: Limits, now: real) {
    |Pool(t, owner, limits, now)| >= limits.maxCandidates
  }

  // ----- Persons --------------------------------------------------------------

  datatype PersonCreate = PersonCreate(
    id: PersonId, displayName: Tag, maturity: Maturity, isNamed: bool, profile: Tag)
  datatype PersonUpdate = PersonUpdate(
    expectedRevision: int, displayName: Tag, isNamed: Option<bool>, status: Status, profile: Tag)

  function NewPerson(owner: OwnerId, request: PersonCreate, now: real): Person {
    Person(owner, request.displayName, request.isNamed, request.profile, Active, false, request.maturity,
           Recognizable, if request.maturity == Candidate then Some(now) else None, false, 1)
  }

  function NewRealm(owner: OwnerId, row: Owner, maturity: Maturity, realm: RealmId): Realm {
    if maturity == Candidate then Realm(realm, owner, RealmInactive, row.defaults.candidate, true, false)
    else Realm(realm, owner, RealmActive, NO_POLICY, false, false)
  }

  function InsertPerson(t: Tables, owner: OwnerId, request: PersonCreate, realm: RealmId, now: real): Tables
    requires owner in t.owners
  {
    t.(persons := t.persons[request.id := NewPerson(owner, request, now)],
       realms := t.realms[request.id := NewRealm(owner, t.owners[owner], request.maturity, realm)])
  }

  function Create(t: Tables, limits: Limits, owner: OwnerId, request: PersonCreate, realm: RealmId, clock: Clock)
    : Outcome<Person>
  {
    var id := request.id;
    if !OwnerIsActive(t, owner) then Refused(OwnerNotActive)
    else if id in t.receipts then Refused(PermanentlyDeleted)
    else if id in t.persons then
      var row := t.persons[id];
      if row.deleted then Refused(UseExplicitRestore)
      else if row.owner != owner then Refused(PersonIdUnavailable)
      else if row.maturity != request.maturity || row.isNamed != request.isNamed
              || row.displayName != request.displayName || row.profile != request.profile then Refused(PersonDataDiffers)
      else Done(t, row)
    else if id in t.realms then Refused(RetainedMemory)
    else if request.maturity == Candidate && PoolFull(t, owner, limits, clock(0)) then Refused(CandidatePoolFull)
    else
      Done(InsertPerson(t, owner, request, realm, clock(1)), NewPerson(owner, request, clock(1)))
  }

  /** _deactivate_memory */
  function Deactivated(t: Tables, owner: OwnerId, id: PersonId): Tables {
    if HasRealm(t, owner, id) then
      t.(realms := t.realms[id := t.realms[id].(status := RealmInactive, provisional := NO_POLICY, preparationBlocked := true)])
    else t
  }

  /** Whether an update would put a live candidate back into the pool. */
  predicate Reactivates(row: Person, request: PersonUpdate) {
    row.maturity == Candidate && row.status != Active && request.status == Active && row.recognition == Recognizable
  }

  function Updated(row: Person, request: PersonUpdate): Person {
    row.(isNamed := if request.isNamed.Some? then request.isNamed.value else row.isNamed,
         displayName := request.displayName, status := request.status, profile := request.profile,
         revision := row.revision + 1)
  }

  function Update(t: Tables, limits: Limits, owner: OwnerId, id: PersonId, request: PersonUpdate, clock: Clock)
    : Outcome<Person>
  {
    var missing := PersonRefusal(t, owner, id, false);
    if missing.Some? then Refused(missing.value)
    else
      var row := t.persons[id];
      if row.revision != request.expectedRevision then Refused(RevisionChanged)
      else if Reactivates(row, request) && row.activityAt.None? then Refused(ActivityMissing)
      else if Reactivates(row, request) && FreshAt(row, limits, clock(0)) && PoolFull(t, owner, limits, clock(1)) then
        Refused(CandidatePoolFull)
      else
        var changed := Updated(row, request);
        var written := t.(persons := t.persons[id := changed]);
        Done(if request.status == Inactive then Deactivated(written, owner, id) else written, changed)
  }

  function Retain(row: Person): Person {
    row.(recognition := Retained, revision := row.revision + 1)
  }

  function RetireCandidate(t: Tables, owner: OwnerId, id: PersonId, expected: int): Outcome<Person> {
    var missing := PersonRefusal(t, owner, id, false);
    if missing.Some? then Refused(missing.value)
    else
      var row := t.persons[id];
      if row.revision != expected then Refused(RevisionChanged)
      else if row.maturity != Candidate then Refused(NotACandidate)
      else if row.recognition == Retained then Done(t, row)
      else Done(t.(persons := t.persons[id := Retain(row)]), Retain(row))
  }

  function WithoutProfilesOf(profiles: map<ProfileId, VoiceProfile>, id: PersonId): map<ProfileId, VoiceProfile> {
    profiles - (set p | p in profiles && profiles[p].person == id)
  }

  function Archive(t: Tables, owner: OwnerId, id: PersonId, expected: int): Outcome<()> {
    var missing := PersonRefusal(t, owner, id, false);
    if missing.Some? then Refused(missing.value)
    else
      var row := t.persons[id];
      if row.revision != expected then Refused(RevisionChanged)
      else
        var quiet := Deactivated(t, owner, id);
        Done(quiet.(profiles := WithoutProfilesOf(t.profiles, id),
                    persons := t.persons[id := row.(deleted := true, status := Inactive, revision := row.revision + 1)]),
             ())
  }

  function Restore(t: Tables, owner: OwnerId, id: PersonId, expected: int): Outcome<Person> {
    var missing := PersonRefusal(t, owner, id, true);
    if missing.Some? then Refused(missing.value)
    else
      var row := t.persons[id];
      if row.revision != expected then Refused(RevisionChanged)
      else if row.identityMissing then Refused(IdentityMissing)
      else if !row.deleted then Refused(NotArchived)
      else if id in t.realms && t.realms[id].status == RealmDeleting then Refused(ErasurePending)
      else
        var restored := row.(deleted := false, status := Inactive, revision := row.revision + 1);
        Done(Deactivated(t.(persons := t.persons[id := restored]), owner, id), restored)
  }

  /** Rows of the person go with it, as the foreign keys cascade. */
  function WithoutEvidenceOf(evidence: seq<EvidenceRow>, owner: OwnerId, id: PersonId): (rest: seq<EvidenceRow>)
    ensures forall row :: row in rest <==> row in evidence && !(row.owner == owner && row.person == id)
  {
    if evidence == [] then []
    else (if evidence[0].owner == owner && evidence[0].person == id then [] else [evidence[0]])
         + WithoutEvidenceOf(evidence[1..], owner, id)
  }

  /** Completion: the realm named by the receipt, then the person and what references it. */
  function Erased(t: Tables, owner: OwnerId, id: PersonId): Tables
    requires id in t.receipts && id in t.persons
  {
    var receipt, row := t.receipts[id], t.persons[id];
    t.(realms := if HasRealm(t, owner, id) && t.realms[id].id == receipt.realm then t.realms - {id} else t.realms,
       persons := t.persons - {id},
       evidence := WithoutEvidenceOf(t.evidence, row.owner, id),
       profiles := t.profiles - (set p | p in t.profiles && t.profiles[p].owner == row.owner && t.profiles[p].person == id),
       receipts := t.receipts[id := receipt.(completed := true)])
  }

  function PermanentDelete(t: Tables, owner: OwnerId, id: PersonId, expected: int, complete: bool): Outcome<Receipt> {
    if !OwnerIsActive(t, owner) then Refused(OwnerNotActive)
    else if id in t.receipts then
      var receipt := t.receipts[id];
      if receipt.owner != owner then Refused(PersonNotFound)
      else if !(expected == receipt.revision || (id in t.persons && !complete && expected == t.persons[id].revision)) then
        Refused(DeletionRevisionMismatch)
      else if receipt.completed || !complete then Done(t, receipt)
      else if id !in t.persons then Refused(PersonRowMissing)
      else Done(Erased(t, owner, id), receipt.(completed := true))
    else if complete then Refused(DeletionNotRequested)
    else
      var missing := PersonRefusal(t, owner, id, true);
      if missing.Some? then Refused(missing.value)
      else
        var row := t.persons[id];
        if row.revision != expected then Refused(RevisionChanged)
        else if !row.deleted then Refused(ArchiveFirst)
        else if !HasRealm(t, owner, id) then Refused(RealmNotFound)
        else
          var receipt := Receipt(owner, t.realms[id].id, expected, false);
          Done(t.(receipts := t.receipts[id := receipt],
                  realms := t.realms[id := t.realms[id].(status := RealmDeleting)],
                  persons := t.persons[id := row.(revision := row.revision + 1)]),
               receipt)
  }

  // ----- Memory ---------------------------------------------------------------

  function SetMemoryDefaults(t: Tables, owner: OwnerId, expected: Option<int>, policy: MemoryDefaults): Outcome<Owner> {
    if !OwnerIsActive(t, owner) then Refused(OwnerNotActive)
    else
      var row := t.owners[owner];
      if expected != Some(row.revision) then Refused(RevisionChanged)
      else if row.defaults == policy then Done(t, row)
      else
        var changed := row.(defaults := policy, revision := row.revision + 1);
        Done(t.(owners := t.owners[owner := changed]), changed)
  }

  /** Blank or longer than 256 characters is not a session. */
  datatype Session = NoSession | BadSession | Session(id: Tag)
  datatype Access = Access(personRevision: int, realm: RealmId, policy: Policy)

  /** The session view grants nothing to a person the runtime must not use. */
  predicate Withheld(row: Person, limits: Limits, now: real) {
    row.status != Active || row.recognition != Recognizable || (row.maturity == Candidate && !FreshAt(row, limits, now))
  }

  function ProvisionalMemoryPolicy(
    t: Tables, limits: Limits, owner: OwnerId, id: PersonId, expected: Option<int>, policy: Option<Policy>,
    session: Session, clock: Clock): Outcome<Access>
  {
    var missing := PersonRefusal(t, owner, id, false);
    if session == BadSession then Refused(InvalidSession)
    else if missing.Some? then Refused(missing.value)
    else
      var row := t.persons[id];
      if expected.Some? && row.revision != expected.value then Refused(RevisionChanged)
      else if !HasRealm(t, owner, id) then Refused(RealmNotFound)
      else
        var realm := t.realms[id];
        if policy.Some? && expected.None? then Refused(RevisionRequired)
        else if policy.Some? && row.status != Active && policy.value != NO_POLICY then Refused(PersonInactive)
        else
          var writes := policy.Some? && policy.value != realm.provisional;
          var changed := if writes then row.(revision := row.revision + 1) else row;
          var current := if policy.Some? then policy.value else realm.provisional;
          var written := if writes then t.(realms := t.realms[id := realm.(provisional := current)],
                                           persons := t.persons[id := changed]) else t;
          if session.Session? && expected.None? then Refused(RevisionRequired)
          else
            var granted := if session.Session? && Withheld(row, limits, clock(0)) then NO_POLICY else current;
            Done(written, Access(changed.revision, realm.id, granted))
  }

  /** provisional_runtime_realms: the bulk projection, one query. */
  function ProvisionalRuntimeRealms(t: Tables, limits: Limits, owner: OwnerId, sessionRecall: bool, now: real): set<PersonId> {
    set id | id in t.realms && id in t.persons && t.realms[id].owner == owner && t.persons[id].owner == owner
             && t.realms[id].status != RealmDeleting && t.persons[id].status == Active
             && t.persons[id].recognition == Recognizable
             && (t.persons[id].maturity == Established || FreshAt(t.persons[id], limits, now))
             && Grants(t.realms[id].provisional, sessionRecall)
  }

  predicate Grants(policy: Policy, sessionRecall: bool) {
    if sessionRecall then policy.sessionRecallAllowed else policy.saveAllowed
  }

  function MemoryRealm(t: Tables, owner: OwnerId, id: PersonId, create: bool, realm: RealmId): Outcome<Realm> {
    var missing := PersonRefusal(t, owner, id, false);
    if missing.Some? then Refused(missing.value)
    else
      var row := t.persons[id];
      if row.maturity != Established then Refused(CandidateMemoryScoped)
      else if row.status != Active then Refused(PersonInactive)
      else if !HasRealm(t, owner, id) then
        if !create then Refused(RealmNotFound)
        else
          var bound := Realm(realm, owner, RealmActive, NO_POLICY, false, false);
          Done(t.(realms := t.realms[id := bound]), bound)
      else if t.realms[id].status != RealmActive then Refused(RealmInactiveRefused)
      else Done(t, t.realms[id])
  }

  predicate NeedsSuspension(realm: Realm) {
    realm.status == RealmActive || realm.provisional != NO_POLICY || !realm.preparationBlocked
  }

  function SuspendMemory(t: Tables, owner: OwnerId, id: PersonId, expected: int): Outcome<Realm> {
    var missing := PersonRefusal(t, owner, id, false);
    if missing.Some? then Refused(missing.value)
    else
      var row := t.persons[id];
      if row.revision != expected then Refused(RevisionChanged)
      else if !HasRealm(t, owner, id) then Refused(RealmNotFound)
      else if !NeedsSuspension(t.realms[id]) then Done(t, t.realms[id])
      else
        var realm := t.realms[id].(provisional := NO_POLICY, preparationBlocked := true, status := RealmInactive);
        Done(t.(realms := t.realms[id := realm], persons := t.persons[id := row.(revision := row.revision + 1)]), realm)
  }

  function RestoreMemory(t: Tables, owner: OwnerId, id: PersonId, expected: int): Outcome<Realm> {
    var missing := PersonRefusal(t, owner, id, false);
    if missing.Some? then Refused(missing.value)
    else
      var row := t.persons[id];
      if row.revision != expected then Refused(RevisionChanged)
      else if row.maturity != Established then Refused(CandidateMemoryScoped)
      else if row.status != Active then Refused(PersonInactive)
      else if !HasRealm(t, owner, id) then Refused(RealmNotFound)
      else if t.realms[id].status == RealmActive then Done(t, t.realms[id])
      else
        var realm := t.realms[id].(status := RealmActive);
        Done(t.(realms := t.realms[id := realm], persons := t.persons[id := row.(revision := row.revision + 1)]), realm)
  }

  /** prepare_promoted_memory, on the promoted row's realm. */
  function PreparedRealm(realm: Realm, defaults: MemoryDefaults): Realm {
    if defaults.prepareOnPromotion && realm.status == RealmInactive && realm.fromDefaults && !realm.preparationBlocked
    then realm.(status := RealmActive) else realm
  }

  // ----- Recognition snapshot -------------------------------------------------

  predicate Expired(row: Person, owner: OwnerId, limits: Limits, now: real) {
    row.owner == owner && row.maturity == Candidate && row.recognition == Recognizable && !row.deleted
    && row.activityAt.Some? && row.activityAt.value <= now - limits.ttl
  }

  predicate Recognized(row: Person, owner: OwnerId, limits: Limits, now: real) {
    row.owner == owner && row.status == Active && !row.deleted && row.recognition == Recognizable
    && (row.maturity != Candidate || FreshAt(row, limits, now))
  }

  datatype Entry = Entry(person: PersonId, row: Person, template: VoiceProfile)
  /** The snapshot revision is a digest of the whole payload, so the payload stands for it. */
  datatype Snapshot = Snapshot(entries: map<ProfileId, Entry>, policy: Option<DiscoveryPolicy>)

  /** What the payload shows of a person: not the activity time, so accepted evidence alone does not change it. */
  function Shown(row: Person): Person {
    row.(activityAt := None)
  }

  predicate InSnapshot(t: Tables, limits: Limits, owner: OwnerId, row: VoiceProfile, now: real) {
    row.owner == owner && row.person in t.persons && Recognized(t.persons[row.person], owner, limits, now)
  }

  function EntryOf(t: Tables, row: VoiceProfile): Entry
    requires row.person in t.persons
  {
    Entry(row.person, Shown(t.persons[row.person]), row)
  }

  ghost function Entries(t: Tables, limits: Limits, owner: OwnerId, now: real): map<ProfileId, Entry> {
    var shown := t.profiles - (set p | p in t.profiles && !InSnapshot(t, limits, owner, t.profiles[p], now));
    Mapped(shown, (p, row: VoiceProfile) requires row.person in t.persons => EntryOf(t, row))
  }

  lemma EntriesAre(t: Tables, limits: Limits, owner: OwnerId, now: real)
    ensures forall p :: p in Entries(t, limits, owner, now) <==> p in t.profiles && InSnapshot(t, limits, owner, t.profiles[p], now)
    ensures forall p | p in Entries(t, limits, owner, now) ::
              t.profiles[p].person in t.persons && Entries(t, limits, owner, now)[p] == EntryOf(t, t.profiles[p])
  {
  }

  ghost function RecognitionSnapshot(
    t: Tables, limits: Limits, owner: OwnerId, policy: Option<DiscoveryPolicy>, now: real): Snapshot
  {
    Snapshot(Entries(t, limits, owner, now), policy)
  }

  /** The sweep retains a set of candidates chosen among the expired ones. */
  ghost function Swept(t: Tables, chosen: set<PersonId>): Tables {
    t.(persons := Mapped(t.persons, (id, row: Person) => if id in chosen then Retain(row) else row))
  }

  /** recognition_candidates' write: its own query bounds the chosen rows. */
  ghost function Sweep(t: Tables, limits: Limits, owner: OwnerId, chosen: set<PersonId>, now: real): Outcome<()> {
    if !OwnerIsActive(t, owner) then Refused(OwnerNotActive)
    else if chosen <= t.persons.Keys && forall id | id in chosen :: Expired(t.persons[id], owner, limits, now) then
      Done(Swept(t, chosen), ())
    else Refused(NotACandidate)
  }

  // ----- Voice evidence -------------------------------------------------------

  datatype DiscoverRequest = DiscoverRequest(
    policyVersion: Tag, snapshot: Snapshot, audio: Tag, sampleModel: Model, sampleTemplate: Tag, sampleSpeechMs: nat,
    observation: Observation, digest: Tag)
  datatype EvidenceRequest = EvidenceRequest(snapshot: Snapshot, audio: Tag, observation: Observation, digest: Tag)
  datatype EvidenceAnswer = EvidenceAnswer(personRevision: int, maturity: Maturity, accepted: bool, independentTurns: nat)

  const NORMALIZED_COSINE: Tag := 1

  predicate SameTurn(row: EvidenceRow, owner: OwnerId, value: Observation) {
    row.owner == owner && row.session == value.session && row.turn == value.turn
  }

  predicate Overlap(a: Source, b: Source) {
    a.input == b.input && a.generation == b.generation && a.start < b.end && b.start < a.end
  }

  predicate CaptureUsed(t: Tables, owner: OwnerId, value: Observation) {
    exists row | row in t.evidence ::
      row.owner == owner && row.session == value.session && Overlap(row.observation.source, value.source)
  }

  predicate AudioReplayed(t: Tables, owner: OwnerId, audio: Tag) {
    exists row | row in t.evidence :: row.owner == owner && row.audio == audio
  }

  /** The one receipt of this turn, if any. */
  function TurnRow(evidence: seq<EvidenceRow>, owner: OwnerId, value: Observation): (found: Option<EvidenceRow>)
    ensures found.Some? ==> found.value in evidence && SameTurn(found.value, owner, value)
    ensures found.None? ==> forall row | row in evidence :: !SameTurn(row, owner, value)
  {
    if evidence == [] then None
    else if SameTurn(evidence[0], owner, value) then Some(evidence[0])
    else TurnRow(evidence[1..], owner, value)
  }

  function DiscoveredPerson(id: PersonId): PersonCreate {
    PersonCreate(id, id, Candidate, false, 0)
  }

  function DiscoverMismatch(owner: OwnerId, policy: DiscoveryPolicy, request: DiscoverRequest): bool {
    var value := request.observation;
    value.owner != owner || value.decision != policy.decision || value.scoring != NORMALIZED_COSINE
    || value.model != policy.model || request.sampleSpeechMs < policy.minSpeechMs
  }

  /** The voice must be judged against the current snapshot, with room in it, and resemble nobody in it. */
  function NoveltyRefusal(snapshot: Snapshot, limits: Limits, policy: DiscoveryPolicy, request: DiscoverRequest): Option<Refusal> {
    var value := request.observation;
    if |snapshot.entries| > limits.maxRecognition then Some(RecognitionFull)
    else if snapshot != request.snapshot then Some(SnapshotChanged)
    else if |snapshot.entries| >= limits.maxRecognition then Some(RecognitionFull)
    else if snapshot.entries != map[] && (value.cosine.None? || value.cosine.value > policy.maxExistingSimilarity) then
      Some(NotExcluded)
    else None
  }

  /** What refuses a new discovery, in order; id is the digest of (owner, session, turn). */
  ghost function DiscoverRefusal(
    t: Tables, limits: Limits, owner: OwnerId, policy: DiscoveryPolicy, request: DiscoverRequest,
    id: PersonId, profile: ProfileId, clock: Clock): Option<Refusal>
  {
    var value := request.observation;
    var snapshot := RecognitionSnapshot(t, limits, owner, Some(policy), clock(2));
    if value.issuedAt > clock(0) + 1.0 || value.expiresAt <= clock(1) then Some(EvidenceExpired)
    else if NoveltyRefusal(snapshot, limits, policy, request).Some? then NoveltyRefusal(snapshot, limits, policy, request)
    else if AudioReplayed(t, owner, request.audio) then Some(AudioUsed)
    else if CaptureUsed(t, owner, value) then Some(CaptureOverlaps)
    else if id in t.persons || id in t.receipts then Some(IdentityUsed)
    else if id in t.realms then Some(RetainedMemory)
    else if PoolFull(t, owner, limits, clock(3)) then Some(CandidatePoolFull)
    else if profile in t.profiles then Some(ProfileTaken)
    else None
  }

  /** The accepted discovery: candidate, inactive realm, receipt and voice profile together. */
  function WithDiscovery(
    t: Tables, owner: OwnerId, request: DiscoverRequest, id: PersonId, realm: RealmId, profile: ProfileId, now: real): Tables
    requires owner in t.owners
  {
    var value := request.observation;
    InsertPerson(t, owner, DiscoveredPerson(id), realm, now).(
      evidence := t.evidence + [EvidenceRow(owner, id, value.session, value.turn, request.audio, profile, 1, request.digest, value)],
      profiles := t.profiles[profile := VoiceProfile(owner, id, 1, request.sampleModel, request.sampleTemplate)])
  }

  /** realm and profile are the generated identifiers. */
  ghost function DiscoverCandidate(
    t: Tables, limits: Limits, owner: OwnerId, policy: Option<DiscoveryPolicy>, request: DiscoverRequest,
    id: PersonId, realm: RealmId, profile: ProfileId, clock: Clock): Outcome<Person>
  {
    if policy.None? || request.policyVersion != policy.value.version then Refused(DiscoveryUnavailable)
    else if DiscoverMismatch(owner, policy.value, request) then Refused(DiscoveryMismatch)
    else if !OwnerIsActive(t, owner) then Refused(OwnerNotActive)
    else
      var prior := TurnRow(t.evidence, owner, request.observation);
      if prior.Some? then Rediscovered(t, owner, request.digest, prior.value)
      else
        var refusal := DiscoverRefusal(t, limits, owner, policy.value, request, id, profile, clock);
        if refusal.Some? then Refused(refusal.value)
        else Done(WithDiscovery(t, owner, request, id, realm, profile, clock(4)), NewPerson(owner, DiscoveredPerson(id), clock(4)))
  }

  /** A discovery changes nothing, or it is a new turn of an identity no table knows. */
  lemma DiscoverEffect(
    t: Tables, limits: Limits, owner: OwnerId, policy: Option<DiscoveryPolicy>, request: DiscoverRequest,
    id: PersonId, realm: RealmId, profile: ProfileId, clock: Clock)
    ensures var u := After(t, DiscoverCandidate(t, limits, owner, policy, request, id, realm, profile, clock));
            u == t ||
            (owner in t.owners && u == WithDiscovery(t, owner, request, id, realm, profile, clock(4))
             && id !in t.persons && id !in t.receipts && id !in t.realms && profile !in t.profiles
             && TurnRow(t.evidence, owner, request.observation).None?
             && !AudioReplayed(t, owner, request.audio) && !CaptureUsed(t, owner, request.observation))
  {
  }

  lemma UnrefusedDiscoveryHasRoom(
    t: Tables, limits: Limits, owner: OwnerId, policy: DiscoveryPolicy, request: DiscoverRequest,
    id: PersonId, profile: ProfileId, clock: Clock)
    requires DiscoverRefusal(t, limits, owner, policy, request, id, profile, clock).None?
    ensures !PoolFull(t, owner, limits, clock(3))
  {
  }

  lemma DiscoveryHadRoom(
    t: Tables, limits: Limits, owner: OwnerId, policy: Option<DiscoveryPolicy>, request: DiscoverRequest,
    id: PersonId, realm: RealmId, profile: ProfileId, clock: Clock)
    ensures After(t, DiscoverCandidate(t, limits, owner, policy, request, id, realm, profile, clock)) != t ==>
              !PoolFull(t, owner, limits, clock(3))
  {
    if policy.Some? && DiscoverRefusal(t, limits, owner, policy.value, request, id, profile, clock).None? {
      UnrefusedDiscoveryHasRoom(t, limits, owner, policy.value, request, id, profile, clock);
    }
  }

  /** The replay of an accepted discovery. */
  function Rediscovered(t: Tables, owner: OwnerId, digest: Tag, prior: EvidenceRow): Outcome<Person> {
    if prior.digest != digest then Refused(SourceUsed)
    else
      var missing := SpeakerRefusal(t, owner, prior.person);
      if missing.Some? then Refused(missing.value)
      else if t.persons[prior.person].deleted || t.persons[prior.person].recognition != Recognizable || prior.profile !in t.profiles then
        Refused(CandidateRevoked)
      else Done(t, t.persons[prior.person])
  }

  /** The receipts of one person. */
  function EvidenceOf(evidence: seq<EvidenceRow>, owner: OwnerId, id: PersonId): seq<EvidenceRow> {
    if evidence == [] then []
    else (if evidence[0].owner == owner && evidence[0].person == id then [evidence[0]] else [])
         + EvidenceOf(evidence[1..], owner, id)
  }

  /** independent_turns: counted by the row's own profile columns. */
  function IndependentTurns(rows: seq<EvidenceRow>, value: Observation): nat {
    if rows == [] then 0
    else (if Some(rows[0].profile) == value.profile && rows[0].profileRevision == value.profileRevision
             && rows[0].observation.decision == value.decision && rows[0].observation.scoring == value.scoring then 1 else 0)
         + IndependentTurns(rows[1..], value)
  }

  /** The part of eligible() that no clock reading changes; read from the observation, not the row. */
  predicate Qualifies(o: Observation, value: Observation, policy: PromotionPolicy) {
    o.overlap == Some(0) && o.profile == value.profile && o.profileRevision == value.profileRevision
    && o.decision == policy.decision && o.scoring == policy.scoring && o.model == policy.model
    && o.cosine.Some? && o.cosine.value >= policy.minSimilarity
  }

  predicate Eligible(o: Observation, value: Observation, policy: PromotionPolicy, clock: Clock, k: nat) {
    Qualifies(o, value, policy) && clock(k) - policy.maxEvidenceAge <= o.issuedAt <= clock(k + 1) + 1.0
  }

  /** The eligible receipts; each test reads the clock twice more. */
  function EligibleRows(rows: seq<EvidenceRow>, value: Observation, policy: PromotionPolicy, clock: Clock, k: nat): seq<EvidenceRow> {
    if rows == [] then []
    else (if Eligible(rows[0].observation, value, policy, clock, k) then [rows[0]] else [])
         + EligibleRows(rows[1..], value, policy, clock, k + 2)
  }

  function SpeechMs(rows: seq<EvidenceRow>): nat {
    if rows == [] then 0 else rows[0].observation.speechMs + SpeechMs(rows[1..])
  }

  /** _promote_candidate's decision; the receipts before this one are rows. */
  predicate Promotes(rows: seq<EvidenceRow>, value: Observation, policy: Option<PromotionPolicy>, clock: Clock) {
    policy.Some? && Eligible(value, value, policy.value, clock, 3)
    && var chosen := EligibleRows(rows, value, policy.value, clock, 5);
       |chosen| + 1 >= policy.value.minTurns && SpeechMs(chosen) + value.speechMs >= policy.value.minTotalSpeechMs
  }

  ghost function EvidenceRefusal(
    t: Tables, limits: Limits, owner: OwnerId, discovery: Option<DiscoveryPolicy>, request: EvidenceRequest, clock: Clock): Option<Refusal>
    requires request.observation.person.Some? && request.observation.person.value in t.persons
  {
    var value, id := request.observation, request.observation.person.value;
    var row := t.persons[id];
    var snapshot := RecognitionSnapshot(t, limits, owner, discovery, clock(2));
    if row.maturity != Candidate then Some(AlreadyEstablished)
    else if value.issuedAt > clock(0) + 1.0 || value.expiresAt <= clock(1) then Some(EvidenceExpired)
    else if |snapshot.entries| > limits.maxRecognition then Some(RecognitionFull)
    else if snapshot != request.snapshot || row.revision != value.personRevision then Some(SnapshotChanged)
    else if !(value.profile.Some? && value.profile.value in snapshot.entries
              && snapshot.entries[value.profile.value].person == id
              && snapshot.entries[value.profile.value].template.revision == value.profileRevision
              && snapshot.entries[value.profile.value].template.model == value.model) then Some(TemplateChanged)
    else if AudioReplayed(t, owner, request.audio) then Some(AudioUsed)
    else if CaptureUsed(t, owner, value) then Some(CaptureOverlaps)
    else if |EvidenceOf(t.evidence, owner, id)| >= limits.evidenceLimit then Some(EvidenceFull)
    else None
  }

  ghost function RecordEvidence(
    t: Tables, limits: Limits, owner: OwnerId, discovery: Option<DiscoveryPolicy>, promotion: Option<PromotionPolicy>,
    request: EvidenceRequest, clock: Clock): Outcome<EvidenceAnswer>
  {
    var value := request.observation;
    if value.owner != owner then Refused(OwnerMismatch)
    else if !OwnerIsActive(t, owner) then Refused(OwnerNotActive)
    else if value.person.None? then Refused(PersonNotFound)
    else
      var id := value.person.value;
      var missing := SpeakerRefusal(t, owner, id);
      if missing.Some? then Refused(missing.value)
      else
        var row := t.persons[id];
        if row.deleted || row.recognition != Recognizable then Refused(NotAccepting)
        else
          var rows := EvidenceOf(t.evidence, owner, id);
          var count := IndependentTurns(rows, value);
          var previous := TurnRow(t.evidence, owner, value);
          if previous.Some? then
            if previous.value.digest != request.digest then Refused(SourceUsed)
            else Done(t, EvidenceAnswer(row.revision, row.maturity, false, count))
          else
            NewTurn(t, limits, owner, discovery, promotion, request, clock, count)
  }

  /** A turn with no receipt yet; count is what was independent of it before. */
  ghost function NewTurn(
    t: Tables, limits: Limits, owner: OwnerId, discovery: Option<DiscoveryPolicy>, promotion: Option<PromotionPolicy>,
    request: EvidenceRequest, clock: Clock, count: nat): Outcome<EvidenceAnswer>
    requires request.observation.person.Some? && request.observation.person.value in t.persons && owner in t.owners
  {
    var id := request.observation.person.value;
    var refusal := EvidenceRefusal(t, limits, owner, discovery, request, clock);
    if refusal.Some? then Refused(refusal.value)
    else
      var next := WithEvidence(t, owner, promotion, request, clock);
      Done(next, EvidenceAnswer(next.persons[id].revision, next.persons[id].maturity, true, count + 1))
  }

  /** The accepted receipt: appended, the activity time moved, and the candidate perhaps promoted. */
  function WithEvidence(t: Tables, owner: OwnerId, promotion: Option<PromotionPolicy>, request: EvidenceRequest, clock: Clock): (next: Tables)
    requires request.observation.person.Some? && request.observation.person.value in t.persons
    requires request.observation.profile.Some? && owner in t.owners
    ensures request.observation.person.value in next.persons
  {
    var value, id := request.observation, request.observation.person.value;
    var row := t.persons[id];
    var receipt := EvidenceRow(owner, id, value.session, value.turn, request.audio, value.profile.value, value.profileRevision, request.digest, value);
    var seen := row.(activityAt := Some(Max(if row.activityAt.Some? then row.activityAt.value else 0.0, value.issuedAt)));
    var appended := t.(evidence := t.evidence + [receipt]);
    if Promotes(EvidenceOf(t.evidence, owner, id), value, promotion, clock) then
      appended.(persons := t.persons[id := seen.(maturity := Established, revision := row.revision + 1)],
                realms := if HasRealm(t, owner, id) then t.realms[id := PreparedRealm(t.realms[id], t.owners[owner].defaults)] else t.realms)
    else appended.(persons := t.persons[id := seen])
  }

  lemma EntryIsPooled(t: Tables, limits: Limits, owner: OwnerId, now: real, p: ProfileId)
    requires p in Entries(t, limits, owner, now)
    ensures var id := Entries(t, limits, owner, now)[p].person;
            id in t.persons && (t.persons[id].maturity == Candidate ==> InPool(t.persons[id], owner, limits, now))
  {
    EntriesAre(t, limits, owner, now);
  }

  /** What an accepted turn rests on: a candidate the current snapshot shows, new audio and a new interval. */
  lemma AcceptedEvidence(
    t: Tables, limits: Limits, owner: OwnerId, discovery: Option<DiscoveryPolicy>, request: EvidenceRequest, clock: Clock)
    requires request.observation.person.Some? && request.observation.person.value in t.persons
    requires EvidenceRefusal(t, limits, owner, discovery, request, clock).None?
    ensures request.observation.profile.Some? && InPool(t.persons[request.observation.person.value], owner, limits, clock(2))
    ensures !AudioReplayed(t, owner, request.audio) && !CaptureUsed(t, owner, request.observation)
  {
    EntryIsPooled(t, limits, owner, clock(2), request.observation.profile.value);
  }

  /** Evidence changes nothing, or it is a new turn for a candidate the current snapshot shows. */
  lemma EvidenceEffect(
    t: Tables, limits: Limits, owner: OwnerId, discovery: Option<DiscoveryPolicy>, promotion: Option<PromotionPolicy>,
    request: EvidenceRequest, clock: Clock)
    ensures var u := After(t, RecordEvidence(t, limits, owner, discovery, promotion, request, clock));
            u == t ||
            (request.observation.person.Some? && request.observation.profile.Some?
             && var id := request.observation.person.value;
                && SpeakerRefusal(t, owner, id).None? && InPool(t.persons[id], owner, limits, clock(2))
                && TurnRow(t.evidence, owner, request.observation).None?
                && !AudioReplayed(t, owner, request.audio) && !CaptureUsed(t, owner, request.observation)
                && u == WithEvidence(t, owner, promotion, request, clock))
  {
    var person := request.observation.person;
    if person.Some? && person.value in t.persons && EvidenceRefusal(t, limits, owner, discovery, request, clock).None? {
      AcceptedEvidence(t, limits, owner, discovery, request, clock);
    }
  }

  // ----- Profiles and owners --------------------------------------------------

  function DeleteProfile(t: Tables, owner: OwnerId, profile: ProfileId): Outcome<()> {
    if !OwnerIsActive(t, owner) then Refused(OwnerNotActive)
    else if profile in t.profiles && t.profiles[profile].owner != owner then Refused(ProfileNotFound)
    else Done(t.(profiles := t.profiles - {profile}), ())
  }

  /** What a completed enrollment writes here: the active person's profile row. */
  function WriteProfile(t: Tables, owner: OwnerId, id: PersonId, profile: ProfileId, model: Model, template: Tag): Outcome<()> {
    var missing := SpeakerRefusal(t, owner, id);
    if missing.Some? then Refused(missing.value)
    else if profile in t.profiles && t.profiles[profile].person != id then Refused(ProfileTaken)
    else if exists p | p in t.profiles && p != profile :: t.profiles[p].owner == owner && t.profiles[p].person == id then
      Refused(ProfileTaken)
    else
      var revision := if profile in t.profiles then t.profiles[profile].revision + 1 else 1;
      Done(t.(profiles := t.profiles[profile := VoiceProfile(owner, id, revision, model, template)]), ())
  }

  function CreateOwner(t: Tables, owner: OwnerId): Outcome<Owner> {
    if owner in t.owners then Refused(OwnerExists)
    else
      var row := Owner(OwnerActive, NO_DEFAULTS, 1);
      Done(t.(owners := t.owners[owner := row]), row)
  }

  /** update_owner with settings: the memory defaults in them replace the present ones, and no revision moves. */
  function UpdateOwner(t: Tables, owner: OwnerId, settings: MemoryDefaults): Outcome<Owner> {
    if !OwnerIsActive(t, owner) then Refused(OwnerNotActive)
    else
      var row := t.owners[owner].(defaults := settings);
      Done(t.(owners := t.owners[owner := row]), row)
  }

  /** archive_owner as these tables see it: every active realm of the owner goes inactive, without the block mark. */
  ghost function ArchiveOwner(t: Tables, owner: OwnerId): Outcome<Owner> {
    if owner !in t.owners then Refused(OwnerNotActive)
    else if t.owners[owner].status == OwnerArchived then Done(t, t.owners[owner])
    else
      var row := t.owners[owner].(status := OwnerArchived, revision := t.owners[owner].revision + 1);
      Done(t.(owners := t.owners[owner := row],
              realms := Mapped(t.realms, (id, realm: Realm) => if realm.owner == owner && realm.status == RealmActive
                                                               then realm.(status := RealmInactive) else realm)),
           row)
  }
}
