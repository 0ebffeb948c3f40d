/** When exactly evidence and discoveries are accepted, read off the rows before them, and what a discovery writes. */
module PeopleVoice {
  import opened Core
  import opened People
  import opened PeopleRuns
  import opened PeopleAnswers

  // ----- The snapshot ---------------------------------------------------------------

  /** A person whose voice may be compared now: active, not archived, recognisable, and a candidate only while fresh. */
  predicate Comparable(row: Person, owner: OwnerId, limits: Limits, now: real) {
    row.owner == owner && !row.deleted && Usable(row, limits, now)
  }

  /** The snapshot shows exactly the profiles of the owner's comparable persons, each with its person's row and template, and
      the discovery policy. */
  lemma SnapshotShowsExactly(t: Tables, limits: Limits, owner: OwnerId, policy: Option<DiscoveryPolicy>, now: real)
    ensures var snapshot := RecognitionSnapshot(t, limits, owner, policy, now);
            && snapshot.policy == policy
            && (forall p :: p in snapshot.entries <==>
                  p in t.profiles && t.profiles[p].owner == owner && t.profiles[p].person in t.persons
                  && Comparable(t.persons[t.profiles[p].person], owner, limits, now))
            && (forall p | p in snapshot.entries ::
                  var (entry, row) := (snapshot.entries[p], t.persons[t.profiles[p].person]);
                  && entry.person == t.profiles[p].person && entry.template == t.profiles[p]
                  && entry.row == row.(activityAt := None))
  {
    EntriesAre(t, limits, owner, now);
  }

  // ----- Evidence -------------------------------------------------------------------

  /** The observation's person can be heard: theirs, active, not archived, recognisable. */
  predicate Hearable(t: Tables, owner: OwnerId, person: Option<PersonId>) {
    && owner in t.owners && t.owners[owner].status == OwnerActive
    && person.Some? && person.value in t.persons
    && var row := t.persons[person.value];
       row.owner == owner && row.status == Active && !row.deleted && row.recognition == Recognizable
  }

  predicate NoReceiptOfTurn(t: Tables, owner: OwnerId, value: Observation) {
    forall row | row in t.evidence :: !(row.owner == owner && row.session == value.session && row.turn == value.turn)
  }

  /** The audio is new to the owner, and so is every sample of the captured interval. */
  predicate NewCapture(t: Tables, owner: OwnerId, audio: Tag, value: Observation) {
    forall row | row in t.evidence && row.owner == owner ::
      && row.audio != audio
      && (row.session == value.session && row.observation.source.input == value.source.input
          && row.observation.source.generation == value.source.generation ==>
            row.observation.source.end <= value.source.start || value.source.end <= row.observation.source.start)
  }

  /** The receipts the person has. */
  function ReceiptsOf(rows: seq<EvidenceRow>, owner: OwnerId, id: PersonId): nat {
    if rows == [] then 0 else (if rows[0].owner == owner && rows[0].person == id then 1 else 0) + ReceiptsOf(rows[1..], owner, id)
  }

  /** Those of the same profile revision judged by the same decision and scoring. */
  function AlikeOf(rows: seq<EvidenceRow>, owner: OwnerId, id: PersonId, value: Observation): nat {
    if rows == [] then 0
    else
      (if && rows[0].owner == owner && rows[0].person == id && Some(rows[0].profile) == value.profile
          && rows[0].profileRevision == value.profileRevision && rows[0].observation.decision == value.decision
          && rows[0].observation.scoring == value.scoring then 1 else 0)
      + AlikeOf(rows[1..], owner, id, value)
  }

  lemma {:induction false} EvidenceCounts(rows: seq<EvidenceRow>, owner: OwnerId, id: PersonId, value: Observation)
    ensures |EvidenceOf(rows, owner, id)| == ReceiptsOf(rows, owner, id)
    ensures IndependentTurns(EvidenceOf(rows, owner, id), value) == AlikeOf(rows, owner, id, value)
    decreases |rows|
  {
    if rows != [] {
      var rest := EvidenceOf(rows[1..], owner, id);
      EvidenceCounts(rows[1..], owner, id, value);
      if rows[0].owner == owner && rows[0].person == id {
        assert EvidenceOf(rows, owner, id) == [rows[0]] + rest;
        assert ([rows[0]] + rest)[1..] == rest;
      } else {
        assert EvidenceOf(rows, owner, id) == rest;
      }
    }
  }

  /** The snapshot the turn was judged against is the present one and shows this candidate with this template. */
  ghost predicate JudgedNow(t: Tables, limits: Limits, owner: OwnerId, discovery: Option<DiscoveryPolicy>, request: EvidenceRequest, now: real) {
    var (value, snapshot) := (request.observation, RecognitionSnapshot(t, limits, owner, discovery, now));
    && |snapshot.entries| <= limits.maxRecognition && snapshot == request.snapshot
    && value.profile.Some? && value.profile.value in snapshot.entries
    && var entry := snapshot.entries[value.profile.value];
       Some(entry.person) == value.person && entry.template.revision == value.profileRevision && entry.template.model == value.model
  }

  lemma TurnTaken(t: Tables, owner: OwnerId, value: Observation)
    ensures TurnRow(t.evidence, owner, value).None? <==> NoReceiptOfTurn(t, owner, value)
  {
  }

  lemma CaptureTaken(t: Tables, owner: OwnerId, audio: Tag, value: Observation)
    ensures NewCapture(t, owner, audio, value) <==> !AudioReplayed(t, owner, audio) && !CaptureUsed(t, owner, value)
  {
  }

  /** What refuses a turn without a receipt, as conditions: none of them holds. */
  ghost predicate Convincing(
    t: Tables, limits: Limits, owner: OwnerId, discovery: Option<DiscoveryPolicy>, request: EvidenceRequest, clock: Clock)
    requires request.observation.person.Some? && request.observation.person.value in t.persons
  {
    var (value, id) := (request.observation, request.observation.person.value);
    && t.persons[id].maturity == Candidate && t.persons[id].revision == value.personRevision
    && value.issuedAt <= clock(0) + 1.0 && clock(1) < value.expiresAt
    && JudgedNow(t, limits, owner, discovery, request, clock(2)) && NewCapture(t, owner, request.audio, value)
    && ReceiptsOf(t.evidence, owner, id) < limits.evidenceLimit
  }

  lemma UnrefusedIsConvincing(
    t: Tables, limits: Limits, owner: OwnerId, discovery: Option<DiscoveryPolicy>, request: EvidenceRequest, clock: Clock)
    requires request.observation.person.Some? && request.observation.person.value in t.persons
    ensures EvidenceRefusal(t, limits, owner, discovery, request, clock).None? <==> Convincing(t, limits, owner, discovery, request, clock)
  {
    CaptureTaken(t, owner, request.audio, request.observation);
    EvidenceCounts(t.evidence, owner, request.observation.person.value, request.observation);
  }

  /** A turn is taken exactly when its person can be heard, it has no receipt, and it convinces; a turn with a receipt is
      answered exactly for the same request, without effect. The answer counts the receipts alike, this turn's included. */
  lemma EvidenceAcceptedExactlyWhen(
    t: Tables, limits: Limits, owner: OwnerId, discovery: Option<DiscoveryPolicy>, promotion: Option<PromotionPolicy>,
    request: EvidenceRequest, clock: Clock, outcome: Outcome<EvidenceAnswer>)
    requires outcome == RecordEvidence(t, limits, owner, discovery, promotion, request, clock)
    ensures var value := request.observation;
            var heard := value.owner == owner && Hearable(t, owner, value.person);
            && (outcome.Done? && outcome.view.accepted <==>
                  heard && NoReceiptOfTurn(t, owner, value) && Convincing(t, limits, owner, discovery, request, clock))
            && (outcome.Done? && !outcome.view.accepted <==>
                  heard && !NoReceiptOfTurn(t, owner, value) && TurnRow(t.evidence, owner, value).value.digest == request.digest)
            && (outcome.Done? ==>
                  outcome.view.independentTurns == AlikeOf(t.evidence, owner, value.person.value, value) + if outcome.view.accepted then 1 else 0)
            && (outcome.Done? && !outcome.view.accepted ==>
                  var row := t.persons[value.person.value];
                  outcome.tables == t && outcome.view.personRevision == row.revision && outcome.view.maturity == row.maturity)
  {
    var value := request.observation;
    TurnTaken(t, owner, value);
    if value.person.Some? && value.person.value in t.persons {
      UnrefusedIsConvincing(t, limits, owner, discovery, request, clock);
      EvidenceCounts(t.evidence, owner, value.person.value, value);
    }
  }

  // ----- Discovery ------------------------------------------------------------------

  /** The request is for the policy in force, of this owner, with enough speech of the right kind. */
  predicate FitsPolicy(owner: OwnerId, policy: DiscoveryPolicy, request: DiscoverRequest) {
    var value := request.observation;
    && request.policyVersion == policy.version && value.owner == owner && value.decision == policy.decision
    && value.scoring == NORMALIZED_COSINE && value.model == policy.model && request.sampleSpeechMs >= policy.minSpeechMs
  }

  /** Judged against the present snapshot, which has room, the voice resembles nobody in it. */
  ghost predicate Novel(t: Tables, limits: Limits, owner: OwnerId, policy: DiscoveryPolicy, request: DiscoverRequest, now: real) {
    var snapshot := RecognitionSnapshot(t, limits, owner, Some(policy), now);
    && |snapshot.entries| < limits.maxRecognition && snapshot == request.snapshot
    && (snapshot.entries == map[]
        || (request.observation.cosine.Some? && request.observation.cosine.value <= policy.maxExistingSimilarity))
  }

  ghost predicate Discoverable(
    t: Tables, limits: Limits, owner: OwnerId, policy: DiscoveryPolicy, request: DiscoverRequest,
    id: PersonId, profile: ProfileId, clock: Clock)
  {
    var value := request.observation;
    && value.issuedAt <= clock(0) + 1.0 && clock(1) < value.expiresAt
    && Novel(t, limits, owner, policy, request, clock(2)) && NewCapture(t, owner, request.audio, value)
    && id !in t.persons && id !in t.receipts && id !in t.realms && profile !in t.profiles
    && |LiveCandidates(t, owner, limits, clock(3))| < limits.maxCandidates
  }

  lemma UnrefusedIsNovel(t: Tables, limits: Limits, owner: OwnerId, policy: DiscoveryPolicy, request: DiscoverRequest, now: real)
    ensures NoveltyRefusal(RecognitionSnapshot(t, limits, owner, Some(policy), now), limits, policy, request).None? <==>
              Novel(t, limits, owner, policy, request, now)
  {
  }

  lemma UnrefusedIsDiscoverable(
    t: Tables, limits: Limits, owner: OwnerId, policy: DiscoveryPolicy, request: DiscoverRequest,
    id: PersonId, profile: ProfileId, clock: Clock)
    ensures DiscoverRefusal(t, limits, owner, policy, request, id, profile, clock).None? <==>
              Discoverable(t, limits, owner, policy, request, id, profile, clock)
  {
    UnrefusedIsNovel(t, limits, owner, policy, request, clock(2));
    CaptureTaken(t, owner, request.audio, request.observation);
    PoolIsTheLiveCandidates(t, owner, limits, clock(3));
  }

  /** A discovery writes the candidate, its realm, the receipt of the turn and the voice profile, and nothing else. */
  ghost predicate DiscoveryWrites(
    t: Tables, u: Tables, owner: OwnerId, request: DiscoverRequest, id: PersonId, realm: RealmId, profile: ProfileId, now: real)
  {
    var value := request.observation;
    && owner in t.owners && id in u.persons && id in u.realms
    && FirstRow(u.persons[id], owner, PersonCreate(id, id, Candidate, false, 0), now)
    && FirstRealm(u.realms[id], owner, t.owners[owner].defaults, Candidate, realm)
    && u == t.(persons := t.persons[id := u.persons[id]], realms := t.realms[id := u.realms[id]],
               evidence := t.evidence + [EvidenceRow(owner, id, value.session, value.turn, request.audio, profile, 1, request.digest, value)],
               profiles := t.profiles[profile := VoiceProfile(owner, id, 1, request.sampleModel, request.sampleTemplate)])
  }

  lemma NewDiscoveryExactlyWhen(
    t: Tables, limits: Limits, owner: OwnerId, policy: Option<DiscoveryPolicy>, request: DiscoverRequest,
    id: PersonId, realm: RealmId, profile: ProfileId, clock: Clock, outcome: Outcome<Person>)
    requires outcome == DiscoverCandidate(t, limits, owner, policy, request, id, realm, profile, clock)
    requires NoReceiptOfTurn(t, owner, request.observation)
    ensures outcome.Done? <==>
              && policy.Some? && FitsPolicy(owner, policy.value, request) && owner in t.owners && t.owners[owner].status == OwnerActive
              && Discoverable(t, limits, owner, policy.value, request, id, profile, clock)
    ensures outcome.Done? ==>
              id in outcome.tables.persons && outcome.view == outcome.tables.persons[id]
              && DiscoveryWrites(t, outcome.tables, owner, request, id, realm, profile, clock(4))
  {
    TurnTaken(t, owner, request.observation);
    if policy.Some? { UnrefusedIsDiscoverable(t, limits, owner, policy.value, request, id, profile, clock); }
  }

  /** A turn that has a receipt is answered exactly for the same request and while its candidate is still there with its
      profile, without effect. */
  lemma RediscoveryExactlyWhen(
    t: Tables, limits: Limits, owner: OwnerId, policy: Option<DiscoveryPolicy>, request: DiscoverRequest,
    id: PersonId, realm: RealmId, profile: ProfileId, clock: Clock, outcome: Outcome<Person>)
    requires outcome == DiscoverCandidate(t, limits, owner, policy, request, id, realm, profile, clock)
    requires !NoReceiptOfTurn(t, owner, request.observation)
    ensures TurnRow(t.evidence, owner, request.observation).Some?
    ensures var prior := TurnRow(t.evidence, owner, request.observation).value;
            && (outcome.Done? <==>
                  && policy.Some? && FitsPolicy(owner, policy.value, request)
                  && prior.digest == request.digest && Hearable(t, owner, Some(prior.person)) && prior.profile in t.profiles)
            && (outcome.Done? ==> outcome.tables == t && outcome.view == t.persons[prior.person])
  {
    TurnTaken(t, owner, request.observation);
  }
}
