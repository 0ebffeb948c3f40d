/** What pairs of commands undo or repeat, and what a command of one owner never touches. */
module PeopleEffects {
  import opened Core
  import opened People
  import opened PeopleRuns

  /** Creating twice is creating once: the same request again answers the same row and changes nothing, whatever the
      generated realm and the clock. */
  lemma CreateIsRepeatable(
    t: Tables, limits: Limits, owner: OwnerId, request: PersonCreate, realm: RealmId, clock: Clock, realm': RealmId, clock': Clock)
    requires Create(t, limits, owner, request, realm, clock).Done?
    ensures var first := Create(t, limits, owner, request, realm, clock);
            Create(first.tables, limits, owner, request, realm', clock') == Done(first.tables, first.view)
  {
  }

  /** Restoring an archived person brings back everything but liveness: the row is the old one, inactive and two
      revisions on; its voice profiles stay gone, its realm stays off, and no other row was touched. */
  lemma ArchiveThenRestore(t: Tables, owner: OwnerId, id: PersonId, expected: int)
    requires Sound(t) && Archive(t, owner, id, expected).Done? && !t.persons[id].identityMissing
    requires id in t.realms ==> t.realms[id].status != RealmDeleting
    ensures var archived := Archive(t, owner, id, expected).tables;
            var restored := Restore(archived, owner, id, expected + 1);
            && restored.Done?
            && restored.view == t.persons[id].(status := Inactive, revision := expected + 2)
            && restored.tables.persons == t.persons[id := restored.view]
            && restored.tables.realms.Keys == t.realms.Keys
            && (forall other | other in t.realms && other != id :: restored.tables.realms[other] == t.realms[other])
            && (id in t.realms ==>
                  restored.tables.realms[id] == t.realms[id].(status := RealmInactive, provisional := NO_POLICY, preparationBlocked := true))
            && (forall p :: p in restored.tables.profiles <==> p in t.profiles && t.profiles[p].person != id)
            && restored.tables.evidence == t.evidence && restored.tables.receipts == t.receipts && restored.tables.owners == t.owners
  {
    if id in t.realms { assert RealmSound(t, id); }
  }

  /** A suspended memory comes back as the same realm, live, with its provisional permissions still off. */
  lemma SuspendThenRestoreMemory(t: Tables, owner: OwnerId, id: PersonId, expected: int)
    requires SuspendMemory(t, owner, id, expected).Done? && t.realms[id].status == RealmActive
    requires t.persons[id].maturity == Established && t.persons[id].status == Active
    ensures var suspended := SuspendMemory(t, owner, id, expected).tables;
            var restored := RestoreMemory(suspended, owner, id, expected + 1);
            && suspended.realms[id].status == RealmInactive
            && restored.Done?
            && restored.view == t.realms[id].(provisional := NO_POLICY, preparationBlocked := true)
            && restored.tables == t.(realms := t.realms[id := restored.view],
                                     persons := t.persons[id := t.persons[id].(revision := expected + 2)])
  {
  }

  /** An update writes exactly what it was asked, and takes the memory down exactly when it makes the person inactive. */
  lemma UpdateWritesTheRequest(
    t: Tables, limits: Limits, owner: OwnerId, id: PersonId, request: PersonUpdate, clock: Clock)
    requires Sound(t) && Update(t, limits, owner, id, request, clock).Done?
    ensures var (u, row, was) := (Update(t, limits, owner, id, request, clock).tables, Update(t, limits, owner, id, request, clock).view, t.persons[id]);
            && u.persons == t.persons[id := row] && was.revision == request.expectedRevision && row.revision == was.revision + 1
            && row.displayName == request.displayName && row.status == request.status && row.profile == request.profile
            && (request.isNamed.Some? ==> row.isNamed == request.isNamed.value) && (request.isNamed.None? ==> row.isNamed == was.isNamed)
            && row.owner == was.owner && row.maturity == was.maturity && row.recognition == was.recognition
            && row.activityAt == was.activityAt && row.deleted == was.deleted
            && u.evidence == t.evidence && u.profiles == t.profiles && u.receipts == t.receipts && u.owners == t.owners
            && (forall other | other != id :: (other in u.realms <==> other in t.realms) && (other in t.realms ==> u.realms[other] == t.realms[other]))
            && (id in t.realms && request.status == Active ==> u.realms == t.realms)
            && (id in t.realms && request.status == Inactive ==>
                  u.realms[id] == t.realms[id].(status := RealmInactive, provisional := NO_POLICY, preparationBlocked := true))
  {
    if id in t.realms { assert RealmSound(t, id); }
  }

  // ----- Owners are apart -----------------------------------------------------

  /** The receipts of one owner. */
  function EvidenceOfOwner(rows: seq<EvidenceRow>, o: OwnerId): seq<EvidenceRow> {
    if rows == [] then [] else (if rows[0].owner == o then [rows[0]] else []) + EvidenceOfOwner(rows[1..], o)
  }

  lemma {:induction false} AppendedElsewhere(rows: seq<EvidenceRow>, row: EvidenceRow, o: OwnerId)
    requires row.owner != o
    ensures EvidenceOfOwner(rows + [row], o) == EvidenceOfOwner(rows, o)
  {
    if rows == [] {
      assert [] + [row] == [row] && [row][1..] == [];
    } else {
      AppendedElsewhere(rows[1..], row, o);
      assert (rows + [row])[1..] == rows[1..] + [row];
    }
  }

  lemma {:induction false} ErasedElsewhere(rows: seq<EvidenceRow>, owner: OwnerId, id: PersonId, o: OwnerId)
    requires owner != o
    ensures EvidenceOfOwner(WithoutEvidenceOf(rows, owner, id), o) == EvidenceOfOwner(rows, o)
  {
    if rows != [] {
      ErasedElsewhere(rows[1..], owner, id, o);
      var rest := WithoutEvidenceOf(rows[1..], owner, id);
      if rows[0].owner == owner && rows[0].person == id {
        assert WithoutEvidenceOf(rows, owner, id) == rest;
      } else {
        assert WithoutEvidenceOf(rows, owner, id) == [rows[0]] + rest;
        assert ([rows[0]] + rest)[1..] == rest;
      }
    }
  }

  ghost predicate SamePersons(t: Tables, u: Tables, o: OwnerId) {
    && (forall id | id in t.persons && t.persons[id].owner == o :: id in u.persons && u.persons[id] == t.persons[id])
    && (forall id | id in u.persons && u.persons[id].owner == o :: id in t.persons && t.persons[id] == u.persons[id])
  }

  ghost predicate SameRealms(t: Tables, u: Tables, o: OwnerId) {
    && (forall id | id in t.realms && t.realms[id].owner == o :: id in u.realms && u.realms[id] == t.realms[id])
    && (forall id | id in u.realms && u.realms[id].owner == o :: id in t.realms && t.realms[id] == u.realms[id])
  }

  ghost predicate SameReceipts(t: Tables, u: Tables, o: OwnerId) {
    && (forall id | id in t.receipts && t.receipts[id].owner == o :: id in u.receipts && u.receipts[id] == t.receipts[id])
    && (forall id | id in u.receipts && u.receipts[id].owner == o :: id in t.receipts && t.receipts[id] == u.receipts[id])
  }

  /** Owner o's persons, realms, deletion receipts, voice receipts and own row are the same. */
  ghost predicate SameRowsFor(t: Tables, u: Tables, o: OwnerId) {
    && SamePersons(t, u, o) && SameRealms(t, u, o) && SameReceipts(t, u, o)
    && EvidenceOfOwner(u.evidence, o) == EvidenceOfOwner(t.evidence, o)
    && (o in t.owners <==> o in u.owners) && (o in t.owners ==> u.owners[o] == t.owners[o])
  }

  lemma DeletionElsewhere(t: Tables, owner: OwnerId, id: PersonId, expected: int, complete: bool, o: OwnerId)
    requires Sound(t) && owner != o
    ensures SameRowsFor(t, After(t, PermanentDelete(t, owner, id, expected, complete)), o)
  {
    if id in t.receipts && id in t.persons && t.persons[id].owner != o {
      assert ReceiptSound(t, id);
      ErasedElsewhere(t.evidence, t.persons[id].owner, id, o);
    }
    if id in t.realms { assert RealmSound(t, id); }
  }

  /** At most person id's rows differ, and they are this owner's. */
  ghost predicate OnlyOwn(t: Tables, u: Tables, owner: OwnerId, id: PersonId) {
    && u.receipts == t.receipts && u.evidence == t.evidence && u.owners == t.owners
    && (exists row: Person :: row.owner == owner && (u.persons == t.persons || u.persons == t.persons[id := row]))
    && (exists realm: Realm :: realm.owner == owner && (u.realms == t.realms || u.realms == t.realms[id := realm]))
    && (id in t.persons && u.persons != t.persons ==> t.persons[id].owner == owner)
    && (id in t.realms && u.realms != t.realms ==> t.realms[id].owner == owner)
  }

  lemma OnlyOwnIsElsewhere(t: Tables, u: Tables, owner: OwnerId, id: PersonId, o: OwnerId)
    requires OnlyOwn(t, u, owner, id) && owner != o
    ensures SameRowsFor(t, u, o)
  {
  }

  lemma CreateOnlyOwn(t: Tables, limits: Limits, owner: OwnerId, request: PersonCreate, realm: RealmId, clock: Clock)
    ensures OnlyOwn(t, After(t, Create(t, limits, owner, request, realm, clock)), owner, request.id)
  {
    var (row, bound) := (NewPerson(owner, request, clock(1)), Realm(realm, owner, RealmInactive, NO_POLICY, false, false));
    assert row.owner == owner && bound.owner == owner;
    if owner in t.owners { assert NewRealm(owner, t.owners[owner], request.maturity, realm).owner == owner; }
  }

  lemma UpdateOnlyOwn(t: Tables, limits: Limits, owner: OwnerId, id: PersonId, request: PersonUpdate, clock: Clock)
    requires Sound(t)
    ensures OnlyOwn(t, After(t, Update(t, limits, owner, id, request, clock)), owner, id)
  {
    OwnRows(t, After(t, Update(t, limits, owner, id, request, clock)), owner, id);
  }

  lemma ArchiveOnlyOwn(t: Tables, owner: OwnerId, id: PersonId, expected: int)
    requires Sound(t)
    ensures OnlyOwn(t, After(t, Archive(t, owner, id, expected)), owner, id)
  {
    OwnRows(t, After(t, Archive(t, owner, id, expected)), owner, id);
  }

  lemma RestoreOnlyOwn(t: Tables, owner: OwnerId, id: PersonId, expected: int)
    requires Sound(t)
    ensures OnlyOwn(t, After(t, Restore(t, owner, id, expected)), owner, id)
  {
    OwnRows(t, After(t, Restore(t, owner, id, expected)), owner, id);
  }

  lemma RetireOnlyOwn(t: Tables, owner: OwnerId, id: PersonId, expected: int)
    requires Sound(t)
    ensures OnlyOwn(t, After(t, RetireCandidate(t, owner, id, expected)), owner, id)
  {
    OwnRows(t, After(t, RetireCandidate(t, owner, id, expected)), owner, id);
  }

  /** Rows written at a key the owner already held. */
  lemma OwnRows(t: Tables, u: Tables, owner: OwnerId, id: PersonId)
    requires u.receipts == t.receipts && u.evidence == t.evidence && u.owners == t.owners
    requires u.persons == t.persons ||
               (id in t.persons && t.persons[id].owner == owner && id in u.persons && u.persons[id].owner == owner
                && u.persons == t.persons[id := u.persons[id]])
    requires u.realms == t.realms ||
               (id in t.realms && t.realms[id].owner == owner && id in u.realms && u.realms[id].owner == owner
                && u.realms == t.realms[id := u.realms[id]])
    ensures OnlyOwn(t, u, owner, id)
  {
    var row := Person(owner, 0, false, 0, Active, false, Candidate, Recognizable, None, false, 0);
    var realm := Realm(0, owner, RealmInactive, NO_POLICY, false, false);
    assert row.owner == owner && realm.owner == owner;
  }

  lemma PersonsElsewhere(t: Tables, limits: Limits, owner: OwnerId, c: PersonCommand, clock: Clock, o: OwnerId)
    requires Sound(t) && owner != o
    ensures SameRowsFor(t, StepPersons(t, limits, owner, c, clock), o)
  {
    var u := StepPersons(t, limits, owner, c, clock);
    match c
    case CmdDelete(id, expected, complete) => DeletionElsewhere(t, owner, id, expected, complete, o);
    case CmdCreate(created, realm) =>
      CreateOnlyOwn(t, limits, owner, created, realm, clock);
      OnlyOwnIsElsewhere(t, u, owner, created.id, o);
    case CmdUpdate(id, update) =>
      UpdateOnlyOwn(t, limits, owner, id, update, clock);
      OnlyOwnIsElsewhere(t, u, owner, id, o);
    case CmdRetire(id, expected) =>
      RetireOnlyOwn(t, owner, id, expected);
      OnlyOwnIsElsewhere(t, u, owner, id, o);
    case CmdArchive(id, expected) =>
      ArchiveOnlyOwn(t, owner, id, expected);
      OnlyOwnIsElsewhere(t, u, owner, id, o);
    case CmdRestore(id, expected) =>
      RestoreOnlyOwn(t, owner, id, expected);
      OnlyOwnIsElsewhere(t, u, owner, id, o);
  }

  lemma PolicyElsewhere(
    t: Tables, limits: Limits, owner: OwnerId, id: PersonId, at: Option<int>, policy: Option<Policy>, session: Session, clock: Clock,
    o: OwnerId)
    requires owner != o
    ensures SameRowsFor(t, After(t, ProvisionalMemoryPolicy(t, limits, owner, id, at, policy, session, clock)), o)
  {
  }

  lemma RealmElsewhere(t: Tables, owner: OwnerId, id: PersonId, create: bool, realm: RealmId, o: OwnerId)
    requires Sound(t) && owner != o
    ensures SameRowsFor(t, After(t, MemoryRealm(t, owner, id, create, realm)), o)
  {
    if id in t.realms { assert RealmSound(t, id); }
  }

  lemma SuspensionElsewhere(t: Tables, owner: OwnerId, id: PersonId, expected: int, o: OwnerId)
    requires Sound(t) && owner != o
    ensures SameRowsFor(t, After(t, SuspendMemory(t, owner, id, expected)), o)
  {
    if id in t.realms { assert RealmSound(t, id); }
  }

  lemma RevivalElsewhere(t: Tables, owner: OwnerId, id: PersonId, expected: int, o: OwnerId)
    requires Sound(t) && owner != o
    ensures SameRowsFor(t, After(t, RestoreMemory(t, owner, id, expected)), o)
  {
    if id in t.realms { assert RealmSound(t, id); }
  }

  lemma MemoryElsewhere(t: Tables, limits: Limits, owner: OwnerId, c: MemoryCommand, clock: Clock, o: OwnerId)
    requires Sound(t) && owner != o
    ensures SameRowsFor(t, StepMemory(t, limits, owner, c, clock), o)
  {
    match c
    case CmdDefaults(at, defaults) =>
    case CmdRealm(id, create, realm) => RealmElsewhere(t, owner, id, create, realm, o);
    case CmdSuspend(id, expected) => SuspensionElsewhere(t, owner, id, expected, o);
    case CmdRestoreMemory(id, expected) => RevivalElsewhere(t, owner, id, expected, o);
    case CmdPolicy(id, at, policy, session) => PolicyElsewhere(t, limits, owner, id, at, policy, session, clock, o);
  }

  lemma DiscoveryElsewhere(
    t: Tables, limits: Limits, owner: OwnerId, policy: Option<DiscoveryPolicy>, request: DiscoverRequest, id: PersonId,
    realm: RealmId, profile: ProfileId, clock: Clock, o: OwnerId)
    requires owner != o
    ensures SameRowsFor(t, After(t, DiscoverCandidate(t, limits, owner, policy, request, id, realm, profile, clock)), o)
  {
    var u := After(t, DiscoverCandidate(t, limits, owner, policy, request, id, realm, profile, clock));
    DiscoverEffect(t, limits, owner, policy, request, id, realm, profile, clock);
    if u != t {
      assert u.evidence == t.evidence + [u.evidence[|t.evidence|]];
      AppendedElsewhere(t.evidence, u.evidence[|t.evidence|], o);
    }
  }

  /** An accepted turn adds one receipt of its owner and writes its candidate's rows only. */
  lemma EvidenceRows(t: Tables, owner: OwnerId, promotion: Option<PromotionPolicy>, request: EvidenceRequest, clock: Clock, o: OwnerId)
    requires Sound(t) && owner != o && owner in t.owners && request.observation.profile.Some?
    requires request.observation.person.Some? && SpeakerRefusal(t, owner, request.observation.person.value).None?
    ensures SameRowsFor(t, WithEvidence(t, owner, promotion, request, clock), o)
  {
    var u := WithEvidence(t, owner, promotion, request, clock);
    assert u.evidence == t.evidence + [u.evidence[|t.evidence|]];
    AppendedElsewhere(t.evidence, u.evidence[|t.evidence|], o);
  }

  lemma EvidenceElsewhere(
    t: Tables, limits: Limits, owner: OwnerId, discovery: Option<DiscoveryPolicy>, promotion: Option<PromotionPolicy>,
    request: EvidenceRequest, clock: Clock, o: OwnerId)
    requires Sound(t) && owner != o
    ensures SameRowsFor(t, After(t, RecordEvidence(t, limits, owner, discovery, promotion, request, clock)), o)
  {
    var u := After(t, RecordEvidence(t, limits, owner, discovery, promotion, request, clock));
    EvidenceEffect(t, limits, owner, discovery, promotion, request, clock);
    if u != t {
      EvidenceRows(t, owner, promotion, request, clock, o);
    }
  }

  lemma SweepElsewhere(t: Tables, limits: Limits, owner: OwnerId, chosen: set<PersonId>, now: real, o: OwnerId)
    requires owner != o
    ensures SameRowsFor(t, After(t, Sweep(t, limits, owner, chosen, now)), o)
  {
  }

  lemma VoiceElsewhere(t: Tables, limits: Limits, owner: OwnerId, c: VoiceCommand, clock: Clock, o: OwnerId)
    requires Sound(t) && owner != o
    ensures SameRowsFor(t, StepVoice(t, limits, owner, c, clock), o)
  {
    match c
    case CmdDiscover(policy, request, id, realm, profile) =>
      DiscoveryElsewhere(t, limits, owner, policy, request, id, realm, profile, clock, o);
    case CmdEvidence(discovery, promotion, request) => EvidenceElsewhere(t, limits, owner, discovery, promotion, request, clock, o);
    case CmdSweep(chosen) => SweepElsewhere(t, limits, owner, chosen, clock(0), o);
    case _ =>
  }

  lemma OwnerElsewhere(t: Tables, owner: OwnerId, c: OwnerCommand, o: OwnerId)
    requires owner != o
    ensures SameRowsFor(t, StepOwners(t, owner, c), o)
  {
  }

  lemma StepElsewhere(t: Tables, limits: Limits, e: Event, o: OwnerId)
    requires Sound(t) && e.owner != o
    ensures SameRowsFor(t, Step(t, limits, e), o)
  {
    match e.command
    case Persons(c) => PersonsElsewhere(t, limits, e.owner, c, e.clock, o);
    case Memory(c) => MemoryElsewhere(t, limits, e.owner, c, e.clock, o);
    case Voice(c) => VoiceElsewhere(t, limits, e.owner, c, e.clock, o);
    case Owners(c) => OwnerElsewhere(t, e.owner, c, o);
  }

  lemma SameRowsForTransitive(t: Tables, m: Tables, u: Tables, o: OwnerId)
    requires SameRowsFor(t, m, o) && SameRowsFor(m, u, o)
    ensures SameRowsFor(t, u, o)
  {
  }

  // ----- Voice profiles ---------------------------------------------------------

  /** A profile's person exists and has the profile's owner. */
  ghost predicate ProfilesOwned(t: Tables) {
    forall p | p in t.profiles :: t.profiles[p].person in t.persons && t.persons[t.profiles[p].person].owner == t.profiles[p].owner
  }

  ghost predicate SameProfiles(t: Tables, u: Tables, o: OwnerId) {
    && (forall p | p in t.profiles && t.profiles[p].owner == o :: p in u.profiles && u.profiles[p] == t.profiles[p])
    && (forall p | p in u.profiles && u.profiles[p].owner == o :: p in t.profiles && t.profiles[p] == u.profiles[p])
  }

  /** Only this owner's profiles change, and those it has belong to its persons. */
  ghost predicate ProfilesKept(t: Tables, u: Tables, owner: OwnerId) {
    && (forall o | o != owner :: SameProfiles(t, u, o))
    && (forall p | p in u.profiles && u.profiles[p].owner == owner ::
          u.profiles[p].person in u.persons && u.persons[u.profiles[p].person].owner == owner)
  }

  lemma DeletionProfiles(t: Tables, owner: OwnerId, id: PersonId, expected: int, complete: bool)
    requires Sound(t) && ProfilesOwned(t)
    ensures ProfilesKept(t, After(t, PermanentDelete(t, owner, id, expected, complete)), owner)
  {
    if id in t.receipts { assert ReceiptSound(t, id); }
  }

  lemma ArchiveProfiles(t: Tables, owner: OwnerId, id: PersonId, expected: int)
    requires ProfilesOwned(t)
    ensures ProfilesKept(t, After(t, Archive(t, owner, id, expected)), owner)
  {
  }

  lemma PersonsProfiles(t: Tables, limits: Limits, owner: OwnerId, c: PersonCommand, clock: Clock)
    requires Sound(t) && ProfilesOwned(t)
    ensures ProfilesKept(t, StepPersons(t, limits, owner, c, clock), owner)
  {
    match c
    case CmdDelete(id, expected, complete) => DeletionProfiles(t, owner, id, expected, complete);
    case CmdArchive(id, expected) => ArchiveProfiles(t, owner, id, expected);
    case _ =>
  }

  lemma MemoryProfiles(t: Tables, limits: Limits, owner: OwnerId, c: MemoryCommand, clock: Clock)
    requires ProfilesOwned(t)
    ensures ProfilesKept(t, StepMemory(t, limits, owner, c, clock), owner)
  {
  }

  lemma DiscoveredProfile(
    t: Tables, owner: OwnerId, request: DiscoverRequest, id: PersonId, realm: RealmId, profile: ProfileId, now: real)
    requires ProfilesOwned(t) && owner in t.owners && id !in t.persons && profile !in t.profiles
    ensures ProfilesKept(t, WithDiscovery(t, owner, request, id, realm, profile, now), owner)
  {
  }

  lemma DiscoveryProfiles(
    t: Tables, limits: Limits, owner: OwnerId, policy: Option<DiscoveryPolicy>, request: DiscoverRequest, id: PersonId,
    realm: RealmId, profile: ProfileId, clock: Clock, u: Tables)
    requires ProfilesOwned(t) && u == After(t, DiscoverCandidate(t, limits, owner, policy, request, id, realm, profile, clock))
    ensures ProfilesKept(t, u, owner)
  {
    DiscoverEffect(t, limits, owner, policy, request, id, realm, profile, clock);
    if u != t {
      DiscoveredProfile(t, owner, request, id, realm, profile, clock(4));
    }
  }

  lemma EvidenceKeepsProfiles(t: Tables, owner: OwnerId, promotion: Option<PromotionPolicy>, request: EvidenceRequest, clock: Clock)
    requires ProfilesOwned(t) && owner in t.owners && request.observation.profile.Some?
    requires request.observation.person.Some? && SpeakerRefusal(t, owner, request.observation.person.value).None?
    ensures ProfilesKept(t, WithEvidence(t, owner, promotion, request, clock), owner)
  {
  }

  lemma EvidenceProfiles(
    t: Tables, limits: Limits, owner: OwnerId, discovery: Option<DiscoveryPolicy>, promotion: Option<PromotionPolicy>,
    request: EvidenceRequest, clock: Clock, u: Tables)
    requires ProfilesOwned(t) && u == After(t, RecordEvidence(t, limits, owner, discovery, promotion, request, clock))
    ensures ProfilesKept(t, u, owner)
  {
    EvidenceEffect(t, limits, owner, discovery, promotion, request, clock);
    if u != t {
      EvidenceKeepsProfiles(t, owner, promotion, request, clock);
    }
  }

  lemma VoiceProfiles(t: Tables, limits: Limits, owner: OwnerId, c: VoiceCommand, clock: Clock)
    requires ProfilesOwned(t)
    ensures ProfilesKept(t, StepVoice(t, limits, owner, c, clock), owner)
  {
    match c
    case CmdDiscover(policy, request, id, realm, profile) =>
      DiscoveryProfiles(t, limits, owner, policy, request, id, realm, profile, clock, StepVoice(t, limits, owner, c, clock));
    case CmdEvidence(discovery, promotion, request) =>
      EvidenceProfiles(t, limits, owner, discovery, promotion, request, clock, StepVoice(t, limits, owner, c, clock));
    case _ =>
  }

  lemma StepProfiles(t: Tables, limits: Limits, e: Event)
    requires Sound(t) && ProfilesOwned(t)
    ensures ProfilesKept(t, Step(t, limits, e), e.owner)
  {
    match e.command
    case Persons(c) => PersonsProfiles(t, limits, e.owner, c, e.clock);
    case Memory(c) => MemoryProfiles(t, limits, e.owner, c, e.clock);
    case Voice(c) => VoiceProfiles(t, limits, e.owner, c, e.clock);
    case Owners(c) =>
  }

  lemma KeptProfilesAreOwned(t: Tables, u: Tables, owner: OwnerId)
    requires ProfilesOwned(t) && ProfilesKept(t, u, owner) && forall o | o != owner :: SamePersons(t, u, o)
    ensures ProfilesOwned(u)
  {
    forall p | p in u.profiles && u.profiles[p].owner != owner
      ensures u.profiles[p].person in u.persons && u.persons[u.profiles[p].person].owner == u.profiles[p].owner
    {
      var o := u.profiles[p].owner;
      assert SameProfiles(t, u, o) && SamePersons(t, u, o);
    }
  }

  lemma StepKeepsProfilesOwned(t: Tables, limits: Limits, e: Event)
    requires Sound(t) && ProfilesOwned(t)
    ensures ProfilesOwned(Step(t, limits, e))
  {
    StepProfiles(t, limits, e);
    forall o | o != e.owner ensures SamePersons(t, Step(t, limits, e), o) {
      StepElsewhere(t, limits, e, o);
    }
    KeptProfilesAreOwned(t, Step(t, limits, e), e.owner);
  }

  /** Nothing of owner o differs. */
  ghost predicate SameFor(t: Tables, u: Tables, o: OwnerId) {
    SameRowsFor(t, u, o) && SameProfiles(t, u, o)
  }

  /** In every reachable state a voice profile's person exists and has the profile's owner. */
  lemma {:induction false} RunKeepsProfilesOwned(t: Tables, limits: Limits, events: seq<Event>)
    requires Sound(t) && ProfilesOwned(t)
    ensures ProfilesOwned(Run(t, limits, events))
    decreases |events|
  {
    if events != [] {
      StepKeepsSound(t, limits, events[0]);
      StepKeepsProfilesOwned(t, limits, events[0]);
      RunKeepsProfilesOwned(Step(t, limits, events[0]), limits, events[1..]);
    }
  }

  lemma {:induction false} RowsIsolated(t: Tables, limits: Limits, events: seq<Event>, o: OwnerId)
    requires Sound(t) && forall e | e in events :: e.owner != o
    ensures SameRowsFor(t, Run(t, limits, events), o)
    decreases |events|
  {
    if events != [] {
      var m := Step(t, limits, events[0]);
      assert events[0] in events;
      StepKeepsSound(t, limits, events[0]);
      StepElsewhere(t, limits, events[0], o);
      RowsIsolated(m, limits, events[1..], o);
      SameRowsForTransitive(t, m, Run(t, limits, events), o);
    }
  }

  lemma StepProfilesElsewhere(t: Tables, limits: Limits, e: Event, o: OwnerId, u: Tables)
    requires Sound(t) && ProfilesOwned(t) && e.owner != o && u == Step(t, limits, e)
    ensures Sound(u) && ProfilesOwned(u) && SameProfiles(t, u, o)
  {
    StepKeepsSound(t, limits, e);
    StepProfiles(t, limits, e);
    StepKeepsProfilesOwned(t, limits, e);
  }

  lemma SameProfilesTransitive(t: Tables, m: Tables, u: Tables, o: OwnerId)
    requires SameProfiles(t, m, o) && SameProfiles(m, u, o)
    ensures SameProfiles(t, u, o)
  {
  }

  lemma {:induction false} ProfilesIsolated(t: Tables, limits: Limits, events: seq<Event>, o: OwnerId)
    requires Sound(t) && ProfilesOwned(t) && forall e | e in events :: e.owner != o
    ensures SameProfiles(t, Run(t, limits, events), o)
    decreases |events|
  {
    if events != [] {
      var m := Step(t, limits, events[0]);
      assert events[0] in events;
      StepProfilesElsewhere(t, limits, events[0], o, m);
      ProfilesIsolated(m, limits, events[1..], o);
      SameProfilesTransitive(t, m, Run(t, limits, events), o);
    }
  }

  /** Whatever the other owners do, in any run, an owner's persons, realms, deletion receipts, voice receipts, voice
      profiles and own row stay exactly as they were. */
  lemma OwnersAreIsolated(t: Tables, limits: Limits, events: seq<Event>, o: OwnerId)
    requires Sound(t) && ProfilesOwned(t) && forall e | e in events :: e.owner != o
    ensures SameFor(t, Run(t, limits, events), o)
  {
    RowsIsolated(t, limits, events, o);
    ProfilesIsolated(t, limits, events, o);
  }
}
