/** When exactly each person and memory command is accepted, read off the rows before it, and what it then writes. */
module PeopleAnswers {
  import opened Core
  import opened People
  import opened PeopleRuns

  /** The owner is active and has this person, not archived. */
  predicate Reaches(t: Tables, owner: OwnerId, id: PersonId) {
    && owner in t.owners && t.owners[owner].status == OwnerActive
    && id in t.persons && t.persons[id].owner == owner && !t.persons[id].deleted
  }

  /** The candidates the runtime may compare a voice with at this instant. */
  function LiveCandidates(t: Tables, owner: OwnerId, limits: Limits, now: real): set<PersonId> {
    set id | id in t.persons && t.persons[id].owner == owner && t.persons[id].maturity == Candidate && t.persons[id].status == Active
             && !t.persons[id].deleted && t.persons[id].recognition == Recognizable
             && t.persons[id].activityAt.Some? && now < t.persons[id].activityAt.value + limits.ttl
  }

  lemma PoolIsTheLiveCandidates(t: Tables, owner: OwnerId, limits: Limits, now: real)
    ensures Pool(t, owner, limits, now) == LiveCandidates(t, owner, limits, now)
  {
    forall id ensures id in Pool(t, owner, limits, now) <==> id in LiveCandidates(t, owner, limits, now) {}
  }

  // ----- Persons ------------------------------------------------------------------

  /** A person is created exactly under an id that is new everywhere, with room in the pool for a candidate; the same request
      again is answered, anything else under the id refused. */
  lemma CreationAcceptedExactlyWhen(t: Tables, limits: Limits, owner: OwnerId, request: PersonCreate, realm: RealmId, clock: Clock)
    ensures var (outcome, id) := (Create(t, limits, owner, request, realm, clock), request.id);
            && (outcome.Done? <==>
                  && owner in t.owners && t.owners[owner].status == OwnerActive && id !in t.receipts
                  && if id in t.persons then
                       var row := t.persons[id];
                       && row.owner == owner && !row.deleted && row.maturity == request.maturity && row.isNamed == request.isNamed
                       && row.displayName == request.displayName && row.profile == request.profile
                     else
                       && id !in t.realms
                       && (request.maturity == Candidate ==> |LiveCandidates(t, owner, limits, clock(0))| < limits.maxCandidates))
            && (outcome.Done? && id in t.persons ==> outcome.tables == t && outcome.view == t.persons[id])
            && (outcome.Done? && id !in t.persons ==>
                  && outcome.tables == t.(persons := t.persons[id := outcome.view], realms := t.realms[id := outcome.tables.realms[id]])
                  && FirstRow(outcome.view, owner, request, clock(1))
                  && FirstRealm(outcome.tables.realms[id], owner, t.owners[owner].defaults, request.maturity, realm))
  {
    PoolIsTheLiveCandidates(t, owner, limits, clock(0));
  }

  /** The row of a person just created: active, recognisable, and a candidate seen just now. */
  predicate FirstRow(row: Person, owner: OwnerId, request: PersonCreate, now: real) {
    && row.owner == owner && row.displayName == request.displayName && row.isNamed == request.isNamed && row.profile == request.profile
    && row.status == Active && !row.deleted && row.maturity == request.maturity && row.recognition == Recognizable
    && row.activityAt == (if request.maturity == Candidate then Some(now) else None) && !row.identityMissing && row.revision == 1
  }

  /** A candidate's memory is off, with what the owner's defaults permit meanwhile; an established person's is on. */
  predicate FirstRealm(realm: Realm, owner: OwnerId, defaults: MemoryDefaults, maturity: Maturity, id: RealmId) {
    && realm.id == id && realm.owner == owner && !realm.preparationBlocked
    && realm.status == (if maturity == Candidate then RealmInactive else RealmActive)
    && realm.provisional == (if maturity == Candidate then defaults.candidate else Policy(false, false))
    && (realm.fromDefaults <==> maturity == Candidate)
  }

  /** An update is accepted exactly at the revision expected, and putting a live candidate back needs its activity time and,
      unless it is expired, room in the pool. It writes the request, and making inactive takes the memory down. */
  lemma UpdateAcceptedExactlyWhen(t: Tables, limits: Limits, owner: OwnerId, id: PersonId, request: PersonUpdate, clock: Clock)
    ensures Update(t, limits, owner, id, request, clock).Done? <==>
              && Reaches(t, owner, id) && t.persons[id].revision == request.expectedRevision
              && var row := t.persons[id];
                 (row.maturity == Candidate && row.status == Inactive && request.status == Active && row.recognition == Recognizable ==>
                    && row.activityAt.Some?
                    && (clock(0) < row.activityAt.value + limits.ttl ==>
                          |LiveCandidates(t, owner, limits, clock(1))| < limits.maxCandidates))
    ensures var outcome := Update(t, limits, owner, id, request, clock);
            outcome.Done? ==>
              && outcome.view == t.persons[id].(
                   displayName := request.displayName, status := request.status, profile := request.profile,
                   isNamed := if request.isNamed.Some? then request.isNamed.value else t.persons[id].isNamed,
                   revision := request.expectedRevision + 1)
              && outcome.tables == t.(persons := t.persons[id := outcome.view],
                                      realms := if request.status == Inactive then Quieted(t, owner, id) else t.realms)
  {
    PoolIsTheLiveCandidates(t, owner, limits, clock(1));
  }

  /** A candidate is retired exactly at the revision expected, once. */
  lemma RetirementAcceptedExactlyWhen(t: Tables, owner: OwnerId, id: PersonId, expected: int)
    ensures var outcome := RetireCandidate(t, owner, id, expected);
            && (outcome.Done? <==> Reaches(t, owner, id) && t.persons[id].revision == expected && t.persons[id].maturity == Candidate)
            && (outcome.Done? ==>
                  var row := t.persons[id];
                  && outcome.view == (if row.recognition == Retained then row else row.(recognition := Retained, revision := row.revision + 1))
                  && outcome.tables == t.(persons := t.persons[id := outcome.view]))
  {
    if id in t.persons { assert t.persons[id := t.persons[id]] == t.persons; }
  }

  /** A realm after its memory was taken down: off, with nothing permitted and no preparation on promotion. */
  function Quiet(realm: Realm): Realm {
    realm.(status := RealmInactive, provisional := Policy(false, false), preparationBlocked := true)
  }

  /** The realms with this person's, if the owner has it, taken down. */
  function Quieted(t: Tables, owner: OwnerId, id: PersonId): map<PersonId, Realm> {
    if id in t.realms && t.realms[id].owner == owner then t.realms[id := Quiet(t.realms[id])] else t.realms
  }

  /** A person is archived exactly at the revision expected; row, memory and voice profiles change together. */
  lemma ArchiveAcceptedExactlyWhen(t: Tables, owner: OwnerId, id: PersonId, expected: int)
    ensures var outcome := Archive(t, owner, id, expected);
            && (outcome.Done? <==> Reaches(t, owner, id) && t.persons[id].revision == expected)
            && (outcome.Done? ==>
                  && outcome.tables.persons == t.persons[id := t.persons[id].(deleted := true, status := Inactive, revision := expected + 1)]
                  && outcome.tables.realms == Quieted(t, owner, id)
                  && (forall p :: p in outcome.tables.profiles <==> p in t.profiles && t.profiles[p].person != id)
                  && (forall p | p in outcome.tables.profiles :: outcome.tables.profiles[p] == t.profiles[p])
                  && outcome.tables.owners == t.owners && outcome.tables.receipts == t.receipts && outcome.tables.evidence == t.evidence)
  {
  }

  /** It is restored exactly while archived, with its identity known and no erasure pending; it comes back inactive. */
  lemma RestoreAcceptedExactlyWhen(t: Tables, owner: OwnerId, id: PersonId, expected: int)
    ensures var outcome := Restore(t, owner, id, expected);
            && (outcome.Done? <==>
                  && owner in t.owners && t.owners[owner].status == OwnerActive && id in t.persons && t.persons[id].owner == owner
                  && t.persons[id].deleted && t.persons[id].revision == expected && !t.persons[id].identityMissing
                  && (id in t.realms ==> t.realms[id].status != RealmDeleting))
            && (outcome.Done? ==>
                  && outcome.view == t.persons[id].(deleted := false, status := Inactive, revision := expected + 1)
                  && outcome.tables == t.(persons := t.persons[id := outcome.view], realms := Quieted(t, owner, id)))
  {
  }

  /** A deletion is requested exactly for an archived person with a realm at the revision expected; afterwards it is answered
      at the receipt's revision, or at the person's own while the request is repeated; completion needs the request. */
  lemma DeletionAcceptedExactlyWhen(t: Tables, owner: OwnerId, id: PersonId, expected: int, complete: bool)
    requires Sound(t)
    ensures var outcome := PermanentDelete(t, owner, id, expected, complete);
            && (outcome.Done? <==>
                  && owner in t.owners && t.owners[owner].status == OwnerActive
                  && if id in t.receipts then
                       && t.receipts[id].owner == owner
                       && (expected == t.receipts[id].revision || (!complete && id in t.persons && expected == t.persons[id].revision))
                     else
                       && !complete && id in t.persons && t.persons[id].owner == owner && t.persons[id].deleted
                       && t.persons[id].revision == expected && id in t.realms && t.realms[id].owner == owner)
            && (outcome.Done? && id !in t.receipts ==>
                  && outcome.view == Receipt(owner, t.realms[id].id, expected, false)
                  && outcome.tables == t.(receipts := t.receipts[id := outcome.view],
                                          realms := t.realms[id := t.realms[id].(status := RealmDeleting)],
                                          persons := t.persons[id := t.persons[id].(revision := expected + 1)]))
            && (outcome.Done? && id in t.receipts && (t.receipts[id].completed || !complete) ==>
                  outcome.tables == t && outcome.view == t.receipts[id])
            && (outcome.Done? && id in t.receipts && !t.receipts[id].completed && complete ==>
                  outcome.view == t.receipts[id].(completed := true) && id !in outcome.tables.persons)
  {
    if id in t.receipts { assert ReceiptSound(t, id); }
  }

  // ----- Memory -------------------------------------------------------------------

  /** Defaults change exactly at the owner revision expected. */
  lemma DefaultsAcceptedExactlyWhen(t: Tables, owner: OwnerId, expected: Option<int>, policy: MemoryDefaults)
    ensures var outcome := SetMemoryDefaults(t, owner, expected, policy);
            && (outcome.Done? <==> owner in t.owners && t.owners[owner].status == OwnerActive && expected == Some(t.owners[owner].revision))
            && (outcome.Done? ==>
                  var row := t.owners[owner];
                  && outcome.view == (if row.defaults == policy then row else row.(defaults := policy, revision := row.revision + 1))
                  && outcome.tables == t.(owners := t.owners[owner := outcome.view]))
  {
    if owner in t.owners { assert t.owners[owner := t.owners[owner]] == t.owners; }
  }

  /** What a session may use now: nothing of an inactive, retained or expired person. */
  predicate Usable(row: Person, limits: Limits, now: real) {
    && row.status == Active && row.recognition == Recognizable
    && (row.maturity == Established || (row.activityAt.Some? && now < row.activityAt.value + limits.ttl))
  }

  /** The provisional policy is read or written exactly for a person with a realm; a write, and a read for a session, must
      name the revision, and an inactive person is granted nothing. The answer shows a session only what is usable now. */
  lemma PolicyAcceptedExactlyWhen(
    t: Tables, limits: Limits, owner: OwnerId, id: PersonId, expected: Option<int>, policy: Option<Policy>, session: Session, clock: Clock)
    ensures var outcome := ProvisionalMemoryPolicy(t, limits, owner, id, expected, policy, session, clock);
            && (outcome.Done? <==>
                  && session != BadSession && Reaches(t, owner, id) && id in t.realms && t.realms[id].owner == owner
                  && (if expected.Some? then t.persons[id].revision == expected.value else policy.None? && session == NoSession)
                  && (policy.Some? && t.persons[id].status == Inactive ==> policy.value == Policy(false, false)))
            && (outcome.Done? ==>
                  var (row, realm) := (t.persons[id], t.realms[id]);
                  var current := if policy.Some? then policy.value else realm.provisional;
                  var revision := if current == realm.provisional then row.revision else row.revision + 1;
                  && outcome.tables == t.(realms := t.realms[id := realm.(provisional := current)],
                                          persons := t.persons[id := row.(revision := revision)])
                  && outcome.view == Access(revision, realm.id,
                                            if session.Session? && !Usable(row, limits, clock(0)) then Policy(false, false) else current))
  {
    if id in t.persons { assert t.persons[id := t.persons[id]] == t.persons; }
    if id in t.realms { assert t.realms[id := t.realms[id]] == t.realms; }
  }

  /** A memory realm is answered exactly for an active established person whose realm is on, or that has none and asks for one. */
  lemma RealmAcceptedExactlyWhen(t: Tables, owner: OwnerId, id: PersonId, create: bool, realm: RealmId)
    ensures var outcome := MemoryRealm(t, owner, id, create, realm);
            var has := id in t.realms && t.realms[id].owner == owner;
            && (outcome.Done? <==>
                  && Reaches(t, owner, id) && t.persons[id].maturity == Established && t.persons[id].status == Active
                  && if has then t.realms[id].status == RealmActive else create)
            && (outcome.Done? ==>
                  && outcome.view == (if has then t.realms[id] else Realm(realm, owner, RealmActive, Policy(false, false), false, false))
                  && outcome.tables == t.(realms := t.realms[id := outcome.view]))
  {
    if id in t.realms { assert t.realms[id := t.realms[id]] == t.realms; }
  }

  /** Memory is suspended exactly at the revision expected, for a person with a realm. */
  lemma SuspensionAcceptedExactlyWhen(t: Tables, owner: OwnerId, id: PersonId, expected: int)
    ensures var outcome := SuspendMemory(t, owner, id, expected);
            && (outcome.Done? <==>
                  Reaches(t, owner, id) && t.persons[id].revision == expected && id in t.realms && t.realms[id].owner == owner)
            && (outcome.Done? ==>
                  var realm := t.realms[id];
                  var already := realm.status != RealmActive && realm.provisional == Policy(false, false) && realm.preparationBlocked;
                  && outcome.view == (if already then realm else Quiet(realm))
                  && outcome.tables == t.(realms := t.realms[id := outcome.view],
                                          persons := t.persons[id := t.persons[id].(revision := expected + if already then 0 else 1)]))
  {
    if id in t.persons { assert t.persons[id := t.persons[id]] == t.persons; }
    if id in t.realms { assert t.realms[id := t.realms[id]] == t.realms; }
  }

  /** It is restored exactly for an active established person, at the revision expected. */
  lemma RevivalAcceptedExactlyWhen(t: Tables, owner: OwnerId, id: PersonId, expected: int)
    ensures var outcome := RestoreMemory(t, owner, id, expected);
            && (outcome.Done? <==>
                  && Reaches(t, owner, id) && t.persons[id].revision == expected && t.persons[id].maturity == Established
                  && t.persons[id].status == Active && id in t.realms && t.realms[id].owner == owner)
            && (outcome.Done? ==>
                  && outcome.view == t.realms[id].(status := RealmActive)
                  && outcome.tables == t.(realms := t.realms[id := outcome.view],
                       persons := t.persons[id := t.persons[id].(revision := expected + if t.realms[id].status == RealmActive then 0 else 1)]))
  {
    if id in t.persons { assert t.persons[id := t.persons[id]] == t.persons; }
    if id in t.realms { assert t.realms[id := t.realms[id]] == t.realms; }
  }

  /** The bulk projection lists exactly the owner's usable persons whose realm is not being erased and permits the use asked for. */
  lemma ProjectionListsExactly(t: Tables, limits: Limits, owner: OwnerId, sessionRecall: bool, now: real, id: PersonId)
    ensures id in ProvisionalRuntimeRealms(t, limits, owner, sessionRecall, now) <==>
              && id in t.persons && t.persons[id].owner == owner && Usable(t.persons[id], limits, now)
              && id in t.realms && t.realms[id].owner == owner && t.realms[id].status != RealmDeleting
              && if sessionRecall then t.realms[id].provisional.sessionRecallAllowed else t.realms[id].provisional.saveAllowed
  {
  }

  // ----- Sweep, profiles and owners -------------------------------------------------

  /** A candidate of the owner not seen for the time to live. */
  predicate Overdue(t: Tables, limits: Limits, owner: OwnerId, id: PersonId, now: real) {
    && id in t.persons && t.persons[id].owner == owner && t.persons[id].maturity == Candidate
    && t.persons[id].recognition == Recognizable && !t.persons[id].deleted
    && t.persons[id].activityAt.Some? && t.persons[id].activityAt.value + limits.ttl <= now
  }

  /** A sweep retains what it chose among the owner's candidates that are expired, and touches nobody else. */
  lemma SweepAcceptedExactlyWhen(t: Tables, limits: Limits, owner: OwnerId, chosen: set<PersonId>, now: real)
    ensures var outcome := Sweep(t, limits, owner, chosen, now);
            && (outcome.Done? <==>
                  && owner in t.owners && t.owners[owner].status == OwnerActive
                  && forall id | id in chosen :: Overdue(t, limits, owner, id, now))
            && (outcome.Done? ==>
                  && outcome.tables == t.(persons := outcome.tables.persons)
                  && (forall id :: id in outcome.tables.persons <==> id in t.persons)
                  && (forall id | id in t.persons ::
                        outcome.tables.persons[id] ==
                        if id in chosen then t.persons[id].(recognition := Retained, revision := t.persons[id].revision + 1) else t.persons[id]))
  {
    if forall id | id in chosen :: Overdue(t, limits, owner, id, now) {
      forall id | id in chosen ensures id in t.persons && Expired(t.persons[id], owner, limits, now) {
        assert Overdue(t, limits, owner, id, now);
      }
    }
    if Sweep(t, limits, owner, chosen, now).Done? {
      forall id | id in chosen ensures Overdue(t, limits, owner, id, now) { assert Expired(t.persons[id], owner, limits, now); }
    }
  }

  /** A voice profile is deleted exactly by an active owner who has it or finds it absent. */
  lemma ProfileDeletionAcceptedExactlyWhen(t: Tables, owner: OwnerId, profile: ProfileId)
    ensures var outcome := DeleteProfile(t, owner, profile);
            && (outcome.Done? <==>
                  owner in t.owners && t.owners[owner].status == OwnerActive && (profile in t.profiles ==> t.profiles[profile].owner == owner))
            && (outcome.Done? ==> outcome.tables == t.(profiles := t.profiles - {profile}))
  {
  }

  /** A completed enrollment writes a profile exactly for an active person who has no other, one revision on. */
  lemma ProfileWriteAcceptedExactlyWhen(t: Tables, owner: OwnerId, id: PersonId, profile: ProfileId, model: Model, template: Tag)
    ensures var outcome := WriteProfile(t, owner, id, profile, model, template);
            && (outcome.Done? <==>
                  && owner in t.owners && t.owners[owner].status == OwnerActive && id in t.persons && t.persons[id].owner == owner
                  && t.persons[id].status == Active && (profile in t.profiles ==> t.profiles[profile].person == id)
                  && forall p | p in t.profiles && t.profiles[p].owner == owner && t.profiles[p].person == id :: p == profile)
            && (outcome.Done? ==>
                  var revision := if profile in t.profiles then t.profiles[profile].revision + 1 else 1;
                  outcome.tables == t.(profiles := t.profiles[profile := VoiceProfile(owner, id, revision, model, template)]))
  {
  }

  /** Owners are created once, active without defaults; an update with settings replaces the defaults; archiving takes the
      owner's active memories down and nobody else's, and a second time changes nothing. */
  lemma OwnerCommandsMean(t: Tables, owner: OwnerId, settings: MemoryDefaults)
    ensures var (created, updated, archived) := (CreateOwner(t, owner), UpdateOwner(t, owner, settings), ArchiveOwner(t, owner));
            && (created.Done? <==> owner !in t.owners)
            && (created.Done? ==>
                  created.tables == t.(owners := t.owners[owner := Owner(OwnerActive, MemoryDefaults(Policy(false, false), false), 1)]))
            && (updated.Done? <==> owner in t.owners && t.owners[owner].status == OwnerActive)
            && (updated.Done? ==> updated.tables == t.(owners := t.owners[owner := t.owners[owner].(defaults := settings)]))
            && (archived.Done? <==> owner in t.owners)
            && (archived.Done? && t.owners[owner].status == OwnerArchived ==> archived.tables == t)
            && (archived.Done? && t.owners[owner].status == OwnerActive ==>
                  && archived.tables == t.(owners := t.owners[owner := t.owners[owner].(status := OwnerArchived, revision := t.owners[owner].revision + 1)],
                                           realms := archived.tables.realms)
                  && (forall id :: id in archived.tables.realms <==> id in t.realms)
                  && (forall id | id in t.realms ::
                        archived.tables.realms[id] ==
                        if t.realms[id].owner == owner && t.realms[id].status == RealmActive then t.realms[id].(status := RealmInactive)
                        else t.realms[id]))
  {
  }
}
