/**
 * The services over one database: each method is one transaction that checks its rows in the source's
 * order, returns a refusal before anything is written, and otherwise writes the rows in place.
 */
module PeopleStore {
  import opened Core
  import P = People
  import D = PeopleDecisions

  class Store {
    var owners: map<P.OwnerId, P.Owner>
    var persons: map<P.PersonId, P.Person>
    var realms: map<P.PersonId, P.Realm>
    var receipts: map<P.PersonId, P.Receipt>
    var evidence: seq<P.EvidenceRow>
    var profiles: map<P.ProfileId, P.VoiceProfile>

    function Rows(): P.Tables
      reads this
    {
      P.Tables(owners, persons, realms, receipts, evidence, profiles)
    }

    constructor ()
      ensures Rows() == P.EMPTY
    {
      owners, persons, realms, receipts, evidence, profiles := map[], map[], map[], map[], [], map[];
    }

    // ----- Persons ------------------------------------------------------------

    method InsertPerson(owner: P.OwnerId, request: P.PersonCreate, realm: P.RealmId, now: real) returns (row: P.Person)
      requires owner in owners
      modifies this`persons, this`realms
      ensures Rows() == P.InsertPerson(old(Rows()), owner, request, realm, now)
      ensures row == P.NewPerson(owner, request, now)
    {
      row := P.Person(owner, request.displayName, request.isNamed, request.profile, P.Active, false, request.maturity,
                      P.Recognizable, None, false, 1);
      if request.maturity == P.Candidate {
        row := row.(activityAt := Some(now));
      }
      persons := persons[request.id := row];
      var bound := P.Realm(realm, owner, if row.maturity == P.Established then P.RealmActive else P.RealmInactive,
                           P.NO_POLICY, false, false);
      if row.maturity == P.Candidate {
        bound := bound.(provisional := owners[owner].defaults.candidate, fromDefaults := true);
      }
      realms := realms[request.id := bound];
    }

    method Create(limits: P.Limits, owner: P.OwnerId, request: P.PersonCreate, realm: P.RealmId, clock: Clock)
      returns (answer: Result<P.Person, P.Refusal>)
      modifies this
      ensures var outcome := P.Create(old(Rows()), limits, owner, request, realm, clock);
              Rows() == P.After(old(Rows()), outcome) && answer == P.Answer(outcome)
    {
      if !P.OwnerIsActive(Rows(), owner) { return Err(P.OwnerNotActive); }
      if request.id in receipts { return Err(P.PermanentlyDeleted); }
      if request.id in persons {
        var existing := persons[request.id];
        if existing.deleted { return Err(P.UseExplicitRestore); }
        if existing.owner != owner { return Err(P.PersonIdUnavailable); }
        if existing.maturity != request.maturity || existing.isNamed != request.isNamed
           || existing.displayName != request.displayName || existing.profile != request.profile {
          return Err(P.PersonDataDiffers);
        }
        return Ok(existing);
      }
      if request.id in realms { return Err(P.RetainedMemory); }
      if request.maturity == P.Candidate {
        if P.PoolFull(Rows(), owner, limits, clock(0)) { return Err(P.CandidatePoolFull); }
      }
      var row := InsertPerson(owner, request, realm, clock(1));
      answer := Ok(row);
    }

    method DeactivateMemory(owner: P.OwnerId, id: P.PersonId)
      modifies this`realms
      ensures Rows() == P.Deactivated(old(Rows()), owner, id)
    {
      if id in realms && realms[id].owner == owner {
        var realm := realms[id].(status := P.RealmInactive);
        realm := realm.(provisional := P.NO_POLICY, preparationBlocked := true);
        realms := realms[id := realm];
      }
    }

    method Update(limits: P.Limits, owner: P.OwnerId, id: P.PersonId, request: P.PersonUpdate, clock: Clock)
      returns (answer: Result<P.Person, P.Refusal>)
      modifies this
      ensures var outcome := P.Update(old(Rows()), limits, owner, id, request, clock);
              Rows() == P.After(old(Rows()), outcome) && answer == P.Answer(outcome)
    {
      var missing := P.PersonRefusal(Rows(), owner, id, false);
      if missing.Some? { return Err(missing.value); }
      var row := persons[id];
      if row.revision != request.expectedRevision { return Err(P.RevisionChanged); }
      if row.maturity == P.Candidate && row.status != P.Active && request.status == P.Active && row.recognition == P.Recognizable {
        if row.activityAt.None? { return Err(P.ActivityMissing); }
        if row.activityAt.value > clock(0) - limits.ttl {
          if P.PoolFull(Rows(), owner, limits, clock(1)) { return Err(P.CandidatePoolFull); }
        }
      }
      if request.isNamed.Some? {
        row := row.(isNamed := request.isNamed.value);
      }
      row := row.(displayName := request.displayName, status := request.status);
      if request.status == P.Inactive {
        DeactivateMemory(owner, id);
      }
      row := row.(profile := request.profile, revision := row.revision + 1);
      persons := persons[id := row];
      answer := Ok(row);
    }

    method RetainCandidate(id: P.PersonId) returns (row: P.Person)
      requires id in persons
      modifies this`persons
      ensures row == P.Retain(old(persons)[id]) && persons == old(persons)[id := row]
    {
      row := persons[id].(recognition := P.Retained);
      row := row.(revision := row.revision + 1);
      persons := persons[id := row];
    }

    method RetireCandidate(owner: P.OwnerId, id: P.PersonId, expected: int) returns (answer: Result<P.Person, P.Refusal>)
      modifies this
      ensures var outcome := P.RetireCandidate(old(Rows()), owner, id, expected);
              Rows() == P.After(old(Rows()), outcome) && answer == P.Answer(outcome)
    {
      var missing := P.PersonRefusal(Rows(), owner, id, false);
      if missing.Some? { return Err(missing.value); }
      var row := persons[id];
      if row.revision != expected { return Err(P.RevisionChanged); }
      if row.maturity != P.Candidate { return Err(P.NotACandidate); }
      if row.recognition != P.Retained {
        row := RetainCandidate(id);
      }
      answer := Ok(row);
    }

    method Archive(owner: P.OwnerId, id: P.PersonId, expected: int) returns (answer: Result<(), P.Refusal>)
      modifies this
      ensures var outcome := P.Archive(old(Rows()), owner, id, expected);
              Rows() == P.After(old(Rows()), outcome) && answer == P.Answer(outcome)
    {
      var missing := P.PersonRefusal(Rows(), owner, id, false);
      if missing.Some? { return Err(missing.value); }
      var row := persons[id];
      if row.revision != expected { return Err(P.RevisionChanged); }
      DeactivateMemory(owner, id);
      profiles := profiles - (set p | p in profiles && profiles[p].person == id);
      row := row.(deleted := true);
      row := row.(status := P.Inactive);
      row := row.(revision := row.revision + 1);
      persons := persons[id := row];
      answer := Ok(());
    }

    method Restore(owner: P.OwnerId, id: P.PersonId, expected: int) returns (answer: Result<P.Person, P.Refusal>)
      modifies this
      ensures var outcome := P.Restore(old(Rows()), owner, id, expected);
              Rows() == P.After(old(Rows()), outcome) && answer == P.Answer(outcome)
    {
      var missing := P.PersonRefusal(Rows(), owner, id, true);
      if missing.Some? { return Err(missing.value); }
      var row := persons[id];
      if row.revision != expected { return Err(P.RevisionChanged); }
      if row.identityMissing { return Err(P.IdentityMissing); }
      if !row.deleted { return Err(P.NotArchived); }
      if id in realms && realms[id].status == P.RealmDeleting { return Err(P.ErasurePending); }
      row := row.(deleted := false, status := P.Inactive, revision := row.revision + 1);
      persons := persons[id := row];
      DeactivateMemory(owner, id);
      answer := Ok(row);
    }

    /** Deleting the person row takes its receipts and profiles along. */
    method DeletePersonRow(id: P.PersonId)
      requires id in persons
      modifies this`persons, this`evidence, this`profiles
      ensures persons == old(persons) - {id}
      ensures evidence == P.WithoutEvidenceOf(old(evidence), old(persons)[id].owner, id)
      ensures profiles == old(profiles) - (set p | p in old(profiles)
                                                   && old(profiles)[p].owner == old(persons)[id].owner && old(profiles)[p].person == id)
    {
      var owner := persons[id].owner;
      evidence := P.WithoutEvidenceOf(evidence, owner, id);
      profiles := profiles - (set p | p in profiles && profiles[p].owner == owner && profiles[p].person == id);
      persons := persons - {id};
    }

    method PermanentDelete(owner: P.OwnerId, id: P.PersonId, expected: int, complete: bool)
      returns (answer: Result<P.Receipt, P.Refusal>)
      modifies this
      ensures var outcome := P.PermanentDelete(old(Rows()), owner, id, expected, complete);
              Rows() == P.After(old(Rows()), outcome) && answer == P.Answer(outcome)
    {
      if !P.OwnerIsActive(Rows(), owner) { return Err(P.OwnerNotActive); }
      var receipt: P.Receipt;
      if id in receipts {
        receipt := receipts[id];
        if receipt.owner != owner { return Err(P.PersonNotFound); }
        var allowed := {receipt.revision};
        if id in persons && !complete {
          allowed := allowed + {persons[id].revision};
        }
        if expected !in allowed { return Err(P.DeletionRevisionMismatch); }
        if receipt.completed { return Ok(receipt); }
        if !complete { return Ok(receipt); }
        if id !in persons { return Err(P.PersonRowMissing); }
        if P.HasRealm(Rows(), owner, id) && realms[id].id == receipt.realm {
          realms := realms - {id};
        }
        DeletePersonRow(id);
        receipt := receipt.(completed := true);
        receipts := receipts[id := receipt];
        return Ok(receipt);
      }
      if complete { return Err(P.DeletionNotRequested); }
      var missing := P.PersonRefusal(Rows(), owner, id, true);
      if missing.Some? { return Err(missing.value); }
      var row := persons[id];
      if row.revision != expected { return Err(P.RevisionChanged); }
      if !row.deleted { return Err(P.ArchiveFirst); }
      if !P.HasRealm(Rows(), owner, id) { return Err(P.RealmNotFound); }
      receipt := P.Receipt(owner, realms[id].id, expected, false);
      receipts := receipts[id := receipt];
      realms := realms[id := realms[id].(status := P.RealmDeleting)];
      persons := persons[id := row.(revision := row.revision + 1)];
      answer := Ok(receipt);
    }

    // ----- Memory -------------------------------------------------------------

    method SetMemoryDefaults(owner: P.OwnerId, expected: Option<int>, policy: P.MemoryDefaults)
      returns (answer: Result<P.Owner, P.Refusal>)
      modifies this
      ensures var outcome := P.SetMemoryDefaults(old(Rows()), owner, expected, policy);
              Rows() == P.After(old(Rows()), outcome) && answer == P.Answer(outcome)
    {
      if !P.OwnerIsActive(Rows(), owner) { return Err(P.OwnerNotActive); }
      var row := owners[owner];
      if expected != Some(row.revision) { return Err(P.RevisionChanged); }
      if row.defaults != policy {
        row := row.(defaults := policy);
        row := row.(revision := row.revision + 1);
        owners := owners[owner := row];
      }
      answer := Ok(row);
    }

    method ProvisionalMemoryPolicy(
      limits: P.Limits, owner: P.OwnerId, id: P.PersonId, expected: Option<int>, policy: Option<P.Policy>,
      session: P.Session, clock: Clock) returns (answer: Result<P.Access, P.Refusal>)
      modifies this
      ensures var outcome := P.ProvisionalMemoryPolicy(old(Rows()), limits, owner, id, expected, policy, session, clock);
              Rows() == P.After(old(Rows()), outcome) && answer == P.Answer(outcome)
    {
      if session == P.BadSession { return Err(P.InvalidSession); }
      var missing := P.PersonRefusal(Rows(), owner, id, false);
      if missing.Some? { return Err(missing.value); }
      var row := persons[id];
      if expected.Some? && row.revision != expected.value { return Err(P.RevisionChanged); }
      if !P.HasRealm(Rows(), owner, id) { return Err(P.RealmNotFound); }
      var realm := realms[id];
      var current := realm.provisional;
      if policy.Some? {
        if expected.None? { return Err(P.RevisionRequired); }
        if row.status != P.Active && (policy.value.saveAllowed || policy.value.sessionRecallAllowed) {
          return Err(P.PersonInactive);
        }
        if current != policy.value {
          realms := realms[id := realm.(provisional := policy.value)];
          row := row.(revision := row.revision + 1);
          persons := persons[id := row];
        }
        current := policy.value;
      }
      if session.Session? {
        if expected.None? { return Err(P.RevisionRequired); }
        if row.status != P.Active || row.recognition != P.Recognizable
           || (row.maturity == P.Candidate && (row.activityAt.None? || row.activityAt.value <= clock(0) - limits.ttl)) {
          current := P.NO_POLICY;
        }
      }
      answer := Ok(P.Access(row.revision, realm.id, current));
    }

    method MemoryRealm(owner: P.OwnerId, id: P.PersonId, create: bool, generated: P.RealmId)
      returns (answer: Result<P.Realm, P.Refusal>)
      modifies this
      ensures var outcome := P.MemoryRealm(old(Rows()), owner, id, create, generated);
              Rows() == P.After(old(Rows()), outcome) && answer == P.Answer(outcome)
    {
      var missing := P.PersonRefusal(Rows(), owner, id, false);
      if missing.Some? { return Err(missing.value); }
      var row := persons[id];
      if row.maturity != P.Established { return Err(P.CandidateMemoryScoped); }
      if row.status != P.Active { return Err(P.PersonInactive); }
      var realm: P.Realm;
      if P.HasRealm(Rows(), owner, id) {
        realm := realms[id];
      } else {
        if !create { return Err(P.RealmNotFound); }
        realm := P.Realm(generated, owner, P.RealmActive, P.NO_POLICY, false, false);
        realms := realms[id := realm];
      }
      if realm.status != P.RealmActive { return Err(P.RealmInactiveRefused); }
      answer := Ok(realm);
    }

    method SuspendMemory(owner: P.OwnerId, id: P.PersonId, expected: int) returns (answer: Result<P.Realm, P.Refusal>)
      modifies this
      ensures var outcome := P.SuspendMemory(old(Rows()), owner, id, expected);
              Rows() == P.After(old(Rows()), outcome) && answer == P.Answer(outcome)
    {
      var missing := P.PersonRefusal(Rows(), owner, id, false);
      if missing.Some? { return Err(missing.value); }
      var row := persons[id];
      if row.revision != expected { return Err(P.RevisionChanged); }
      if !P.HasRealm(Rows(), owner, id) { return Err(P.RealmNotFound); }
      var realm := realms[id];
      if realm.status == P.RealmActive || realm.provisional.saveAllowed || realm.provisional.sessionRecallAllowed
         || !realm.preparationBlocked {
        realm := realm.(provisional := P.NO_POLICY, preparationBlocked := true);
        realm := realm.(status := P.RealmInactive);
        realms := realms[id := realm];
        persons := persons[id := row.(revision := row.revision + 1)];
      }
      answer := Ok(realm);
    }

    method RestoreMemory(owner: P.OwnerId, id: P.PersonId, expected: int) returns (answer: Result<P.Realm, P.Refusal>)
      modifies this
      ensures var outcome := P.RestoreMemory(old(Rows()), owner, id, expected);
              Rows() == P.After(old(Rows()), outcome) && answer == P.Answer(outcome)
    {
      var missing := P.PersonRefusal(Rows(), owner, id, false);
      if missing.Some? { return Err(missing.value); }
      var row := persons[id];
      if row.revision != expected { return Err(P.RevisionChanged); }
      if row.maturity != P.Established { return Err(P.CandidateMemoryScoped); }
      if row.status != P.Active { return Err(P.PersonInactive); }
      if !P.HasRealm(Rows(), owner, id) { return Err(P.RealmNotFound); }
      var realm := realms[id];
      if realm.status != P.RealmActive {
        realm := realm.(status := P.RealmActive);
        realms := realms[id := realm];
        persons := persons[id := row.(revision := row.revision + 1)];
      }
      answer := Ok(realm);
    }

    // ----- Voice --------------------------------------------------------------

    /** The query's rows are whichever expired candidates it selected; each is retained in turn. */
    method SweepExpired(limits: P.Limits, owner: P.OwnerId, rows: seq<P.PersonId>, now: real)
      requires P.OwnerIsActive(Rows(), owner) && NoDuplicates(rows)
      requires forall id | id in rows :: id in persons && P.Expired(persons[id], owner, limits, now)
      modifies this`persons
      ensures Rows() == P.Swept(old(Rows()), Ids(rows))
    {
      for i := 0 to |rows|
        invariant persons == P.Swept(old(Rows()), Ids(rows[..i])).persons
      {
        assert rows[i] in rows && rows[i] !in rows[..i];
        SweepOne(old(Rows()), Ids(rows[..i]), rows[i]);
        var _ := RetainCandidate(rows[i]);
        assert rows[..i + 1] == rows[..i] + [rows[i]];
        assert Ids(rows[..i + 1]) == Ids(rows[..i]) + {rows[i]};
      }
      assert rows[..|rows|] == rows;
    }

    static lemma SweepAccepts(t: P.Tables, limits: P.Limits, owner: P.OwnerId, rows: seq<P.PersonId>, now: real)
      requires P.OwnerIsActive(t, owner)
      requires forall id | id in rows :: id in t.persons && P.Expired(t.persons[id], owner, limits, now)
      ensures P.Sweep(t, limits, owner, Ids(rows), now) == P.Done(P.Swept(t, Ids(rows)), ())
    {
      forall id | id in Ids(rows) ensures id in t.persons && P.Expired(t.persons[id], owner, limits, now) {
        assert id in rows;
      }
    }

    static function Ids(rows: seq<P.PersonId>): (ids: set<P.PersonId>)
      ensures forall id :: id in ids <==> id in rows
    {
      set id | id in rows
    }

    static lemma SweepOne(t: P.Tables, done: set<P.PersonId>, id: P.PersonId)
      requires id in t.persons && id !in done
      ensures P.Swept(t, done + {id}).persons == P.Swept(t, done).persons[id := P.Retain(t.persons[id])]
      ensures P.Swept(t, done).persons[id] == t.persons[id]
    {
      var u := P.Swept(t, done).persons[id := P.Retain(t.persons[id])];
      assert u.Keys == t.persons.Keys;
    }

    /** recognition_candidates: sweep the selected rows expired at the second reading, then take the snapshot, which is
        the one the tables would have given without the sweep. */
    method RecognitionCandidates(
      limits: P.Limits, owner: P.OwnerId, policy: Option<P.DiscoveryPolicy>, rows: seq<P.PersonId>, clock: Clock)
      returns (answer: Result<P.Snapshot, P.Refusal>)
      requires Nondecreasing(clock) && NoDuplicates(rows)
      requires forall id | id in rows :: id in persons && P.Expired(persons[id], owner, limits, clock(1))
      modifies this
      ensures Rows() == if P.OwnerIsActive(old(Rows()), owner) then P.Swept(old(Rows()), Ids(rows)) else old(Rows())
      ensures var snapshot := P.RecognitionSnapshot(old(Rows()), limits, owner, policy, clock(2));
              answer ==
                if !P.OwnerIsActive(old(Rows()), owner) then Err(P.OwnerNotActive)
                else if |snapshot.entries| > limits.maxRecognition then Err(P.RecognitionFull)
                else Ok(snapshot)
    {
      if !P.OwnerIsActive(Rows(), owner) { return Err(P.OwnerNotActive); }
      D.SweepIsInvisible(Rows(), limits, owner, Ids(rows), clock(1), owner, policy, clock(2));
      SweepAccepts(Rows(), limits, owner, rows, clock(1));
      SweepExpired(limits, owner, rows, clock(1));
      var entries := ReadEntries(limits, owner, policy, clock(2));
      if |entries| > limits.maxRecognition { return Err(P.RecognitionFull); }
      answer := Ok(P.Snapshot(entries, policy));
    }

    /** The query behind the snapshot, profile by profile. */
    method ReadEntries(limits: P.Limits, owner: P.OwnerId, ghost policy: Option<P.DiscoveryPolicy>, now: real)
      returns (entries: map<P.ProfileId, P.Entry>)
      ensures P.Snapshot(entries, policy) == P.RecognitionSnapshot(Rows(), limits, owner, policy, now)
    {
      var keys := profiles.Keys;
      entries := map[];
      while keys != {}
        invariant keys <= profiles.Keys
        invariant forall p :: p in entries <==> p in profiles && p !in keys && P.InSnapshot(Rows(), limits, owner, profiles[p], now)
        invariant forall p | p in entries :: entries[p] == P.EntryOf(Rows(), profiles[p])
        decreases |keys|
      {
        var p := AnyOf(keys);
        keys := keys - {p};
        if P.InSnapshot(Rows(), limits, owner, profiles[p], now) {
          entries := entries[p := P.EntryOf(Rows(), profiles[p])];
        }
      }
      P.EntriesAre(Rows(), limits, owner, now);
      ghost var expected := P.Entries(Rows(), limits, owner, now);
      assert forall p :: p in entries <==> p in expected;
      assert forall p | p in entries :: entries[p] == expected[p];
      assert entries == expected;
    }

    /** The loop over the session's receipts. */
    method OverlapsAccepted(owner: P.OwnerId, value: P.Observation) returns (used: bool)
      ensures used <==> P.CaptureUsed(Rows(), owner, value)
    {
      for i := 0 to |evidence|
        invariant forall row | row in evidence[..i] ::
                    !(row.owner == owner && row.session == value.session && P.Overlap(row.observation.source, value.source))
      {
        var row := evidence[i];
        if row.owner == owner && row.session == value.session {
          var prior, source := row.observation.source, value.source;
          if prior.input == source.input && prior.generation == source.generation
             && prior.start < source.end && source.start < prior.end {
            return true;
          }
        }
      }
      assert evidence[..|evidence|] == evidence;
      used := false;
    }

    method DiscoverCandidate(
      limits: P.Limits, owner: P.OwnerId, policy: Option<P.DiscoveryPolicy>, request: P.DiscoverRequest,
      id: P.PersonId, realm: P.RealmId, profile: P.ProfileId, clock: Clock) returns (answer: Result<P.Person, P.Refusal>)
      modifies this
      ensures var outcome := P.DiscoverCandidate(old(Rows()), limits, owner, policy, request, id, realm, profile, clock);
              Rows() == P.After(old(Rows()), outcome) && answer == P.Answer(outcome)
    {
      var value := request.observation;
      if policy.None? || request.policyVersion != policy.value.version { return Err(P.DiscoveryUnavailable); }
      if P.DiscoverMismatch(owner, policy.value, request) { return Err(P.DiscoveryMismatch); }
      if !P.OwnerIsActive(Rows(), owner) { return Err(P.OwnerNotActive); }
      var prior := P.TurnRow(evidence, owner, value);
      if prior.Some? {
        if prior.value.digest != request.digest { return Err(P.SourceUsed); }
        var missing := P.SpeakerRefusal(Rows(), owner, prior.value.person);
        if missing.Some? { return Err(missing.value); }
        var row := persons[prior.value.person];
        if row.deleted || row.recognition != P.Recognizable || prior.value.profile !in profiles { return Err(P.CandidateRevoked); }
        return Ok(row);
      }
      var refusal := CheckDiscovery(limits, owner, policy.value, request, id, profile, clock);
      if refusal.Some? { return Err(refusal.value); }
      var person := InsertPerson(owner, P.PersonCreate(id, id, P.Candidate, false, 0), realm, clock(4));
      evidence := evidence + [P.EvidenceRow(owner, id, value.session, value.turn, request.audio, profile, 1, request.digest, value)];
      profiles := profiles[profile := P.VoiceProfile(owner, id, 1, request.sampleModel, request.sampleTemplate)];
      answer := Ok(person);
    }

    /** The checks of a new discovery, in the order of the source. */
    method CheckDiscovery(
      limits: P.Limits, owner: P.OwnerId, policy: P.DiscoveryPolicy, request: P.DiscoverRequest,
      id: P.PersonId, profile: P.ProfileId, clock: Clock) returns (refusal: Option<P.Refusal>)
      ensures refusal == P.DiscoverRefusal(Rows(), limits, owner, policy, request, id, profile, clock)
    {
      var value := request.observation;
      if value.issuedAt > clock(0) + 1.0 || value.expiresAt <= clock(1) { return Some(P.EvidenceExpired); }
      var entries := ReadEntries(limits, owner, Some(policy), clock(2));
      var snapshot := P.Snapshot(entries, Some(policy));
      var known := P.NoveltyRefusal(snapshot, limits, policy, request);
      if known.Some? { return known; }
      if P.AudioReplayed(Rows(), owner, request.audio) { return Some(P.AudioUsed); }
      var overlaps := OverlapsAccepted(owner, value);
      if overlaps { return Some(P.CaptureOverlaps); }
      if id in persons || id in receipts { return Some(P.IdentityUsed); }
      if id in realms { return Some(P.RetainedMemory); }
      if P.PoolFull(Rows(), owner, limits, clock(3)) { return Some(P.CandidatePoolFull); }
      if profile in profiles { return Some(P.ProfileTaken); }
      refusal := None;
    }

    /** The eligible receipts and their speech, one receipt and two clock readings at a time. */
    method CountEligible(rows: seq<P.EvidenceRow>, value: P.Observation, policy: P.PromotionPolicy, clock: Clock)
      returns (count: nat, speechMs: nat)
      ensures count == |P.EligibleRows(rows, value, policy, clock, 5)|
      ensures speechMs == P.SpeechMs(P.EligibleRows(rows, value, policy, clock, 5))
    {
      count, speechMs := 0, 0;
      for i := 0 to |rows|
        invariant count + |P.EligibleRows(rows[i..], value, policy, clock, 5 + 2 * i)| == |P.EligibleRows(rows, value, policy, clock, 5)|
        invariant speechMs + P.SpeechMs(P.EligibleRows(rows[i..], value, policy, clock, 5 + 2 * i)) ==
                  P.SpeechMs(P.EligibleRows(rows, value, policy, clock, 5))
      {
        ghost var rest := P.EligibleRows(rows[i + 1..], value, policy, clock, 5 + 2 * (i + 1));
        assert rows[i..][1..] == rows[i + 1..];
        if P.Eligible(rows[i].observation, value, policy, clock, 5 + 2 * i) {
          assert ([rows[i]] + rest)[1..] == rest;
          count, speechMs := count + 1, speechMs + rows[i].observation.speechMs;
        } else {
          assert [] + rest == rest;
        }
      }
    }

    /** The checks of a new turn against the current snapshot and the accepted receipts. */
    method CheckEvidence(
      limits: P.Limits, owner: P.OwnerId, discovery: Option<P.DiscoveryPolicy>, request: P.EvidenceRequest, clock: Clock)
      returns (refusal: Option<P.Refusal>)
      requires request.observation.person.Some? && request.observation.person.value in persons
      ensures refusal == P.EvidenceRefusal(Rows(), limits, owner, discovery, request, clock)
    {
      var value, id := request.observation, request.observation.person.value;
      var person, rows := persons[id], P.EvidenceOf(evidence, owner, id);
      if person.maturity != P.Candidate { return Some(P.AlreadyEstablished); }
      if value.issuedAt > clock(0) + 1.0 || value.expiresAt <= clock(1) { return Some(P.EvidenceExpired); }
      var entries := ReadEntries(limits, owner, discovery, clock(2));
      var current := P.Snapshot(entries, discovery);
      if |current.entries| > limits.maxRecognition { return Some(P.RecognitionFull); }
      if current != request.snapshot || person.revision != value.personRevision { return Some(P.SnapshotChanged); }
      if value.profile.None? || value.profile.value !in current.entries { return Some(P.TemplateChanged); }
      var entry := current.entries[value.profile.value];
      if entry.person != id || entry.template.revision != value.profileRevision || entry.template.model != value.model {
        return Some(P.TemplateChanged);
      }
      if P.AudioReplayed(Rows(), owner, request.audio) { return Some(P.AudioUsed); }
      var overlaps := OverlapsAccepted(owner, value);
      if overlaps { return Some(P.CaptureOverlaps); }
      if |rows| >= limits.evidenceLimit { return Some(P.EvidenceFull); }
      refusal := None;
    }

    method RecordEvidence(
      limits: P.Limits, owner: P.OwnerId, discovery: Option<P.DiscoveryPolicy>, promotion: Option<P.PromotionPolicy>,
      request: P.EvidenceRequest, clock: Clock) returns (answer: Result<P.EvidenceAnswer, P.Refusal>)
      modifies this
      ensures var outcome := P.RecordEvidence(old(Rows()), limits, owner, discovery, promotion, request, clock);
              Rows() == P.After(old(Rows()), outcome) && answer == P.Answer(outcome)
    {
      var value := request.observation;
      if value.owner != owner { return Err(P.OwnerMismatch); }
      if !P.OwnerIsActive(Rows(), owner) { return Err(P.OwnerNotActive); }
      if value.person.None? { return Err(P.PersonNotFound); }
      var id := value.person.value;
      var missing := P.SpeakerRefusal(Rows(), owner, id);
      if missing.Some? { return Err(missing.value); }
      var person := persons[id];
      if person.deleted || person.recognition != P.Recognizable { return Err(P.NotAccepting); }
      var rows := P.EvidenceOf(evidence, owner, id);
      var count := P.IndependentTurns(rows, value);
      var previous := P.TurnRow(evidence, owner, value);
      if previous.Some? {
        if previous.value.digest != request.digest { return Err(P.SourceUsed); }
        return Ok(P.EvidenceAnswer(person.revision, person.maturity, false, count));
      }
      answer := RecordNewTurn(limits, owner, discovery, promotion, request, clock, count);
    }

    method RecordNewTurn(
      limits: P.Limits, owner: P.OwnerId, discovery: Option<P.DiscoveryPolicy>, promotion: Option<P.PromotionPolicy>,
      request: P.EvidenceRequest, clock: Clock, count: nat) returns (answer: Result<P.EvidenceAnswer, P.Refusal>)
      requires request.observation.person.Some? && request.observation.person.value in persons && owner in owners
      modifies this
      ensures var outcome := P.NewTurn(old(Rows()), limits, owner, discovery, promotion, request, clock, count);
              Rows() == P.After(old(Rows()), outcome) && answer == P.Answer(outcome)
    {
      var refusal := CheckEvidence(limits, owner, discovery, request, clock);
      if refusal.Some? { return Err(refusal.value); }
      var person := AcceptEvidence(owner, promotion, request, clock);
      answer := Ok(P.EvidenceAnswer(person.revision, person.maturity, true, count + 1));
    }

    /** The writes of an accepted turn. */
    method AcceptEvidence(owner: P.OwnerId, promotion: Option<P.PromotionPolicy>, request: P.EvidenceRequest, clock: Clock)
      returns (person: P.Person)
      requires request.observation.person.Some? && request.observation.person.value in persons
      requires request.observation.profile.Some? && owner in owners
      modifies this
      ensures Rows() == P.WithEvidence(old(Rows()), owner, promotion, request, clock)
      ensures person == Rows().persons[request.observation.person.value]
    {
      var value, id := request.observation, request.observation.person.value;
      var rows := P.EvidenceOf(evidence, owner, id);
      evidence := evidence + [P.EvidenceRow(owner, id, value.session, value.turn, request.audio, value.profile.value,
                                            value.profileRevision, request.digest, value)];
      person := persons[id];
      person := person.(activityAt := Some(Max(if person.activityAt.Some? then person.activityAt.value else 0.0, value.issuedAt)));
      person := PromoteCandidate(owner, id, person, rows, value, promotion, clock);
      persons := persons[id := person];
    }

    /** _promote_candidate: the row it leaves, and the realm it may prepare. */
    method PromoteCandidate(
      owner: P.OwnerId, id: P.PersonId, person: P.Person, rows: seq<P.EvidenceRow>, value: P.Observation,
      promotion: Option<P.PromotionPolicy>, clock: Clock) returns (row: P.Person)
      requires owner in owners
      modifies this`realms
      ensures P.Promotes(rows, value, promotion, clock) ==>
                && row == person.(maturity := P.Established, revision := person.revision + 1)
                && realms == if P.HasRealm(old(Rows()), owner, id)
                             then old(realms)[id := P.PreparedRealm(old(realms)[id], owners[owner].defaults)] else old(realms)
      ensures !P.Promotes(rows, value, promotion, clock) ==> row == person && realms == old(realms)
    {
      row := person;
      if promotion.None? { return; }
      var policy := promotion.value;
      if !P.Eligible(value, value, policy, clock, 3) { return; }
      var count, speechMs := CountEligible(rows, value, policy, clock);
      if count + 1 < policy.minTurns || speechMs + value.speechMs < policy.minTotalSpeechMs { return; }
      row := row.(maturity := P.Established);
      row := row.(revision := row.revision + 1);
      PreparePromotedMemory(owner, id);
    }

    method PreparePromotedMemory(owner: P.OwnerId, id: P.PersonId)
      requires owner in owners
      modifies this`realms
      ensures realms == if P.HasRealm(old(Rows()), owner, id)
                        then old(realms)[id := P.PreparedRealm(old(realms)[id], owners[owner].defaults)] else old(realms)
    {
      if owners[owner].defaults.prepareOnPromotion && P.HasRealm(Rows(), owner, id) {
        var realm := realms[id];
        if realm.status == P.RealmInactive && realm.fromDefaults && !realm.preparationBlocked {
          realm := realm.(status := P.RealmActive);
        }
        realms := realms[id := realm];
      }
    }
  }
}
