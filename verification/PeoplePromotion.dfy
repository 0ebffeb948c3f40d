/** When exactly evidence and discoveries are accepted, what they write, and when exactly a turn promotes its candidate. */
module PeoplePromotion {
  import opened Core
  import opened People
  import opened PeopleRuns
  import opened PeopleEvidence
  import opened PeopleAnswers

  // ----- Promotion ----------------------------------------------------------------

  predicate Receives(row: EvidenceRow, owner: OwnerId, id: PersonId) {
    row.owner == owner && row.person == id
  }

  /** A turn counts towards a promotion: the same profile revision as the turn judged now, one speaker, the policy's versions
      and models, similar enough, and neither too old nor from the future. */
  predicate Counts(o: Observation, value: Observation, policy: PromotionPolicy, earliest: real, latest: real) {
    && o.profile == value.profile && o.profileRevision == value.profileRevision && o.overlap == Some(0)
    && o.decision == policy.decision && o.scoring == policy.scoring && o.model == policy.model
    && o.cosine.Some? && policy.minSimilarity <= o.cosine.value
    && earliest <= o.issuedAt <= latest
  }

  /** At the readings k and k + 1 of the clock. */
  predicate CountsAt(o: Observation, value: Observation, policy: PromotionPolicy, clock: Clock, k: nat) {
    Counts(o, value, policy, clock(k) - policy.maxEvidenceAge, clock(k + 1) + 1.0)
  }

  /** The person's receipts that count, each at its own two readings of the clock. */
  function Counted(
    rows: seq<EvidenceRow>, owner: OwnerId, id: PersonId, value: Observation, policy: PromotionPolicy, clock: Clock, k: nat)
    : seq<EvidenceRow>
  {
    if rows == [] then []
    else if !Receives(rows[0], owner, id) then Counted(rows[1..], owner, id, value, policy, clock, k)
    else
      var rest := Counted(rows[1..], owner, id, value, policy, clock, k + 2);
      if CountsAt(rows[0].observation, value, policy, clock, k) then [rows[0]] + rest else rest
  }

  lemma EligibleExactlyWhen(o: Observation, value: Observation, policy: PromotionPolicy, clock: Clock, k: nat)
    ensures Eligible(o, value, policy, clock, k) <==> CountsAt(o, value, policy, clock, k)
  {
  }

  lemma {:induction false} EligibleAreCounted(
    rows: seq<EvidenceRow>, owner: OwnerId, id: PersonId, value: Observation, policy: PromotionPolicy, clock: Clock, k: nat)
    ensures EligibleRows(EvidenceOf(rows, owner, id), value, policy, clock, k) == Counted(rows, owner, id, value, policy, clock, k)
    decreases |rows|
  {
    if rows != [] {
      EvidenceOfHead(rows, owner, id);
      if Receives(rows[0], owner, id) {
        var mine := EvidenceOf(rows, owner, id);
        assert mine[0] == rows[0] && mine[1..] == EvidenceOf(rows[1..], owner, id);
        EligibleExactlyWhen(rows[0].observation, value, policy, clock, k);
        EligibleAreCounted(rows[1..], owner, id, value, policy, clock, k + 2);
      } else {
        EligibleAreCounted(rows[1..], owner, id, value, policy, clock, k);
      }
    }
  }

  lemma {:induction false} SpeechAppended(rows: seq<EvidenceRow>, row: EvidenceRow)
    ensures SpeechMs(rows + [row]) == SpeechMs(rows) + row.observation.speechMs
    decreases |rows|
  {
    if rows == [] {
      assert rows + [row] == [row] && [row][1..] == [];
    } else {
      SpeechAppended(rows[1..], row);
      assert (rows + [row])[1..] == rows[1..] + [row];
    }
  }

  /** There are enough of them, with enough speech in total. */
  predicate Suffices(rows: seq<EvidenceRow>, policy: PromotionPolicy) {
    |rows| >= policy.minTurns && SpeechMs(rows) >= policy.minTotalSpeechMs
  }

  lemma PromotesExactlyWhen(
    t: Tables, owner: OwnerId, id: PersonId, receipt: EvidenceRow, policy: Option<PromotionPolicy>, clock: Clock)
    ensures var value := receipt.observation;
            Promotes(EvidenceOf(t.evidence, owner, id), value, policy, clock) <==>
              policy.Some? && CountsAt(value, value, policy.value, clock, 3)
              && Suffices(Counted(t.evidence, owner, id, value, policy.value, clock, 5) + [receipt], policy.value)
  {
    if policy.Some? {
      var value := receipt.observation;
      EligibleExactlyWhen(value, value, policy.value, clock, 3);
      EligibleAreCounted(t.evidence, owner, id, value, policy.value, clock, 5);
      SpeechAppended(Counted(t.evidence, owner, id, value, policy.value, clock, 5), receipt);
    }
  }

  /** What an accepted turn writes: one receipt of it behind the others, and the candidate's row and realm. */
  predicate AddsReceipt(t: Tables, u: Tables, owner: OwnerId, request: EvidenceRequest, receipt: EvidenceRow) {
    && u.evidence == t.evidence + [receipt] && receipt.owner == owner && Some(receipt.person) == request.observation.person
    && receipt.observation == request.observation && receipt.session == request.observation.session
    && receipt.turn == request.observation.turn && receipt.audio == request.audio && receipt.digest == request.digest
    && Some(receipt.profile) == request.observation.profile && receipt.profileRevision == request.observation.profileRevision
  }

  /** The promoted person's memory: on if the owner's defaults say so, it came from defaults, and nobody took it down. */
  predicate Prepares(realm: Realm, defaults: MemoryDefaults) {
    realm.status == RealmInactive && defaults.prepareOnPromotion && realm.fromDefaults && !realm.preparationBlocked
  }

  ghost predicate PromotionWrites(t: Tables, u: Tables, owner: OwnerId, id: PersonId, issuedAt: real, promoted: bool)
    requires id in t.persons && id in u.persons && owner in t.owners
  {
    var (row, next) := (t.persons[id], u.persons[id]);
    var prepared := promoted && id in t.realms && t.realms[id].owner == owner && Prepares(t.realms[id], t.owners[owner].defaults);
    && next.activityAt.Some? && next.activityAt.value >= issuedAt && (row.activityAt.Some? ==> next.activityAt.value >= row.activityAt.value)
    && (next.activityAt.value == issuedAt || next.activityAt == row.activityAt || (row.activityAt.None? && next.activityAt.value == 0.0))
    && next == row.(activityAt := next.activityAt, maturity := if promoted then Established else row.maturity,
                    revision := if promoted then row.revision + 1 else row.revision)
    && u == t.(evidence := u.evidence, persons := t.persons[id := next],
               realms := if prepared then t.realms[id := t.realms[id].(status := RealmActive)] else t.realms)
  }

  lemma TurnWrites(
    t: Tables, owner: OwnerId, promotion: Option<PromotionPolicy>, request: EvidenceRequest, clock: Clock, u: Tables, receipt: EvidenceRow,
    promoted: bool)
    requires request.observation.person.Some? && request.observation.person.value in t.persons
    requires request.observation.profile.Some? && owner in t.owners
    requires u == WithEvidence(t, owner, promotion, request, clock)
    requires receipt == EvidenceRow(owner, request.observation.person.value, request.observation.session, request.observation.turn,
                                    request.audio, request.observation.profile.value, request.observation.profileRevision, request.digest,
                                    request.observation)
    requires promoted <==> Promotes(EvidenceOf(t.evidence, owner, receipt.person), request.observation, promotion, clock)
    ensures AddsReceipt(t, u, owner, request, receipt)
    ensures receipt.person in u.persons && PromotionWrites(t, u, owner, receipt.person, request.observation.issuedAt, promoted)
  {
    if HasRealm(t, owner, receipt.person) { assert t.realms[receipt.person := t.realms[receipt.person]] == t.realms; }
  }

  /** After an accepted turn the candidate is established exactly when a policy is set, the turn itself counts, and the
      receipts that count, this one included, are enough. */
  lemma TurnPromotesExactlyWhen(
    t: Tables, limits: Limits, owner: OwnerId, discovery: Option<DiscoveryPolicy>, promotion: Option<PromotionPolicy>,
    request: EvidenceRequest, clock: Clock, outcome: Outcome<EvidenceAnswer>)
    requires outcome == RecordEvidence(t, limits, owner, discovery, promotion, request, clock) && outcome.Done? && outcome.view.accepted
    ensures var (value, u) := (request.observation, outcome.tables);
            && value.person.Some? && value.person.value in t.persons && value.person.value in u.persons && owner in t.owners
            && |u.evidence| == |t.evidence| + 1
            && var (id, receipt) := (value.person.value, u.evidence[|t.evidence|]);
               var promoted := promotion.Some? && CountsAt(value, value, promotion.value, clock, 3)
                               && Suffices(Counted(t.evidence, owner, id, value, promotion.value, clock, 5) + [receipt], promotion.value);
               && AddsReceipt(t, u, owner, request, receipt) && t.persons[id].maturity == Candidate
               && (u.persons[id].maturity == Established <==> promoted)
               && PromotionWrites(t, u, owner, id, value.issuedAt, promoted)
               && outcome.view.personRevision == u.persons[id].revision && outcome.view.maturity == u.persons[id].maturity
  {
    var (value, u) := (request.observation, outcome.tables);
    var id := value.person.value;
    AcceptedTurnIsNew(t, limits, owner, discovery, promotion, request, clock, outcome);
    var receipt := EvidenceRow(owner, id, value.session, value.turn, request.audio, value.profile.value, value.profileRevision,
                               request.digest, value);
    PromotesExactlyWhen(t, owner, id, receipt, promotion, clock);
    TurnWrites(t, owner, promotion, request, clock, u, receipt, Promotes(EvidenceOf(t.evidence, owner, id), value, promotion, clock));
  }

  lemma UnrefusedTurn(
    t: Tables, limits: Limits, owner: OwnerId, discovery: Option<DiscoveryPolicy>, request: EvidenceRequest, clock: Clock)
    requires request.observation.person.Some? && request.observation.person.value in t.persons
    requires EvidenceRefusal(t, limits, owner, discovery, request, clock).None?
    ensures t.persons[request.observation.person.value].maturity == Candidate && request.observation.profile.Some?
  {
  }

  lemma NewTurnTaken(
    t: Tables, limits: Limits, owner: OwnerId, discovery: Option<DiscoveryPolicy>, promotion: Option<PromotionPolicy>,
    request: EvidenceRequest, clock: Clock, count: nat, outcome: Outcome<EvidenceAnswer>)
    requires request.observation.person.Some? && request.observation.person.value in t.persons && owner in t.owners
    requires outcome == NewTurn(t, limits, owner, discovery, promotion, request, clock, count) && outcome.Done?
    ensures var id := request.observation.person.value;
            && t.persons[id].maturity == Candidate && request.observation.profile.Some?
            && outcome.tables == WithEvidence(t, owner, promotion, request, clock)
            && outcome.view.personRevision == outcome.tables.persons[id].revision && outcome.view.maturity == outcome.tables.persons[id].maturity
  {
    UnrefusedTurn(t, limits, owner, discovery, request, clock);
  }

  lemma AcceptedTurnIsNew(
    t: Tables, limits: Limits, owner: OwnerId, discovery: Option<DiscoveryPolicy>, promotion: Option<PromotionPolicy>,
    request: EvidenceRequest, clock: Clock, outcome: Outcome<EvidenceAnswer>)
    requires outcome == RecordEvidence(t, limits, owner, discovery, promotion, request, clock) && outcome.Done? && outcome.view.accepted
    ensures var value := request.observation;
            && value.person.Some? && value.person.value in t.persons && value.profile.Some? && owner in t.owners
            && t.persons[value.person.value].maturity == Candidate
            && outcome.tables == WithEvidence(t, owner, promotion, request, clock)
            && outcome.view.personRevision == outcome.tables.persons[value.person.value].revision
            && outcome.view.maturity == outcome.tables.persons[value.person.value].maturity
  {
    var value := request.observation;
    var count := IndependentTurns(EvidenceOf(t.evidence, owner, value.person.value), value);
    NewTurnTaken(t, limits, owner, discovery, promotion, request, clock, count, outcome);
  }

  lemma {:induction false} CountedAppended(
    rows: seq<EvidenceRow>, receipt: EvidenceRow, owner: OwnerId, id: PersonId, value: Observation, policy: PromotionPolicy,
    clock: Clock, now: real, k: nat)
    requires (forall i: nat :: clock(i) == now) && Receives(receipt, owner, id) && CountsAt(receipt.observation, value, policy, clock, 3)
    ensures Counted(rows + [receipt], owner, id, value, policy, clock, k) == Counted(rows, owner, id, value, policy, clock, k) + [receipt]
    decreases |rows|
  {
    if rows == [] {
      assert rows + [receipt] == [receipt] && [receipt][1..] == [];
    } else {
      var next := if Receives(rows[0], owner, id) then k + 2 else k;
      CountedAppended(rows[1..], receipt, owner, id, value, policy, clock, now, next);
      assert (rows + [receipt])[1..] == rows[1..] + [receipt] && (rows + [receipt])[0] == rows[0];
    }
  }

  /** While the clock stands still this is a count over the table afterwards. */
  lemma TurnPromotesByTheTable(
    t: Tables, limits: Limits, owner: OwnerId, discovery: Option<DiscoveryPolicy>, promotion: Option<PromotionPolicy>,
    request: EvidenceRequest, clock: Clock, now: real, outcome: Outcome<EvidenceAnswer>)
    requires outcome == RecordEvidence(t, limits, owner, discovery, promotion, request, clock) && outcome.Done? && outcome.view.accepted
    requires forall i: nat :: clock(i) == now
    ensures var value := request.observation;
            value.person.Some? && value.person.value in outcome.tables.persons
            && (outcome.tables.persons[value.person.value].maturity == Established <==>
                  promotion.Some? && CountsAt(value, value, promotion.value, clock, 3)
                  && Suffices(Counted(outcome.tables.evidence, owner, value.person.value, value, promotion.value, clock, 5), promotion.value))
  {
    TurnPromotesExactlyWhen(t, limits, owner, discovery, promotion, request, clock, outcome);
    var (value, u) := (request.observation, outcome.tables);
    if promotion.Some? && CountsAt(value, value, promotion.value, clock, 3) {
      CountedAppended(t.evidence, u.evidence[|t.evidence|], owner, value.person.value, value, promotion.value, clock, now, 5);
    }
  }
}
