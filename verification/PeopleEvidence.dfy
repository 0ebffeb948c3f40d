/** Accepted voice evidence is independent, and every promotion rests on enough of it. */
module PeopleEvidence {
  import opened Core
  import opened People
  import opened PeopleRuns

  /** Two receipts that may both be counted: different turns, different audio, and no captured sample in common. */
  ghost predicate Apart(a: EvidenceRow, b: EvidenceRow) {
    a.owner == b.owner ==>
      && !(a.session == b.session && a.turn == b.turn)
      && a.audio != b.audio
      && (a.session == b.session ==> !Overlap(a.observation.source, b.observation.source))
  }

  ghost predicate Independent(rows: seq<EvidenceRow>) {
    rows == [] || ((forall row | row in rows[1..] :: Apart(rows[0], row)) && Independent(rows[1..]))
  }

  lemma {:induction false} IndependentPairs(rows: seq<EvidenceRow>, i: nat, j: nat)
    requires Independent(rows) && i < j < |rows|
    ensures Apart(rows[i], rows[j])
  {
    if i == 0 {
      assert rows[1..][j - 1] in rows[1..];
    } else {
      IndependentPairs(rows[1..], i - 1, j - 1);
    }
  }

  lemma {:induction false} AppendIndependent(rows: seq<EvidenceRow>, row: EvidenceRow)
    requires Independent(rows) && forall other | other in rows :: Apart(other, row)
    ensures Independent(rows + [row])
  {
    if rows != [] {
      AppendIndependent(rows[1..], row);
      assert (rows + [row])[1..] == rows[1..] + [row];
    }
  }

  lemma {:induction false} CascadeKeepsIndependent(rows: seq<EvidenceRow>, owner: OwnerId, id: PersonId)
    requires Independent(rows)
    ensures Independent(WithoutEvidenceOf(rows, owner, id))
  {
    if rows != [] {
      CascadeKeepsIndependent(rows[1..], owner, id);
      var rest := WithoutEvidenceOf(rows[1..], owner, id);
      if !(rows[0].owner == owner && rows[0].person == id) {
        assert WithoutEvidenceOf(rows, owner, id) == [rows[0]] + rest;
        assert ([rows[0]] + rest)[1..] == rest;
      } else {
        assert WithoutEvidenceOf(rows, owner, id) == rest;
      }
    }
  }

  lemma AcceptedIsApart(t: Tables, owner: OwnerId, row: EvidenceRow)
    requires row.owner == owner && row.session == row.observation.session && row.turn == row.observation.turn
    requires TurnRow(t.evidence, owner, row.observation).None?
    requires !AudioReplayed(t, owner, row.audio) && !CaptureUsed(t, owner, row.observation)
    requires Independent(t.evidence)
    ensures Independent(t.evidence + [row])
  {
    forall other | other in t.evidence ensures Apart(other, row) {
      assert !SameTurn(other, owner, row.observation);
    }
    AppendIndependent(t.evidence, row);
  }

  lemma PersonsKeepIndependent(t: Tables, limits: Limits, o: OwnerId, c: PersonCommand, clock: Clock)
    requires Independent(t.evidence)
    ensures Independent(StepPersons(t, limits, o, c, clock).evidence)
  {
    match c
    case CmdDelete(id, expected, complete) =>
      if id in t.persons { CascadeKeepsIndependent(t.evidence, t.persons[id].owner, id); }
    case _ => assert StepPersons(t, limits, o, c, clock).evidence == t.evidence;
  }

  lemma DiscoveryKeepsIndependent(
    t: Tables, limits: Limits, o: OwnerId, policy: Option<DiscoveryPolicy>, request: DiscoverRequest, id: PersonId,
    realm: RealmId, profile: ProfileId, clock: Clock)
    requires Independent(t.evidence)
    ensures Independent(After(t, DiscoverCandidate(t, limits, o, policy, request, id, realm, profile, clock)).evidence)
  {
    var u := After(t, DiscoverCandidate(t, limits, o, policy, request, id, realm, profile, clock));
    DiscoverEffect(t, limits, o, policy, request, id, realm, profile, clock);
    if u != t { AcceptedIsApart(t, o, u.evidence[|t.evidence|]); }
  }

  lemma TurnKeepsIndependent(
    t: Tables, limits: Limits, o: OwnerId, discovery: Option<DiscoveryPolicy>, promotion: Option<PromotionPolicy>,
    request: EvidenceRequest, clock: Clock)
    requires Independent(t.evidence)
    ensures Independent(After(t, RecordEvidence(t, limits, o, discovery, promotion, request, clock)).evidence)
  {
    var u := After(t, RecordEvidence(t, limits, o, discovery, promotion, request, clock));
    EvidenceEffect(t, limits, o, discovery, promotion, request, clock);
    if u != t { AcceptedIsApart(t, o, u.evidence[|t.evidence|]); }
  }

  lemma VoiceKeepsIndependent(t: Tables, limits: Limits, o: OwnerId, c: VoiceCommand, clock: Clock)
    requires Independent(t.evidence)
    ensures Independent(StepVoice(t, limits, o, c, clock).evidence)
  {
    match c
    case CmdDiscover(policy, request, id, realm, profile) =>
      DiscoveryKeepsIndependent(t, limits, o, policy, request, id, realm, profile, clock);
    case CmdEvidence(discovery, promotion, request) => TurnKeepsIndependent(t, limits, o, discovery, promotion, request, clock);
    case _ => assert StepVoice(t, limits, o, c, clock).evidence == t.evidence;
  }

  lemma StepKeepsIndependent(t: Tables, limits: Limits, e: Event)
    requires Independent(t.evidence)
    ensures Independent(Step(t, limits, e).evidence)
  {
    match e.command
    case Persons(c) => PersonsKeepIndependent(t, limits, e.owner, c, e.clock);
    case Voice(c) => VoiceKeepsIndependent(t, limits, e.owner, c, e.clock);
    case _ => assert Step(t, limits, e).evidence == t.evidence;
  }

  lemma {:induction false} RunKeepsIndependent(t: Tables, limits: Limits, events: seq<Event>)
    requires Independent(t.evidence)
    ensures Independent(Run(t, limits, events).evidence)
    decreases |events|
  {
    if events != [] {
      StepKeepsIndependent(t, limits, events[0]);
      RunKeepsIndependent(Step(t, limits, events[0]), limits, events[1..]);
    }
  }

  /** In every reachable state any two receipts are apart. */
  lemma EvidenceIsIndependent(limits: Limits, events: seq<Event>, i: nat, j: nat)
    requires i < j < |Run(EMPTY, limits, events).evidence|
    ensures Apart(Run(EMPTY, limits, events).evidence[i], Run(EMPTY, limits, events).evidence[j])
  {
    RunKeepsIndependent(EMPTY, limits, events);
    IndependentPairs(Run(EMPTY, limits, events).evidence, i, j);
  }

  // ----- No sample is counted twice -------------------------------------------

  /** The receipts of one captured stream. */
  function Stream(rows: seq<EvidenceRow>, owner: OwnerId, session: Tag, input: Tag, generation: int): (s: seq<EvidenceRow>)
    ensures forall row :: row in s <==> row in rows && InStream(row, owner, session, input, generation)
  {
    if rows == [] then []
    else (if InStream(rows[0], owner, session, input, generation) then [rows[0]] else [])
         + Stream(rows[1..], owner, session, input, generation)
  }

  predicate InStream(row: EvidenceRow, owner: OwnerId, session: Tag, input: Tag, generation: int) {
    row.owner == owner && row.session == session
    && row.observation.source.input == input && row.observation.source.generation == generation
  }

  function Length(s: Source): nat {
    if s.start <= s.end then s.end - s.start else 0
  }

  function TotalSamples(rows: seq<EvidenceRow>): nat {
    if rows == [] then 0 else Length(rows[0].observation.source) + TotalSamples(rows[1..])
  }

  function Interval(lo: int, hi: int): (r: set<int>)
    ensures forall k :: k in r <==> lo <= k < hi
    ensures lo <= hi ==> |r| == hi - lo
    decreases hi - lo
  {
    if lo >= hi then {} else Interval(lo, hi - 1) + {hi - 1}
  }

  function Samples(s: Source): (r: set<int>)
    ensures |r| == Length(s)
  {
    if s.start <= s.end then Interval(s.start, s.end) else {}
  }

  function AllSamples(rows: seq<EvidenceRow>): (all: set<int>)
    ensures forall k :: k in all <==> exists row | row in rows :: k in Samples(row.observation.source)
  {
    if rows == [] then {}
    else
      assert rows == [rows[0]] + rows[1..];
      Samples(rows[0].observation.source) + AllSamples(rows[1..])
  }

  /** Receipts of one stream share no sample, so counting receipts by length counts samples once. */
  lemma {:induction false} TotalIsUnion(rows: seq<EvidenceRow>, owner: OwnerId, session: Tag, input: Tag, generation: int)
    requires Independent(rows) && forall row | row in rows :: InStream(row, owner, session, input, generation)
    ensures TotalSamples(rows) == |AllSamples(rows)|
  {
    if rows != [] {
      TotalIsUnion(rows[1..], owner, session, input, generation);
      var first, rest := Samples(rows[0].observation.source), AllSamples(rows[1..]);
      forall row | row in rows[1..] ensures first !! Samples(row.observation.source) {
        assert row in rows && Apart(rows[0], row);
        assert InStream(rows[0], owner, session, input, generation) && InStream(row, owner, session, input, generation);
      }
      assert first !! rest;
    }
  }

  lemma {:induction false} StreamIndependent(rows: seq<EvidenceRow>, owner: OwnerId, session: Tag, input: Tag, generation: int)
    requires Independent(rows)
    ensures Independent(Stream(rows, owner, session, input, generation))
  {
    if rows != [] {
      StreamIndependent(rows[1..], owner, session, input, generation);
      var rest := Stream(rows[1..], owner, session, input, generation);
      if InStream(rows[0], owner, session, input, generation) {
        assert Stream(rows, owner, session, input, generation) == [rows[0]] + rest;
        assert ([rows[0]] + rest)[1..] == rest;
      } else {
        assert Stream(rows, owner, session, input, generation) == rest;
      }
    }
  }

  /** In every reachable state the accepted length of a stream fits between its earliest start and latest end. */
  lemma AcceptedSamplesFit(
    limits: Limits, events: seq<Event>, owner: OwnerId, session: Tag, input: Tag, generation: int, lo: int, hi: int)
    requires lo <= hi
    requires forall row | row in Stream(Run(EMPTY, limits, events).evidence, owner, session, input, generation) ::
               lo <= row.observation.source.start && row.observation.source.end <= hi
    ensures TotalSamples(Stream(Run(EMPTY, limits, events).evidence, owner, session, input, generation)) <= hi - lo
  {
    var rows := Stream(Run(EMPTY, limits, events).evidence, owner, session, input, generation);
    RunKeepsIndependent(EMPTY, limits, events);
    StreamIndependent(Run(EMPTY, limits, events).evidence, owner, session, input, generation);
    TotalIsUnion(rows, owner, session, input, generation);
    SubsetSize(AllSamples(rows), Interval(lo, hi));
  }

  // ----- Promotion ------------------------------------------------------------

  predicate Supports(row: EvidenceRow, owner: OwnerId, id: PersonId, value: Observation, policy: PromotionPolicy, since: real) {
    row.owner == owner && row.person == id && Qualifies(row.observation, value, policy) && since <= row.observation.issuedAt
  }

  /** The receipts a promotion may rest on. */
  function Support(
    rows: seq<EvidenceRow>, owner: OwnerId, id: PersonId, value: Observation, policy: PromotionPolicy, since: real)
    : seq<EvidenceRow>
  {
    if rows == [] then []
    else (if Supports(rows[0], owner, id, value, policy, since) then [rows[0]] else [])
         + Support(rows[1..], owner, id, value, policy, since)
  }

  /** Taking the first row off counts it and its speech once, if it supports. */
  lemma SupportHead(rows: seq<EvidenceRow>, owner: OwnerId, id: PersonId, value: Observation, policy: PromotionPolicy, since: real)
    requires rows != []
    ensures var rest := Support(rows[1..], owner, id, value, policy, since);
            var all := Support(rows, owner, id, value, policy, since);
            if Supports(rows[0], owner, id, value, policy, since) then
              |all| == |rest| + 1 && SpeechMs(all) == SpeechMs(rest) + rows[0].observation.speechMs
            else all == rest
  {
    var rest := Support(rows[1..], owner, id, value, policy, since);
    if Supports(rows[0], owner, id, value, policy, since) {
      assert ([rows[0]] + rest)[1..] == rest;
    } else {
      assert [] + rest == rest;
    }
  }

  lemma {:induction false} SupportAppend(
    rows: seq<EvidenceRow>, row: EvidenceRow, owner: OwnerId, id: PersonId, value: Observation, policy: PromotionPolicy, since: real)
    requires Supports(row, owner, id, value, policy, since)
    ensures |Support(rows + [row], owner, id, value, policy, since)| == |Support(rows, owner, id, value, policy, since)| + 1
    ensures SpeechMs(Support(rows + [row], owner, id, value, policy, since)) ==
            SpeechMs(Support(rows, owner, id, value, policy, since)) + row.observation.speechMs
  {
    SupportHead(rows + [row], owner, id, value, policy, since);
    if rows != [] {
      SupportHead(rows, owner, id, value, policy, since);
      SupportAppend(rows[1..], row, owner, id, value, policy, since);
      assert (rows + [row])[1..] == rows[1..] + [row];
    } else {
      assert (rows + [row])[1..] == rows;
    }
  }

  lemma EligibleHead(rows: seq<EvidenceRow>, value: Observation, policy: PromotionPolicy, clock: Clock, k: nat)
    requires rows != []
    ensures var rest := EligibleRows(rows[1..], value, policy, clock, k + 2);
            var all := EligibleRows(rows, value, policy, clock, k);
            if Eligible(rows[0].observation, value, policy, clock, k) then
              |all| == |rest| + 1 && SpeechMs(all) == SpeechMs(rest) + rows[0].observation.speechMs
            else all == rest
  {
    var rest := EligibleRows(rows[1..], value, policy, clock, k + 2);
    if Eligible(rows[0].observation, value, policy, clock, k) {
      assert ([rows[0]] + rest)[1..] == rest;
    } else {
      assert [] + rest == rest;
    }
  }

  lemma EvidenceOfHead(rows: seq<EvidenceRow>, owner: OwnerId, id: PersonId)
    requires rows != []
    ensures EvidenceOf(rows, owner, id) ==
            if rows[0].owner == owner && rows[0].person == id then [rows[0]] + EvidenceOf(rows[1..], owner, id)
            else EvidenceOf(rows[1..], owner, id)
  {
    assert [] + EvidenceOf(rows[1..], owner, id) == EvidenceOf(rows[1..], owner, id);
  }

  lemma EligibleSupports(row: EvidenceRow, value: Observation, policy: PromotionPolicy, clock: Clock, k: nat)
    requires Nondecreasing(clock) && Eligible(row.observation, value, policy, clock, k)
    ensures Supports(row, row.owner, row.person, value, policy, clock(0) - policy.maxEvidenceAge)
  {
    assert clock(0) <= clock(k);
  }

  /** Every receipt found eligible, whenever its clock readings fell, is one the promotion may rest on. */
  lemma {:induction false} EligibleWithinSupport(
    rows: seq<EvidenceRow>, owner: OwnerId, id: PersonId, value: Observation, policy: PromotionPolicy, clock: Clock, k: nat)
    requires Nondecreasing(clock)
    ensures var since := clock(0) - policy.maxEvidenceAge;
            var chosen := EligibleRows(EvidenceOf(rows, owner, id), value, policy, clock, k);
            var support := Support(rows, owner, id, value, policy, since);
            |chosen| <= |support| && SpeechMs(chosen) <= SpeechMs(support)
  {
    if rows != [] {
      SupportHead(rows, owner, id, value, policy, clock(0) - policy.maxEvidenceAge);
      EvidenceOfHead(rows, owner, id);
      if rows[0].owner == owner && rows[0].person == id {
        var mine := EvidenceOf(rows, owner, id);
        assert mine[1..] == EvidenceOf(rows[1..], owner, id);
        EligibleHead(mine, value, policy, clock, k);
        EligibleWithinSupport(rows[1..], owner, id, value, policy, clock, k + 2);
        if Eligible(rows[0].observation, value, policy, clock, k) { EligibleSupports(rows[0], value, policy, clock, k); }
      } else {
        EligibleWithinSupport(rows[1..], owner, id, value, policy, clock, k);
      }
    }
  }

  lemma {:induction false} SupportRows(
    rows: seq<EvidenceRow>, owner: OwnerId, id: PersonId, value: Observation, policy: PromotionPolicy, since: real)
    ensures forall row | row in Support(rows, owner, id, value, policy, since) ::
              row in rows && Supports(row, owner, id, value, policy, since)
  {
    if rows != [] {
      SupportRows(rows[1..], owner, id, value, policy, since);
    }
  }

  lemma {:induction false} SupportIndependent(
    rows: seq<EvidenceRow>, owner: OwnerId, id: PersonId, value: Observation, policy: PromotionPolicy, since: real)
    requires Independent(rows)
    ensures Independent(Support(rows, owner, id, value, policy, since))
  {
    if rows != [] {
      SupportRows(rows[1..], owner, id, value, policy, since);
      SupportIndependent(rows[1..], owner, id, value, policy, since);
      var rest := Support(rows[1..], owner, id, value, policy, since);
      if Supports(rows[0], owner, id, value, policy, since) {
        assert Support(rows, owner, id, value, policy, since) == [rows[0]] + rest && ([rows[0]] + rest)[1..] == rest;
      } else {
        assert Support(rows, owner, id, value, policy, since) == rest;
      }
    }
  }

  /** A command that establishes a candidate is an accepted evidence command under a promotion policy. */
  lemma OnlyEvidencePromotes(t: Tables, limits: Limits, e: Event, id: PersonId)
    requires id in t.persons && t.persons[id].maturity == Candidate
    requires id in Step(t, limits, e).persons && Step(t, limits, e).persons[id].maturity == Established
    ensures e.command.Voice? && e.command.voice.CmdEvidence? && e.command.voice.promotion.Some?
    ensures var c := e.command.voice;
            && c.evidence.observation.person == Some(id) && c.evidence.observation.profile.Some? && e.owner in t.owners
            && Step(t, limits, e) == WithEvidence(t, e.owner, c.promotion, c.evidence, e.clock)
            && Promotes(EvidenceOf(t.evidence, e.owner, id), c.evidence.observation, c.promotion, e.clock)
  {
    match e.command
    case Persons(c) => PersonsNeverPromote(t, limits, e.owner, c, e.clock, id);
    case Memory(c) => MemoryNeverPromotes(t, limits, e.owner, c, e.clock, id);
    case Voice(c) => VoicePromotion(t, limits, e.owner, c, e.clock, id);
    case Owners(c) =>
  }

  lemma MemoryNeverPromotes(t: Tables, limits: Limits, o: OwnerId, c: MemoryCommand, clock: Clock, id: PersonId)
    requires id in t.persons && id in StepMemory(t, limits, o, c, clock).persons
    ensures StepMemory(t, limits, o, c, clock).persons[id].maturity == t.persons[id].maturity
  {
  }

  lemma PersonsNeverPromote(t: Tables, limits: Limits, o: OwnerId, c: PersonCommand, clock: Clock, id: PersonId)
    requires id in t.persons && id in StepPersons(t, limits, o, c, clock).persons
    ensures StepPersons(t, limits, o, c, clock).persons[id].maturity == t.persons[id].maturity
  {
  }

  lemma VoicePromotion(t: Tables, limits: Limits, o: OwnerId, c: VoiceCommand, clock: Clock, id: PersonId)
    requires id in t.persons && t.persons[id].maturity == Candidate
    requires id in StepVoice(t, limits, o, c, clock).persons
    requires StepVoice(t, limits, o, c, clock).persons[id].maturity == Established
    ensures c.CmdEvidence? && c.promotion.Some?
    ensures && c.evidence.observation.person == Some(id) && c.evidence.observation.profile.Some? && o in t.owners
            && StepVoice(t, limits, o, c, clock) == WithEvidence(t, o, c.promotion, c.evidence, clock)
            && Promotes(EvidenceOf(t.evidence, o, id), c.evidence.observation, c.promotion, clock)
  {
    match c
    case CmdDiscover(policy, request, found, realm, profile) =>
      DiscoverEffect(t, limits, o, policy, request, found, realm, profile, clock);
    case CmdEvidence(discovery, promotion, request) => EvidenceEffect(t, limits, o, discovery, promotion, request, clock);
    case _ =>
  }

  /** Enough speech in enough receipts of one profile revision, no two of them sharing anything. */
  ghost predicate RestsOn(
    rows: seq<EvidenceRow>, owner: OwnerId, id: PersonId, value: Observation, policy: PromotionPolicy, since: real)
  {
    var support := Support(rows, owner, id, value, policy, since);
    |support| >= policy.minTurns && SpeechMs(support) >= policy.minTotalSpeechMs && Independent(support)
  }

  lemma PromotedSupport(
    t: Tables, owner: OwnerId, promotion: Option<PromotionPolicy>, request: EvidenceRequest, clock: Clock)
    requires Nondecreasing(clock)
    requires request.observation.person.Some? && request.observation.person.value in t.persons && request.observation.profile.Some?
    requires owner in t.owners && Independent(WithEvidenceRows(t, owner, request))
    requires Promotes(EvidenceOf(t.evidence, owner, request.observation.person.value), request.observation, promotion, clock)
    ensures RestsOn(WithEvidence(t, owner, promotion, request, clock).evidence, owner, request.observation.person.value,
                    request.observation, promotion.value, clock(0) - promotion.value.maxEvidenceAge)
  {
    var value, policy := request.observation, promotion.value;
    var id, since := value.person.value, clock(0) - policy.maxEvidenceAge;
    var rows := WithEvidenceRows(t, owner, request);
    EligibleWithinSupport(t.evidence, owner, id, value, policy, clock, 5);
    assert clock(0) <= clock(3);
    SupportAppend(t.evidence, rows[|t.evidence|], owner, id, value, policy, since);
    SupportIndependent(rows, owner, id, value, policy, since);
  }

  function WithEvidenceRows(t: Tables, owner: OwnerId, request: EvidenceRequest): seq<EvidenceRow>
    requires request.observation.person.Some? && request.observation.profile.Some?
  {
    var value := request.observation;
    t.evidence + [EvidenceRow(owner, value.person.value, value.session, value.turn, request.audio, value.profile.value,
                              value.profileRevision, request.digest, value)]
  }

  lemma EvidenceIsAppended(
    t: Tables, owner: OwnerId, promotion: Option<PromotionPolicy>, request: EvidenceRequest, clock: Clock, u: Tables)
    requires request.observation.person.Some? && request.observation.person.value in t.persons && request.observation.profile.Some?
    requires owner in t.owners && u == WithEvidence(t, owner, promotion, request, clock)
    ensures u.evidence == WithEvidenceRows(t, owner, request)
  {
  }

  /** The command is an evidence turn that promotes the candidate: these are its rows. */
  ghost predicate PromotedBy(t: Tables, owner: OwnerId, c: VoiceCommand, clock: Clock, id: PersonId, u: Tables) {
    && c.CmdEvidence? && c.promotion.Some? && id in t.persons && owner in t.owners
    && c.evidence.observation.person == Some(id) && c.evidence.observation.profile.Some?
    && u == WithEvidence(t, owner, c.promotion, c.evidence, clock)
    && Promotes(EvidenceOf(t.evidence, owner, id), c.evidence.observation, c.promotion, clock)
  }

  lemma PromotionRests(t: Tables, owner: OwnerId, c: VoiceCommand, clock: Clock, id: PersonId, u: Tables)
    requires Nondecreasing(clock) && PromotedBy(t, owner, c, clock, id, u) && Independent(u.evidence)
    ensures RestsOn(u.evidence, owner, id, c.evidence.observation, c.promotion.value, clock(0) - c.promotion.value.maxEvidenceAge)
  {
    EvidenceIsAppended(t, owner, c.promotion, c.evidence, clock, u);
    PromotedSupport(t, owner, c.promotion, c.evidence, clock);
  }

  /** An evidence turn for id, and what its promotion policy asks for is there in independent receipts. */
  ghost predicate TurnJustified(rows: seq<EvidenceRow>, owner: OwnerId, c: VoiceCommand, clock: Clock, id: PersonId) {
    c.CmdEvidence? && c.promotion.Some? && c.evidence.observation.person == Some(id)
    && RestsOn(rows, owner, id, c.evidence.observation, c.promotion.value, clock(0) - c.promotion.value.maxEvidenceAge)
  }

  ghost predicate Justified(rows: seq<EvidenceRow>, e: Event, id: PersonId) {
    e.command.Voice? && TurnJustified(rows, e.owner, e.command.voice, e.clock, id)
  }

  lemma TurnRests(t: Tables, limits: Limits, o: OwnerId, c: VoiceCommand, clock: Clock, id: PersonId, u: Tables)
    requires Independent(t.evidence) && Nondecreasing(clock) && u == StepVoice(t, limits, o, c, clock)
    requires id in t.persons && t.persons[id].maturity == Candidate
    requires id in u.persons && u.persons[id].maturity == Established
    ensures TurnJustified(u.evidence, o, c, clock, id)
  {
    VoiceKeepsIndependent(t, limits, o, c, clock);
    VoicePromotion(t, limits, o, c, clock, id);
    PromotionRests(t, o, c, clock, id, u);
  }

  lemma PromotionStepRests(t: Tables, limits: Limits, e: Event, id: PersonId, u: Tables)
    requires Independent(t.evidence) && Nondecreasing(e.clock) && u == Step(t, limits, e)
    requires id in t.persons && t.persons[id].maturity == Candidate
    requires id in u.persons && u.persons[id].maturity == Established
    ensures Justified(u.evidence, e, id)
  {
    OnlyEvidencePromotes(t, limits, e, id);
    TurnRests(t, limits, e.owner, e.command.voice, e.clock, id, u);
  }

  /** Every promotion, at any point of any run, rests on enough independent receipts of one profile revision:
      at least min_turns of them, no older than the policy allows, with the required speech in total. */
  lemma PromotionRestsOnIndependentEvidence(limits: Limits, events: seq<Event>, e: Event, id: PersonId)
    requires Nondecreasing(e.clock)
    requires var t := Run(EMPTY, limits, events);
             && id in t.persons && t.persons[id].maturity == Candidate
             && id in Step(t, limits, e).persons && Step(t, limits, e).persons[id].maturity == Established
    ensures Justified(Step(Run(EMPTY, limits, events), limits, e).evidence, e, id)
  {
    RunKeepsIndependent(EMPTY, limits, events);
    PromotionStepRests(Run(EMPTY, limits, events), limits, e, id, Step(Run(EMPTY, limits, events), limits, e));
  }
}
