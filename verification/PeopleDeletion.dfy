/** Permanent deletion: request, then completion; retries converge on one receipt and the identity never returns. */
module PeopleDeletion {
  import opened Core
  import opened People
  import opened PeopleRuns

  /** In every reachable state an erasure is pending exactly while the archived person and a deleting realm both exist. */
  lemma PendingIsArchivedAndDeleting(limits: Limits, events: seq<Event>, id: PersonId)
    ensures var t := Run(EMPTY, limits, events);
            Pending(t, id) <==>
              (id in t.persons && t.persons[id].deleted && id in t.realms && t.realms[id].status == RealmDeleting)
  {
    RunKeepsSound(EMPTY, limits, events);
    var t := Run(EMPTY, limits, events);
    if id in t.realms { assert RealmSound(t, id); }
    if id in t.receipts { assert ReceiptSound(t, id); }
  }

  /** b is a later version of receipt a: the same request, at most completed since. */
  predicate Progressed(a: Receipt, b: Receipt) {
    b == a || b == a.(completed := true)
  }

  lemma MemoryKeepsReceipts(t: Tables, limits: Limits, o: OwnerId, c: MemoryCommand, clock: Clock)
    ensures StepMemory(t, limits, o, c, clock).receipts == t.receipts
  {
  }

  lemma DiscoveryKeepsReceipts(
    t: Tables, limits: Limits, o: OwnerId, policy: Option<DiscoveryPolicy>, request: DiscoverRequest, id: PersonId,
    realm: RealmId, profile: ProfileId, clock: Clock)
    ensures After(t, DiscoverCandidate(t, limits, o, policy, request, id, realm, profile, clock)).receipts == t.receipts
  {
    DiscoverEffect(t, limits, o, policy, request, id, realm, profile, clock);
  }

  lemma EvidenceKeepsReceipts(
    t: Tables, limits: Limits, o: OwnerId, discovery: Option<DiscoveryPolicy>, promotion: Option<PromotionPolicy>,
    request: EvidenceRequest, clock: Clock)
    ensures After(t, RecordEvidence(t, limits, o, discovery, promotion, request, clock)).receipts == t.receipts
  {
    EvidenceEffect(t, limits, o, discovery, promotion, request, clock);
  }

  lemma VoiceKeepsReceipts(t: Tables, limits: Limits, o: OwnerId, c: VoiceCommand, clock: Clock)
    ensures StepVoice(t, limits, o, c, clock).receipts == t.receipts
  {
    match c
    case CmdDiscover(policy, request, id, realm, profile) =>
      DiscoveryKeepsReceipts(t, limits, o, policy, request, id, realm, profile, clock);
    case CmdEvidence(discovery, promotion, request) => EvidenceKeepsReceipts(t, limits, o, discovery, promotion, request, clock);
    case _ =>
  }

  lemma StepKeepsReceipt(t: Tables, limits: Limits, e: Event, id: PersonId)
    requires Sound(t) && id in t.receipts
    ensures id in Step(t, limits, e).receipts && Progressed(t.receipts[id], Step(t, limits, e).receipts[id])
  {
    match e.command
    case Persons(c) =>
    case Memory(c) => MemoryKeepsReceipts(t, limits, e.owner, c, e.clock);
    case Voice(c) => VoiceKeepsReceipts(t, limits, e.owner, c, e.clock);
    case Owners(c) =>
  }

  lemma {:induction false} RunKeepsReceipt(t: Tables, limits: Limits, events: seq<Event>, id: PersonId)
    requires Sound(t) && id in t.receipts
    ensures id in Run(t, limits, events).receipts && Progressed(t.receipts[id], Run(t, limits, events).receipts[id])
    decreases |events|
  {
    if events != [] {
      StepKeepsSound(t, limits, events[0]);
      StepKeepsReceipt(t, limits, events[0], id);
      RunKeepsReceipt(Step(t, limits, events[0]), limits, events[1..], id);
    }
  }

  /** Deleting is never undone: from a pending erasure every run leads to the same pending erasure or to its completion. */
  lemma DeletingIsNeverUndone(t: Tables, limits: Limits, events: seq<Event>, id: PersonId)
    requires Sound(t) && Pending(t, id)
    ensures var u := Run(t, limits, events);
            if id in u.persons then
              u.persons[id].deleted && id in u.realms && u.realms[id].status == RealmDeleting && u.realms[id].id == t.receipts[id].realm
            else id !in u.realms && id in u.receipts && u.receipts[id] == t.receipts[id].(completed := true)
  {
    RunKeepsSound(t, limits, events);
    RunKeepsReceipt(t, limits, events, id);
    assert ReceiptSound(Run(t, limits, events), id);
  }

  /** Whatever happened since the request, an accepted retry answers with that request's receipt. */
  lemma RetriesAnswerTheSameReceipt(
    t: Tables, limits: Limits, events: seq<Event>, owner: OwnerId, id: PersonId, expected: int, complete: bool)
    requires Sound(t) && id in t.receipts
    ensures var outcome := PermanentDelete(Run(t, limits, events), owner, id, expected, complete);
            outcome.Done? ==>
              && owner == t.receipts[id].owner
              && Progressed(t.receipts[id], outcome.view)
              && (complete ==> outcome.view.completed)
              && (t.receipts[id].completed ==> outcome.tables == Run(t, limits, events))
  {
    RunKeepsReceipt(t, limits, events, id);
  }

  /** Completing is accepted while pending, and removes the person, the realm and every row that referred to the person,
      and nothing else: every other person, realm, voice receipt, profile, deletion receipt and owner stays. */
  lemma CompletionErases(t: Tables, id: PersonId)
    requires Sound(t) && Pending(t, id) && OwnerIsActive(t, t.receipts[id].owner)
    ensures var receipt := t.receipts[id];
            var outcome := PermanentDelete(t, receipt.owner, id, receipt.revision, true);
            && outcome.Done? && outcome.view == receipt.(completed := true)
            && outcome.tables.persons == t.persons - {id}
            && outcome.tables.realms == t.realms - {id}
            && (forall row :: row in outcome.tables.evidence <==> row in t.evidence && !(row.owner == receipt.owner && row.person == id))
            && (forall p :: p in outcome.tables.profiles <==>
                  p in t.profiles && !(t.profiles[p].owner == receipt.owner && t.profiles[p].person == id))
            && (forall p | p in outcome.tables.profiles :: outcome.tables.profiles[p] == t.profiles[p])
            && outcome.tables.receipts == t.receipts[id := outcome.view] && outcome.tables.owners == t.owners
  {
    assert ReceiptSound(t, id);
  }

  /** A requested deletion closes the identity: it is never created again, and no discovery ever adds it. */
  lemma IdentityNeverReturns(
    t: Tables, limits: Limits, events: seq<Event>, owner: OwnerId, request: PersonCreate, found: DiscoverRequest,
    policy: Option<DiscoveryPolicy>, realm: RealmId, profile: ProfileId, clock: Clock)
    requires Sound(t) && request.id in t.receipts
    ensures var u := Run(t, limits, events);
            && Create(u, limits, owner, request, realm, clock).Refused?
            && (t.receipts[request.id].completed ==> request.id !in u.persons)
            && After(u, DiscoverCandidate(u, limits, owner, policy, found, request.id, realm, profile, clock)) == u
  {
    var u := Run(t, limits, events);
    RunKeepsSound(t, limits, events);
    RunKeepsReceipt(t, limits, events, request.id);
    assert ReceiptSound(u, request.id);
    DiscoverEffect(u, limits, owner, policy, found, request.id, realm, profile, clock);
  }
}
