/** When exactly each persona command is accepted, read off the rows before it, and what it then writes. */
module PersonaAnswers {
  import opened Core
  import opened Persona
  import opened PersonaRuns

  predicate OwnerHas(s: Rows, owner: OwnerId, id: CompanionId) {
    id in s.companions && s.companions[id].owner == owner
  }

  /** version is the companion's next: one more than the highest of its genomes, or 1. */
  predicate NextVersion(s: Rows, id: CompanionId, version: int) {
    && (forall g | g in s.genomes && s.genomes[g].companion == id :: s.genomes[g].version < version)
    && (version == 1 || exists g | g in s.genomes :: s.genomes[g].companion == id && s.genomes[g].version == version - 1)
  }

  lemma HighestIsBelowNext(s: Rows, id: CompanionId)
    ensures NextVersion(s, id, Highest(s, id) + 1)
  {
    var h := Highest(s, id);
    forall g | g in s.genomes && s.genomes[g].companion == id ensures s.genomes[g].version < h + 1 {
      assert BelongsTo(s, g, id);
    }
    if !(h == 0 && forall g :: !BelongsTo(s, g, id)) {
      var g :| BelongsTo(s, g, id) && s.genomes[g].version == h;
    }
  }

  // ----- Evolution --------------------------------------------------------------

  /** A proposal is accepted exactly on the companion's current genome, when the library accepts it and its id is new. */
  lemma ProposalAcceptedExactlyWhen(s: Rows, sdk: Sdk, p: Proposal)
    ensures Propose(s, sdk, p).answer.Ok? <==>
              && OwnerHas(s, p.owner, p.companion) && s.companions[p.companion].current == Some(p.base) && p.base in s.genomes
              && sdk.accepts(s.genomes[p.base].content, p) && p.proposed !in s.genomes
    ensures Propose(s, sdk, p).answer.Err? ==> Propose(s, sdk, p).rows == s
  {
  }

  /** It adds one row, under its id, with its text, on its base, open, above every version of the companion, and changes
      nothing else; the row is the answer. */
  lemma ProposalWritesTheRequest(s: Rows, sdk: Sdk, p: Proposal)
    requires Propose(s, sdk, p).answer.Ok?
    ensures var (u, row) := (Propose(s, sdk, p).rows, Propose(s, sdk, p).answer.value);
            && u.companions == s.companions && u.genomes == s.genomes[p.proposed := row] && p.proposed !in s.genomes
            && row.content == p.content && row.base == Some(p.base) == s.companions[p.companion].current
            && row.status == Proposed && row.companion == p.companion && row.restoredFrom == None
            && NextVersion(s, p.companion, row.version)
  {
    HighestIsBelowNext(s, p.companion);
  }

  /** Whatever happens in between, approving the proposal makes the text that was proposed the current one. */
  lemma ApprovalBringsTheProposedText(
    s: Rows, sdk: Sdk, p: Proposal, cs: seq<Command>, owner: OwnerId, id: CompanionId, expected: Option<GenomeId>)
    requires Propose(s, sdk, p).answer.Ok?
    ensures var later := Run(Propose(s, sdk, p).rows, sdk, cs);
            var approval := Approve(later, sdk, owner, id, p.proposed, expected);
            approval.answer.Ok? ==>
              && id == p.companion && later.companions[id].current == Some(p.base)
              && approval.rows.companions[id].current == Some(p.proposed) && HasCurrent(approval.rows, id)
              && approval.rows.genomes[p.proposed].content == p.content == approval.answer.value.content
  {
    var u := Propose(s, sdk, p).rows;
    var later := Run(u, sdk, cs);
    RunExtends(u, sdk, cs);
    assert Kept(u.genomes[p.proposed], later.genomes[p.proposed]);
  }

  /** An approval is accepted exactly for an open proposal of the owner's companion on what is current, expected so if
      anything is, that the library still accepts. */
  lemma ApprovalAcceptedExactlyWhen(s: Rows, sdk: Sdk, owner: OwnerId, id: CompanionId, g: GenomeId, expected: Option<GenomeId>)
    requires AllPointersSound(s)
    ensures var outcome := Approve(s, sdk, owner, id, g, expected);
            var open := OwnerHas(s, owner, id) && g in s.genomes && s.genomes[g].companion == id && s.genomes[g].status == Proposed;
            var fits := open && s.genomes[g].base == s.companions[id].current && (expected.None? || expected == s.genomes[g].base);
            && (outcome.answer.Ok? <==>
                  fits && s.companions[id].current.Some?
                  && var base := s.genomes[s.companions[id].current.value].content;
                     sdk.accepts(base, Proposal(owner, id, s.companions[id].current.value, base, g, s.genomes[g].content)))
            && (outcome.answer.Err? ==>
                  outcome.rows == if open && !fits then s.(genomes := s.genomes[g := s.genomes[g].(status := Stale)]) else s)
  {
    if id in s.companions { assert PointerSound(s, id); }
  }

  /** A rejection is accepted exactly for an open proposal of an owned companion, and closes it. */
  lemma RejectionAcceptedExactlyWhen(s: Rows, owner: OwnerId, g: GenomeId, id: Option<CompanionId>)
    ensures var outcome := Reject(s, owner, g, id);
            && (outcome.answer.Ok? <==>
                  g in s.genomes && OwnerHas(s, owner, s.genomes[g].companion) && s.genomes[g].status == Proposed
                  && (id.Some? ==> s.genomes[g].companion == id.value))
            && outcome.rows == if outcome.answer.Ok? then s.(genomes := s.genomes[g := s.genomes[g].(status := Rejected)]) else s
  {
  }

  /** create_genome is accepted exactly for an owned companion, a base of its own or none, a new id and an unused positive
      version; it writes the row as given and moves the pointer exactly when the row is committed. */
  lemma CreationAcceptedExactlyWhen(s: Rows, owner: OwnerId, g: GenomeId, row: Genome)
    ensures var outcome := CreateGenome(s, owner, g, row);
            && (outcome.answer.Ok? <==>
                  && OwnerHas(s, owner, row.companion) && g !in s.genomes && row.version >= 1
                  && (row.base.Some? ==> row.base.value in s.genomes && s.genomes[row.base.value].companion == row.companion)
                  && forall k | k in s.genomes && s.genomes[k].companion == row.companion :: s.genomes[k].version != row.version)
            && (outcome.answer.Err? ==> outcome.rows == s)
            && (outcome.answer.Ok? ==>
                  && outcome.answer.value == row && outcome.rows.genomes == s.genomes[g := row]
                  && (forall k :: k in outcome.rows.companions <==> k in s.companions)
                  && (forall k | k in s.companions ::
                        outcome.rows.companions[k] ==
                        if k == row.companion && row.status == Committed then s.companions[k].(current := Some(g)) else s.companions[k]))
  {
  }

  // ----- Edits --------------------------------------------------------------------

  /** The action can be carried out on what is current. */
  predicate Feasible(s: Rows, sdk: Sdk, id: CompanionId, action: Action)
    requires HasCurrent(s, id)
  {
    match action
    case Rename(_) => true
    case RestoreTo(target) => target in s.genomes && s.genomes[target].companion == id && s.genomes[target].status == Committed
    case Author(authoring) => sdk.author(s.genomes[CurrentOf(s, id)].content, authoring, CurrentOf(s, id)).Some?
  }

  /** The action leaves the current text as it is. */
  predicate KeepsText(s: Rows, sdk: Sdk, id: CompanionId, action: Action)
    requires HasCurrent(s, id)
  {
    var current := CurrentOf(s, id);
    var text := s.genomes[current].content;
    match action
    case Rename(name) => sdk.trim(name) == text.name
    case RestoreTo(target) => target == current
    case Author(authoring) => sdk.author(text, authoring, current) == Some(text)
  }

  /** An edit is accepted exactly when it was recorded with this very content, or it is new, written against the current
      genome and preferences, feasible, and any genome it needs gets a new id. */
  lemma EditAcceptedExactlyWhen(s: Rows, sdk: Sdk, id: CompanionId, request: EditRequest, generated: GenomeId)
    ensures Edit(s, sdk, id, request, generated).answer.Ok? <==>
              && id in s.companions
              && if request.operation in s.companions[id].receipts then
                   var receipt := s.companions[id].receipts[request.operation];
                   receipt.request == request && receipt.genome in s.genomes
                 else
                   && HasCurrent(s, id) && s.companions[id].current == Some(request.expectedBase)
                   && s.companions[id].preferenceRevision == request.expectedPreferences
                   && Feasible(s, sdk, id, request.action)
                   && (generated in s.genomes ==> KeepsText(s, sdk, id, request.action))
    ensures Edit(s, sdk, id, request, generated).answer.Err? ==> Edit(s, sdk, id, request, generated).rows == s
  {
  }

  /** A rename of the companion is accepted exactly for a valid name, and then both names are the trimmed one; a genome is
      appended exactly when one of them was not. */
  lemma RenameAcceptedExactlyWhen(s: Rows, sdk: Sdk, id: CompanionId, displayName: Name, generated: GenomeId)
    requires id in s.companions
    ensures var (outcome, name) := (RenameCompanion(s, sdk, id, displayName, generated), sdk.trim(displayName));
            var named := HasCurrent(s, id) && s.companions[id].displayName == name && s.genomes[CurrentOf(s, id)].content.name == name;
            && (outcome.answer.Ok? <==> sdk.validName(name) && HasCurrent(s, id) && (named || generated !in s.genomes))
            && (outcome.answer.Err? || named ==> outcome.rows == s)
            && (outcome.answer.Ok? && !named ==>
                  var row := outcome.rows.genomes[generated];
                  && HasCurrent(outcome.rows, id) && CurrentOf(outcome.rows, id) == generated && NextVersion(s, id, row.version)
                  && outcome.rows.genomes == s.genomes[generated := row] && row.companion == id && row.status == Committed
                  && row.base == s.companions[id].current && row.content == s.genomes[CurrentOf(s, id)].content.(name := name)
                  && row.restoredFrom == None
                  && outcome.rows.companions == s.companions[id := s.companions[id].(
                       displayName := name, current := Some(generated), revision := s.companions[id].revision + 1)]
                  && outcome.answer.value == Some(outcome.rows.companions[id]))
            && (outcome.answer.Ok? && named ==> outcome.answer.value == Some(s.companions[id]))
  {
    HighestIsBelowNext(WithDisplayName(s, id, sdk.trim(displayName)), id);
  }

  /** A chapter is restored exactly when it is a committed genome of the companion, the caller's own if it says so; the copy
      is one new committed genome on the current one. */
  lemma RestoreAcceptedExactlyWhen(s: Rows, owner: Option<OwnerId>, id: CompanionId, target: GenomeId, generated: GenomeId)
    ensures var outcome := RestoreChapter(s, owner, id, target, generated);
            var already := HasCurrent(s, id)
                           && (CurrentOf(s, id) == target || s.genomes[CurrentOf(s, id)].restoredFrom == Some(target));
            && (outcome.answer.Ok? <==>
                  && HasCurrent(s, id) && (owner.Some? ==> s.companions[id].owner == owner.value)
                  && target in s.genomes && s.genomes[target].companion == id && s.genomes[target].status == Committed
                  && (already || generated !in s.genomes))
            && (outcome.answer.Err? || already ==> outcome.rows == s)
            && (outcome.answer.Ok? && !already ==>
                  var row := outcome.rows.genomes[generated];
                  && outcome.rows.genomes == s.genomes[generated := row] && row.companion == id && row.status == Committed
                  && NextVersion(s, id, row.version)
                  && outcome.rows.companions == s.companions[id := s.companions[id].(
                       current := Some(generated), revision := s.companions[id].revision + 1)])
  {
    HighestIsBelowNext(s, id);
  }

  /** A reset is accepted exactly for an owned companion with a current genome, when the copy, if one is needed, gets a new id. */
  lemma ResetAcceptedExactlyWhen(s: Rows, owner: OwnerId, id: CompanionId, generated: GenomeId)
    ensures var outcome := ResetToOrigin(s, owner, id, generated);
            && (outcome.answer.Ok? ==> OwnerHas(s, owner, id) && HasCurrent(s, id))
            && (OwnerHas(s, owner, id) && HasCurrent(s, id) && generated !in s.genomes ==> outcome.answer.Ok?)
            && (outcome.rows != s ==> outcome.answer.Ok? && generated !in s.genomes)
  {
  }

  /** Provisioning is accepted exactly for new ids, and brings the companion with its first genome, committed and current. */
  lemma ProvisionAcceptedExactlyWhen(
    s: Rows, owner: OwnerId, id: CompanionId, name: Name, g: GenomeId, content: Content, preferences: Preferences)
    ensures var outcome := Provision(s, owner, id, name, g, content, preferences);
            && (outcome.answer.Ok? <==> id !in s.companions && g !in s.genomes)
            && (outcome.answer.Err? ==> outcome.rows == s)
            && (outcome.answer.Ok? ==>
                  && OwnerHas(outcome.rows, owner, id) && HasCurrent(outcome.rows, id) && CurrentOf(outcome.rows, id) == g
                  && SnapshotOf(outcome.rows, id) == Snapshot(g, name, 1, content, preferences, 1)
                  && outcome.rows.genomes[g].companion == id && outcome.rows.genomes[g].version == 1 && outcome.rows.genomes[g].base.None?
                  && (forall k | k != id :: k in outcome.rows.companions <==> k in s.companions)
                  && (forall k | k in s.companions :: outcome.rows.companions[k] == s.companions[k])
                  && (forall k | k != g :: k in outcome.rows.genomes <==> k in s.genomes)
                  && (forall k | k in s.genomes :: outcome.rows.genomes[k] == s.genomes[k]))
  {
  }
}
