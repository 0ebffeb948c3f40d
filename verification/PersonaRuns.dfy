/** What every persona command keeps: genome content, receipts, and a pointer that never returns. */
module PersonaRuns {
  import opened Core
  import opened Persona

  /** Same genome, except that a proposed one may since have been decided. */
  predicate Kept(before: Genome, after: Genome) {
    before == after || (before.status == Proposed && before == after.(status := Proposed))
  }

  predicate CommittedIn(s: Rows, g: GenomeId) {
    g in s.genomes && s.genomes[g].status == Committed
  }

  /** The companion's pointer, if set, names a committed genome of its own. */
  predicate PointerSound(s: Rows, id: CompanionId)
    requires id in s.companions
  {
    var current := s.companions[id].current;
    current.Some? ==> CommittedIn(s, current.value) && s.genomes[current.value].companion == id
  }

  ghost predicate GenomesKept(s: Rows, u: Rows) {
    forall g | g in s.genomes :: g in u.genomes && Kept(s.genomes[g], u.genomes[g])
  }

  ghost predicate ReceiptsKept(s: Rows, u: Rows, id: CompanionId)
    requires id in s.companions && id in u.companions
  {
    && s.companions[id].owner == u.companions[id].owner
    && forall op | op in s.companions[id].receipts :: op in u.companions[id].receipts && u.companions[id].receipts[op] == s.companions[id].receipts[op]
  }

  /** The pointer stayed, or moved to a genome of the companion's own that was not committed before. */
  predicate MovedFreshly(s: Rows, u: Rows, id: CompanionId)
    requires id in s.companions && id in u.companions
  {
    u.companions[id].current == s.companions[id].current
    || (u.companions[id].current.Some? && PointerSound(u, id) && !CommittedIn(s, u.companions[id].current.value))
  }

  /** u continues s: the order in which reachable states stand. */
  ghost predicate Extends(s: Rows, u: Rows) {
    && GenomesKept(s, u)
    && (forall id | id in s.companions :: id in u.companions && ReceiptsKept(s, u, id) && MovedFreshly(s, u, id))
    && (forall id | id in u.companions && id !in s.companions :: PointerSound(u, id))
  }

  lemma ExtendsTransitive(s: Rows, t: Rows, u: Rows)
    requires Extends(s, t) && Extends(t, u)
    ensures Extends(s, u)
  {
    forall id | id in u.companions && id !in s.companions ensures PointerSound(u, id) {
      if id in t.companions { assert MovedFreshly(t, u, id); }
    }
    forall id | id in s.companions ensures MovedFreshly(s, u, id) {
      assert MovedFreshly(s, t, id) && MovedFreshly(t, u, id);
    }
  }

  // ----- One lemma per command ----------------------------------------------

  lemma AppendExtends(s: Rows, id: CompanionId, candidate: Content, restoredFrom: Option<GenomeId>, generated: GenomeId)
    requires id in s.companions && generated !in s.genomes
    ensures Extends(s, Appended(s, id, candidate, restoredFrom, generated))
  {
  }

  lemma EditedExtends(s: Rows, sdk: Sdk, id: CompanionId, request: EditRequest, generated: GenomeId)
    requires id in s.companions && EditRefusal(s, sdk, id, request, generated).None?
    ensures var u := Edited(s, id, request, Prepare(s, sdk, id, request.action).value, generated);
            Extends(s, u) && u.companions[id].receipts == s.companions[id].receipts
  {
    var p := Prepare(s, sdk, id, request.action).value;
    var named := WithDisplayName(s, id, p.displayName);
    if NeedsGenome(s, id, p) {
      AppendExtends(named, id, p.candidate, p.restored, generated);
    }
  }

  lemma EditExtends(s: Rows, sdk: Sdk, id: CompanionId, request: EditRequest, generated: GenomeId)
    ensures Extends(s, Edit(s, sdk, id, request, generated).rows)
  {
    if id in s.companions && request.operation !in s.companions[id].receipts
       && EditRefusal(s, sdk, id, request, generated).None? {
      var edited := Edited(s, id, request, Prepare(s, sdk, id, request.action).value, generated);
      EditedExtends(s, sdk, id, request, generated);
      ReceiptExtends(s, edited, id, request, SnapshotOf(edited, id));
    }
  }

  lemma ReceiptExtends(s: Rows, t: Rows, id: CompanionId, request: EditRequest, v: Snapshot)
    requires Extends(s, t) && id in s.companions && request.operation !in s.companions[id].receipts
    requires t.companions[id].receipts == s.companions[id].receipts
    ensures Extends(s, WithReceipt(t, id, request, v))
  {
    var u := WithReceipt(t, id, request, v);
    forall k | k in s.companions ensures k in u.companions && ReceiptsKept(s, u, k) && MovedFreshly(s, u, k) {
      assert ReceiptsKept(s, t, k) && MovedFreshly(s, t, k);
    }
  }

  lemma RenameExtends(s: Rows, sdk: Sdk, id: CompanionId, displayName: Name, generated: GenomeId)
    ensures Extends(s, RenameCompanion(s, sdk, id, displayName, generated).rows)
  {
    if HasCurrent(s, id) && generated !in s.genomes {
      var name := sdk.trim(displayName);
      AppendExtends(WithDisplayName(s, id, name), id, s.genomes[CurrentOf(s, id)].content.(name := name), None, generated);
    }
  }

  lemma RestoredExtends(s: Rows, id: CompanionId, target: GenomeId, generated: GenomeId)
    requires HasCurrent(s, id) && target in s.genomes
    ensures Extends(s, Restored(s, id, target, generated).rows)
  {
    if generated !in s.genomes {
      AppendExtends(s, id, s.genomes[target].content.(name := s.companions[id].displayName), Some(target), generated);
    }
  }

  lemma CreateExtends(s: Rows, owner: OwnerId, g: GenomeId, row: Genome)
    ensures Extends(s, CreateGenome(s, owner, g, row).rows)
  {
  }

  lemma ApproveExtends(s: Rows, sdk: Sdk, owner: OwnerId, id: CompanionId, g: GenomeId, expectedBase: Option<GenomeId>)
    ensures Extends(s, Approve(s, sdk, owner, id, g, expectedBase).rows)
  {
  }

  lemma TouchExtends(s: Rows, sdk: Sdk, c: Command)
    requires c.CmdPropose? || c.CmdReject? || c.CmdProvision? || c.CmdTouch?
    ensures Extends(s, Step(s, sdk, c))
  {
  }

  lemma RestoresExtend(s: Rows, sdk: Sdk, c: Command)
    requires c.CmdRestore? || c.CmdReset?
    ensures Extends(s, Step(s, sdk, c))
  {
    match c
    case CmdRestore(owner, id, target, generated) =>
      if HasCurrent(s, id) && target in s.genomes { RestoredExtends(s, id, target, generated); }
    case CmdReset(owner, id, generated) =>
      if HasCurrent(s, id) { RestoredExtends(s, id, Origin(s, id, CurrentOf(s, id), {}), generated); }
  }

  lemma StepExtends(s: Rows, sdk: Sdk, c: Command)
    ensures Extends(s, Step(s, sdk, c))
  {
    match c
    case CmdEdit(id, request, generated) => EditExtends(s, sdk, id, request, generated);
    case CmdRename(id, displayName, generated) => RenameExtends(s, sdk, id, displayName, generated);
    case CmdRestore(owner, id, target, generated) => RestoresExtend(s, sdk, c);
    case CmdReset(owner, id, generated) => RestoresExtend(s, sdk, c);
    case CmdCreateGenome(owner, g, row) => CreateExtends(s, owner, g, row);
    case CmdApprove(owner, id, g, expectedBase) => ApproveExtends(s, sdk, owner, id, g, expectedBase);
    case _ => TouchExtends(s, sdk, c);
  }

  lemma {:induction false} RunExtends(s: Rows, sdk: Sdk, cs: seq<Command>)
    ensures Extends(s, Run(s, sdk, cs))
    decreases |cs|
  {
    if cs != [] {
      StepExtends(s, sdk, cs[0]);
      RunExtends(Step(s, sdk, cs[0]), sdk, cs[1..]);
      ExtendsTransitive(s, Step(s, sdk, cs[0]), Run(s, sdk, cs));
    }
  }

  // ----- The pointer --------------------------------------------------------

  /** In every run from nothing a companion's pointer is at a committed genome of its own. */
  lemma CurrentIsCommitted(sdk: Sdk, cs: seq<Command>, id: CompanionId)
    requires id in Run(EMPTY, sdk, cs).companions
    ensures PointerSound(Run(EMPTY, sdk, cs), id)
  {
    RunExtends(EMPTY, sdk, cs);
  }

  ghost predicate AllPointersSound(s: Rows) {
    forall id | id in s.companions :: PointerSound(s, id)
  }

  lemma RunKeepsPointersSound(s: Rows, sdk: Sdk, cs: seq<Command>)
    requires AllPointersSound(s)
    ensures AllPointersSound(Run(s, sdk, cs))
  {
    var u := Run(s, sdk, cs);
    RunExtends(s, sdk, cs);
    forall id | id in u.companions ensures PointerSound(u, id) {
      if id in s.companions { assert MovedFreshly(s, u, id); }
    }
  }

  /** Once left, a genome is never current again, whatever the commands, with create_genome among them. */
  lemma PointerNeverReturns(s: Rows, sdk: Sdk, first: seq<Command>, second: seq<Command>, id: CompanionId)
    requires AllPointersSound(s) && id in s.companions && s.companions[id].current.Some?
    ensures var g, t := s.companions[id].current, Run(s, sdk, first);
            id in t.companions && id in Run(t, sdk, second).companions
            && (t.companions[id].current != g ==> Run(t, sdk, second).companions[id].current != g)
  {
    var t := Run(s, sdk, first);
    RunExtends(s, sdk, first);
    RunExtends(t, sdk, second);
    assert MovedFreshly(t, Run(t, sdk, second), id);
  }

  /** At most one proposal per base is ever approved: after one approval, every other proposal on that base is refused
      and marked stale instead. */
  lemma AtMostOneApprovalPerBase(
    s: Rows, sdk: Sdk, owner: OwnerId, id: CompanionId, g: GenomeId, expected: Option<GenomeId>, cs: seq<Command>,
    owner': OwnerId, g': GenomeId, expected': Option<GenomeId>)
    requires AllPointersSound(s) && Approve(s, sdk, owner, id, g, expected).answer.Ok?
    ensures var later := Run(Approve(s, sdk, owner, id, g, expected).rows, sdk, cs);
            g' in later.genomes && later.genomes[g'].base == s.genomes[g].base ==>
              var outcome := Approve(later, sdk, owner', id, g', expected');
              outcome.answer.Err?
              && (Owned(later, owner', id) && BelongsTo(later, g', id) && later.genomes[g'].status == Proposed ==>
                    outcome.answer == Err(CurrentChanged) && outcome.rows.genomes[g'].status == Stale)
  {
    var u := Approve(s, sdk, owner, id, g, expected).rows;
    assert u == Step(s, sdk, CmdApprove(owner, id, g, expected));
    StepExtends(s, sdk, CmdApprove(owner, id, g, expected));
    RunExtends(u, sdk, cs);
    var later := Run(u, sdk, cs);
    assert CommittedIn(s, s.genomes[g].base.value);
    assert CommittedIn(u, s.genomes[g].base.value);
    assert MovedFreshly(u, later, id);
    assert later.companions[id].current != s.genomes[g].base;
  }

  /** An edit written against a genome that has since been left is refused unless it was already applied. */
  lemma StaleEditIsRefused(s: Rows, sdk: Sdk, cs: seq<Command>, id: CompanionId, request: EditRequest, generated: GenomeId)
    requires AllPointersSound(s) && id in s.companions && s.companions[id].current.Some?
    requires request.expectedBase == s.companions[id].current.value
    ensures var later := Run(s, sdk, cs);
            id in later.companions
            && (later.companions[id].current != s.companions[id].current
                && request.operation !in later.companions[id].receipts ==>
                  Edit(later, sdk, id, request, generated).rows == later && Edit(later, sdk, id, request, generated).answer.Err?)
  {
    RunExtends(s, sdk, cs);
  }

  // ----- Receipts -----------------------------------------------------------

  /** Sending an accepted edit again, after any commands, changes nothing and answers the same snapshot. */
  lemma EditReplayIsExact(
    s: Rows, sdk: Sdk, id: CompanionId, request: EditRequest, generated: GenomeId, cs: seq<Command>, generated': GenomeId)
    requires Edit(s, sdk, id, request, generated).answer.Ok?
    ensures var u := Edit(s, sdk, id, request, generated);
            var later := Run(u.rows, sdk, cs);
            Edit(later, sdk, id, request, generated') == Outcome(later, u.answer)
  {
    var u := Edit(s, sdk, id, request, generated);
    RunExtends(u.rows, sdk, cs);
    EditIsRecorded(s, sdk, id, request, generated);
    assert ReceiptsKept(u.rows, Run(u.rows, sdk, cs), id);
  }

  /** Reusing its operation id for anything else is refused for ever. */
  lemma OperationIdIsTaken(
    s: Rows, sdk: Sdk, id: CompanionId, request: EditRequest, generated: GenomeId, cs: seq<Command>,
    other: EditRequest, generated': GenomeId)
    requires Edit(s, sdk, id, request, generated).answer.Ok?
    requires other.operation == request.operation && other != request
    ensures var later := Run(Edit(s, sdk, id, request, generated).rows, sdk, cs);
            Edit(later, sdk, id, other, generated') == Outcome(later, Err(OperationConflict))
  {
    var u := Edit(s, sdk, id, request, generated);
    RunExtends(u.rows, sdk, cs);
    EditIsRecorded(s, sdk, id, request, generated);
    assert ReceiptsKept(u.rows, Run(u.rows, sdk, cs), id);
  }

  /** An accepted edit leaves a receipt from which its answer can be rebuilt. */
  lemma EditIsRecorded(s: Rows, sdk: Sdk, id: CompanionId, request: EditRequest, generated: GenomeId)
    requires Edit(s, sdk, id, request, generated).answer.Ok?
    ensures var u := Edit(s, sdk, id, request, generated);
            id in u.rows.companions && request.operation in u.rows.companions[id].receipts
            && var receipt := u.rows.companions[id].receipts[request.operation];
               receipt.request == request && Replay(u.rows, receipt) == Outcome(u.rows, u.answer)
  {
  }

  /** A first application: nothing but this companion and at most one new genome on the expected base is touched, the
      answer is the new state, and the preference revision moves exactly when the preferences do. */
  lemma EditAppliesOnce(s: Rows, sdk: Sdk, id: CompanionId, request: EditRequest, generated: GenomeId)
    requires Edit(s, sdk, id, request, generated).answer.Ok?
    requires request.operation !in s.companions[id].receipts
    ensures var (u, v) := (Edit(s, sdk, id, request, generated).rows, Edit(s, sdk, id, request, generated).answer.value);
            var (c, d) := (s.companions[id], u.companions[id]);
            && u.companions == s.companions[id := d] && d.owner == c.owner
            && HasCurrent(u, id) && v == SnapshotOf(u, id)
            && ((u.genomes == s.genomes && d.current == c.current) ||
                (generated !in s.genomes && d.current == Some(generated)
                 && u.genomes == s.genomes[generated := u.genomes[generated]]
                 && u.genomes[generated].base == Some(request.expectedBase) == c.current))
            && d.preferences == (if request.preferences.Some? then request.preferences.value else c.preferences)
            && d.preferenceRevision == c.preferenceRevision + (if d.preferences != c.preferences then 1 else 0)
            && d.revision == c.revision + (if d.preferences != c.preferences then 1 else 0) + (if d.current != c.current then 1 else 0)
            && d.receipts.Keys == c.receipts.Keys + {request.operation}
  {
  }

  /** What each action makes of the text: a rename changes only the name, a restore brings back everything else. */
  lemma EditMeansItsAction(s: Rows, sdk: Sdk, id: CompanionId, request: EditRequest, generated: GenomeId)
    requires Edit(s, sdk, id, request, generated).answer.Ok?
    requires request.operation !in s.companions[id].receipts
    ensures var (before, v) := (SnapshotOf(s, id), Edit(s, sdk, id, request, generated).answer.value);
            match request.action
            case Rename(name) => v.displayName == v.persona.name == sdk.trim(name) && v.persona.body == before.persona.body
            case RestoreTo(target) =>
              && v.displayName == before.displayName && target in s.genomes
              && v.persona == (if target == before.genome then before.persona
                               else s.genomes[target].content.(name := before.displayName))
              && (v.genome == before.genome <==> target == before.genome)
            case Author(authoring) =>
              && v.displayName == before.displayName
              && sdk.author(before.persona, authoring, before.genome) == Some(v.persona)
              && (v.genome == before.genome <==> v.persona == before.persona)
  {
  }

  /** Restoring the same chapter twice is restoring it once. */
  lemma RestoreIsIdempotent(
    s: Rows, owner: Option<OwnerId>, id: CompanionId, target: GenomeId, generated: GenomeId, generated': GenomeId)
    requires RestoreChapter(s, owner, id, target, generated).answer.Ok?
    ensures var u := RestoreChapter(s, owner, id, target, generated);
            RestoreChapter(u.rows, owner, id, target, generated') == u
  {
  }

  /** A restored chapter is the target's text under the companion's present name, on top of what was current. */
  lemma RestoreMeansItsTarget(s: Rows, owner: Option<OwnerId>, id: CompanionId, target: GenomeId, generated: GenomeId)
    requires RestoreChapter(s, owner, id, target, generated).answer.Ok?
    ensures var (u, v) := (RestoreChapter(s, owner, id, target, generated).rows, RestoreChapter(s, owner, id, target, generated).answer.value);
            && HasCurrent(u, id) && v == u.genomes[CurrentOf(u, id)]
            && (u == s <==> CurrentOf(s, id) == target || s.genomes[CurrentOf(s, id)].restoredFrom == Some(target))
            && (u != s ==>
                  && v.base == s.companions[id].current && v.restoredFrom == Some(target) && CurrentOf(u, id) !in s.genomes
                  && v.content.body == s.genomes[target].content.body && v.content.name == u.companions[id].displayName
                  && u.companions[id].displayName == s.companions[id].displayName)
  {
  }

  /** An approval commits exactly the proposed text on exactly its base; it never rewrites either. */
  lemma ApprovalActivatesTheProposal(
    s: Rows, sdk: Sdk, owner: OwnerId, id: CompanionId, g: GenomeId, expected: Option<GenomeId>)
    requires Approve(s, sdk, owner, id, g, expected).answer.Ok?
    ensures var u := Approve(s, sdk, owner, id, g, expected).rows;
            && s.genomes[g].status == Proposed && s.genomes[g].base == s.companions[id].current
            && (expected.None? || expected == s.genomes[g].base)
            && u.companions[id].current == Some(g) && u.companions[id].revision == s.companions[id].revision + 1
            && u.genomes[g].content == s.genomes[g].content && u.genomes[g].version == s.genomes[g].version
            && (forall k | k in s.genomes && k != g :: k in u.genomes && u.genomes[k] == s.genomes[k])
  {
  }
}
