/** The persona service over its two tables: each method is one transaction. */
module PersonaStore {
  import opened Core
  import P = Persona

  class Store {
    var companions: map<P.CompanionId, P.Companion>
    var genomes: map<P.GenomeId, P.Genome>

    function Rows(): P.Rows
      reads this
    {
      P.Rows(companions, genomes)
    }

    constructor ()
      ensures Rows() == P.EMPTY
    {
      companions, genomes := map[], map[];
    }

    /** SELECT max(version) WHERE companion_id = id, 0 without rows. */
    method HighestVersion(id: P.CompanionId) returns (highest: int)
      ensures highest == P.Highest(Rows(), id)
    {
      var keys := genomes.Keys;
      var any := false;
      highest := 0;
      while keys != {}
        invariant keys <= genomes.Keys
        invariant forall g | P.BelongsTo(Rows(), g, id) && g !in keys :: any && genomes[g].version <= highest
        invariant if any then exists g :: P.BelongsTo(Rows(), g, id) && genomes[g].version == highest else highest == 0
        decreases |keys|
      {
        var g := AnyOf(keys);
        keys := keys - {g};
        if genomes[g].companion == id && (!any || genomes[g].version > highest) {
          any, highest := true, genomes[g].version;
          assert P.BelongsTo(Rows(), g, id);
        }
      }
      assert P.IsHighest(Rows(), id, highest);
    }

    method Append(id: P.CompanionId, candidate: P.Content, restoredFrom: Option<P.GenomeId>, generated: P.GenomeId)
      requires id in companions
      modifies this
      ensures Rows() == P.Appended(old(Rows()), id, candidate, restoredFrom, generated)
    {
      var highest := HighestVersion(id);
      var c := companions[id];
      genomes := genomes[generated := P.Genome(id, highest + 1, P.Committed, c.current, candidate, restoredFrom)];
      companions := companions[id := c.(current := Some(generated), revision := c.revision + 1)];
    }

    /** Writes an edit that nothing refuses, in the order of the source: name, genome, preferences, receipt. */
    method ApplyEdit(sdk: P.Sdk, id: P.CompanionId, request: P.EditRequest, generated: P.GenomeId) returns (v: P.Snapshot)
      requires id in companions && P.EditRefusal(Rows(), sdk, id, request, generated).None?
      modifies this
      ensures P.Outcome(Rows(), Ok(v)) == P.AcceptedEdit(old(Rows()), sdk, id, request, generated)
    {
      var prepared := P.Prepare(Rows(), sdk, id, request.action).value;
      var needed := P.NeedsGenome(Rows(), id, prepared);
      companions := companions[id := companions[id].(displayName := prepared.displayName)];
      if needed {
        Append(id, prepared.candidate, prepared.restored, generated);
      }
      if request.preferences.Some? && request.preferences.value != companions[id].preferences {
        var c := companions[id];
        companions := companions[id := c.(preferences := request.preferences.value,
                                          preferenceRevision := c.preferenceRevision + 1, revision := c.revision + 1)];
      }
      ghost var edited := P.Edited(old(Rows()), id, request, prepared, generated);
      assert companions == edited.companions && genomes == edited.genomes;
      v := P.SnapshotOf(Rows(), id);
      var c := companions[id];
      companions := companions[id := c.(receipts := c.receipts[request.operation := P.ReceiptOf(request, v)])];
    }

    method Edit(sdk: P.Sdk, id: P.CompanionId, request: P.EditRequest, generated: P.GenomeId)
      returns (answer: Result<P.Snapshot, P.Refusal>)
      modifies this
      ensures P.Outcome(Rows(), answer) == P.Edit(old(Rows()), sdk, id, request, generated)
    {
      if id !in companions { return Err(P.CompanionMissing); }
      if request.operation in companions[id].receipts {
        var receipt := companions[id].receipts[request.operation];
        if receipt.request != request { return Err(P.OperationConflict); }
        if receipt.genome !in genomes { return Err(P.GenomeMissing); }
        return Ok(P.Snapshot(receipt.genome, receipt.displayName, receipt.revision, genomes[receipt.genome].content,
                             receipt.preferences, receipt.preferenceRevision));
      }
      var refusal := P.EditRefusal(Rows(), sdk, id, request, generated);
      if refusal.Some? { return Err(refusal.value); }
      var v := ApplyEdit(sdk, id, request, generated);
      answer := Ok(v);
    }

    method Rename(sdk: P.Sdk, id: P.CompanionId, displayName: P.Name, generated: P.GenomeId)
      returns (answer: Result<Option<P.Companion>, P.Refusal>)
      modifies this
      ensures P.Outcome(Rows(), answer) == P.RenameCompanion(old(Rows()), sdk, id, displayName, generated)
    {
      var name := sdk.trim(displayName);
      if !sdk.validName(name) { return Err(P.InvalidName); }
      if id !in companions { return Ok(None); }
      if !P.HasCurrent(Rows(), id) { return Err(P.NoCommittedPersona); }
      var base := genomes[companions[id].current.value].content;
      if companions[id].displayName == name && base.name == name { return Ok(Some(companions[id])); }
      if generated in genomes { return Err(P.GenomeIdTaken); }
      companions := companions[id := companions[id].(displayName := name)];
      Append(id, base.(name := name), None, generated);
      answer := Ok(Some(companions[id]));
    }

    method RestoreFrom(id: P.CompanionId, target: P.GenomeId, generated: P.GenomeId) returns (answer: Result<P.Genome, P.Refusal>)
      requires P.HasCurrent(Rows(), id) && target in genomes
      modifies this
      ensures P.Outcome(Rows(), answer) == P.Restored(old(Rows()), id, target, generated)
    {
      var current := companions[id].current.value;
      if current == target || genomes[current].restoredFrom == Some(target) { return Ok(genomes[current]); }
      if generated in genomes { return Err(P.GenomeIdTaken); }
      Append(id, genomes[target].content.(name := companions[id].displayName), Some(target), generated);
      answer := Ok(genomes[generated]);
    }

    method RestoreChapter(owner: Option<P.OwnerId>, id: P.CompanionId, target: P.GenomeId, generated: P.GenomeId)
      returns (answer: Result<P.Genome, P.Refusal>)
      modifies this
      ensures P.Outcome(Rows(), answer) == P.RestoreChapter(old(Rows()), owner, id, target, generated)
    {
      if id !in companions { return Err(P.CompanionMissing); }
      if owner.Some? && companions[id].owner != owner.value { return Err(P.NotFoundForOwner); }
      if !P.HasCurrent(Rows(), id) { return Err(P.NoCommittedPersona); }
      if target !in genomes || genomes[target].companion != id { return Err(P.NotThisCompanion); }
      if genomes[target].status != P.Committed { return Err(P.NotRestorable); }
      answer := RestoreFrom(id, target, generated);
    }

    /** The walk itself: a loop that ends on any base graph, a cyclic one included. */
    method WalkToOrigin(id: P.CompanionId, start: P.GenomeId) returns (genome: P.GenomeId)
      requires start in genomes
      ensures genome == P.Origin(Rows(), id, start, {}) && genome in genomes
    {
      var visited: set<P.GenomeId> := {};
      genome := start;
      while genomes[genome].base.Some? && genomes[genome].base.value !in visited
        invariant genome in genomes
        invariant P.Origin(Rows(), id, genome, visited) == P.Origin(Rows(), id, start, {})
        decreases |genomes.Keys - visited|, if genome in visited then 1 else 0
      {
        assert genome !in visited ==> genomes.Keys - (visited + {genome}) == genomes.Keys - visited - {genome};
        assert genome in visited ==> visited + {genome} == visited;
        visited := visited + {genome};
        var parent := genomes[genome].base.value;
        if parent !in genomes || genomes[parent].companion != id { break; }
        genome := parent;
      }
    }

    method ResetToOrigin(owner: P.OwnerId, id: P.CompanionId, generated: P.GenomeId) returns (answer: Result<P.Genome, P.Refusal>)
      modifies this
      ensures P.Outcome(Rows(), answer) == P.ResetToOrigin(old(Rows()), owner, id, generated)
    {
      if id !in companions || companions[id].owner != owner { return Err(P.NotFoundForOwner); }
      var current := companions[id].current;
      if current.None? || current.value !in genomes { return Err(P.GenomeMissing); }
      var origin := WalkToOrigin(id, current.value);
      if !P.HasCurrent(Rows(), id) { return Err(P.NoCommittedPersona); }
      answer := RestoreFrom(id, origin, generated);
    }

    method CreateGenome(owner: P.OwnerId, g: P.GenomeId, row: P.Genome) returns (answer: Result<P.Genome, P.Refusal>)
      modifies this
      ensures P.Outcome(Rows(), answer) == P.CreateGenome(old(Rows()), owner, g, row)
    {
      if row.companion !in companions || companions[row.companion].owner != owner { return Err(P.NotFoundForOwner); }
      if row.base.Some? && (row.base.value !in genomes || genomes[row.base.value].companion != row.companion) {
        return Err(P.ForeignBase);
      }
      if g in genomes { return Err(P.GenomeIdTaken); }
      if row.version <= 0 || P.VersionTaken(Rows(), row.companion, row.version) { return Err(P.VersionUnavailable); }
      genomes := genomes[g := row];
      var c := companions[row.companion];
      if row.status == P.Committed {
        c := c.(current := Some(g));
      }
      companions := companions[row.companion := c];
      answer := Ok(row);
    }

    method CreateEvolutionProposal(sdk: P.Sdk, p: P.Proposal) returns (answer: Result<P.Genome, P.Refusal>)
      modifies this`genomes
      ensures P.Outcome(Rows(), answer) == P.Propose(old(Rows()), sdk, p)
    {
      if p.companion !in companions || companions[p.companion].owner != p.owner { return Err(P.NotFoundForOwner); }
      if companions[p.companion].current != Some(p.base) { return Err(P.BaseNotCurrent); }
      if p.base !in genomes { return Err(P.BaseNotCurrent); }
      if !sdk.accepts(genomes[p.base].content, p) { return Err(P.EvolutionRefused); }
      var highest := HighestVersion(p.companion);
      if p.proposed in genomes { return Err(P.GenomeIdTaken); }
      var row := P.Genome(p.companion, highest + 1, P.Proposed, Some(p.base), p.content, None);
      genomes := genomes[p.proposed := row];
      answer := Ok(row);
    }

    method ApproveEvolution(sdk: P.Sdk, owner: P.OwnerId, id: P.CompanionId, g: P.GenomeId, expectedBase: Option<P.GenomeId>)
      returns (answer: Result<P.Genome, P.Refusal>)
      modifies this
      ensures P.Outcome(Rows(), answer) == P.Approve(old(Rows()), sdk, owner, id, g, expectedBase)
    {
      if id !in companions || companions[id].owner != owner { return Err(P.NotFoundForOwner); }
      if g !in genomes || genomes[g].companion != id { return Err(P.GenomeMissing); }
      var row := genomes[g];
      if row.status != P.Proposed { return Err(P.NotProposed); }
      if companions[id].current != row.base || (expectedBase.Some? && expectedBase != row.base) {
        genomes := genomes[g := row.(status := P.Stale)];
        return Err(P.CurrentChanged);
      }
      if row.base.None? || row.base.value !in genomes { return Err(P.GenomeMissing); }
      var base := genomes[row.base.value].content;
      if !sdk.accepts(base, P.Proposal(owner, id, row.base.value, base, g, row.content)) { return Err(P.EvolutionRefused); }
      row := row.(status := P.Committed);
      genomes := genomes[g := row];
      var c := companions[id];
      companions := companions[id := c.(current := Some(g), revision := c.revision + 1)];
      answer := Ok(row);
    }

    method RejectEvolution(owner: P.OwnerId, g: P.GenomeId, id: Option<P.CompanionId>) returns (answer: Result<P.Genome, P.Refusal>)
      modifies this`genomes
      ensures P.Outcome(Rows(), answer) == P.Reject(old(Rows()), owner, g, id)
    {
      if g !in genomes { return Err(P.GenomeMissing); }
      var row := genomes[g];
      if id.Some? && row.companion != id.value { return Err(P.GenomeMissing); }
      if row.companion !in companions || companions[row.companion].owner != owner { return Err(P.NotFoundForOwner); }
      if row.status != P.Proposed { return Err(P.NotProposed); }
      row := row.(status := P.Rejected);
      genomes := genomes[g := row];
      answer := Ok(row);
    }

    method Provision(
      owner: P.OwnerId, id: P.CompanionId, name: P.Name, g: P.GenomeId, content: P.Content, preferences: P.Preferences)
      returns (answer: Result<(), P.Refusal>)
      modifies this
      ensures P.Outcome(Rows(), answer) == P.Provision(old(Rows()), owner, id, name, g, content, preferences)
    {
      if id in companions || g in genomes { return Err(P.IdTaken); }
      companions := companions[id := P.Companion(owner, name, 1, None, preferences, 1, map[])];
      genomes := genomes[g := P.Genome(id, 1, P.Committed, None, content, None)];
      companions := companions[id := companions[id].(current := Some(g))];
      answer := Ok(());
    }
  }
}
