/** Runs with create_genome: when exactly the current version falls. */
module PersonaVersions {
  import opened Core
  import opened Persona
  import opened PersonaRuns
  import opened PersonaHistory

  ghost predicate AllHaveCurrent(s: Rows) {
    forall id | id in s.companions :: HasCurrent(s, id)
  }

  lemma OnlyProvisionAddsCompanions(s: Rows, sdk: Sdk, c: Command)
    requires !c.CmdProvision?
    ensures Step(s, sdk, c).companions.Keys == s.companions.Keys
  {
  }

  lemma StepKeepsCurrent(s: Rows, sdk: Sdk, c: Command)
    requires AllHaveCurrent(s)
    ensures AllHaveCurrent(Step(s, sdk, c))
  {
    var u := Step(s, sdk, c);
    if !c.CmdProvision? {
      OnlyProvisionAddsCompanions(s, sdk, c);
      StepExtends(s, sdk, c);
      forall id | id in u.companions ensures HasCurrent(u, id) {
        assert MovedFreshly(s, u, id);
      }
    }
  }

  lemma {:induction false} RunKeepsCurrent(s: Rows, sdk: Sdk, cs: seq<Command>)
    requires AllHaveCurrent(s)
    ensures AllHaveCurrent(Run(s, sdk, cs))
    decreases |cs|
  {
    if cs != [] {
      StepKeepsCurrent(s, sdk, cs[0]);
      RunKeepsCurrent(Step(s, sdk, cs[0]), sdk, cs[1..]);
    }
  }

  /** In every reachable state every companion has a committed current genome of its own. */
  lemma ReachableHasCurrent(sdk: Sdk, cs: seq<Command>, id: CompanionId)
    requires id in Run(EMPTY, sdk, cs).companions
    ensures var s := Run(EMPTY, sdk, cs);
            HasCurrent(s, id) && BelongsTo(s, CurrentOf(s, id), id)
  {
    RunKeepsCurrent(EMPTY, sdk, cs);
    RunKeepsPointersSound(EMPTY, sdk, cs);
    assert PointerSound(Run(EMPTY, sdk, cs), id);
  }

  /** A row taken in as current below the present version. */
  predicate CreatesLower(s: Rows, c: Command, id: CompanionId)
    requires HasCurrent(s, id)
  {
    c.CmdCreateGenome? && c.row.companion == id && c.row.status == Committed && c.row.version < CurrentVersion(s, id)
    && CreateGenome(s, c.owner, c.g, c.row).answer.Ok?
  }

  /** A proposal approved whose version is below that of the base it replaces. */
  predicate ApprovesLower(s: Rows, sdk: Sdk, c: Command, id: CompanionId)
    requires HasCurrent(s, id)
  {
    c.CmdApprove? && c.id == id && c.g in s.genomes && s.genomes[c.g].version < CurrentVersion(s, id)
    && Approve(s, sdk, c.owner, id, c.g, c.expectedBase).answer.Ok?
  }

  /** Restores, renames and edits put a version above every existing one on top. */
  ghost predicate RisesOrStays(s: Rows, u: Rows, id: CompanionId)
    requires HasCurrent(s, id)
  {
    HasCurrent(u, id) && CurrentVersion(u, id) >= CurrentVersion(s, id)
  }

  lemma AppendRises(s: Rows, of: CompanionId, candidate: Content, restored: Option<GenomeId>, generated: GenomeId, id: CompanionId)
    requires of in s.companions && generated !in s.genomes && HasCurrent(s, id) && BelongsTo(s, CurrentOf(s, id), id)
    ensures RisesOrStays(s, Appended(s, of, candidate, restored, generated), id)
  {
  }

  lemma EditRises(s: Rows, sdk: Sdk, of: CompanionId, request: EditRequest, generated: GenomeId, id: CompanionId)
    requires HasCurrent(s, id) && BelongsTo(s, CurrentOf(s, id), id)
    ensures RisesOrStays(s, Edit(s, sdk, of, request, generated).rows, id)
  {
    var u := Edit(s, sdk, of, request, generated).rows;
    if u != s {
      var p := Prepare(s, sdk, of, request.action).value;
      if NeedsGenome(s, of, p) {
        AppendRises(WithDisplayName(s, of, p.displayName), of, p.candidate, p.restored, generated, id);
      }
    }
  }

  lemma RestoredRises(s: Rows, of: CompanionId, target: GenomeId, generated: GenomeId, id: CompanionId)
    requires HasCurrent(s, of) && target in s.genomes && HasCurrent(s, id) && BelongsTo(s, CurrentOf(s, id), id)
    ensures RisesOrStays(s, Restored(s, of, target, generated).rows, id)
  {
    if generated !in s.genomes {
      AppendRises(s, of, s.genomes[target].content.(name := s.companions[of].displayName), Some(target), generated, id);
    }
  }

  lemma RenameRises(s: Rows, sdk: Sdk, of: CompanionId, displayName: Name, generated: GenomeId, id: CompanionId)
    requires HasCurrent(s, id) && BelongsTo(s, CurrentOf(s, id), id)
    ensures RisesOrStays(s, RenameCompanion(s, sdk, of, displayName, generated).rows, id)
  {
    if HasCurrent(s, of) && generated !in s.genomes {
      var name := sdk.trim(displayName);
      AppendRises(WithDisplayName(s, of, name), of, s.genomes[CurrentOf(s, of)].content.(name := name), None, generated, id);
    }
  }

  lemma AppendingCommandsRise(s: Rows, sdk: Sdk, c: Command, id: CompanionId)
    requires HasCurrent(s, id) && BelongsTo(s, CurrentOf(s, id), id)
    requires c.CmdEdit? || c.CmdRename? || c.CmdRestore? || c.CmdReset?
    ensures RisesOrStays(s, Step(s, sdk, c), id)
  {
    match c
    case CmdEdit(of, request, generated) => EditRises(s, sdk, of, request, generated, id);
    case CmdRename(of, displayName, generated) => RenameRises(s, sdk, of, displayName, generated, id);
    case CmdRestore(owner, of, target, generated) =>
      if HasCurrent(s, of) && target in s.genomes { RestoredRises(s, of, target, generated, id); }
    case CmdReset(owner, of, generated) =>
      if HasCurrent(s, of) { RestoredRises(s, of, Origin(s, of, CurrentOf(s, of), {}), generated, id); }
  }

  lemma CreationFallsExactlyWhen(s: Rows, c: Command, id: CompanionId, u: Rows)
    requires HasCurrent(s, id) && BelongsTo(s, CurrentOf(s, id), id)
    requires c.CmdCreateGenome? && u == CreateGenome(s, c.owner, c.g, c.row).rows
    ensures HasCurrent(u, id) && (CurrentVersion(u, id) < CurrentVersion(s, id) <==> CreatesLower(s, c, id))
  {
  }

  lemma ApprovalFallsExactlyWhen(s: Rows, sdk: Sdk, c: Command, id: CompanionId, u: Rows)
    requires HasCurrent(s, id) && BelongsTo(s, CurrentOf(s, id), id)
    requires c.CmdApprove? && u == Approve(s, sdk, c.owner, c.id, c.g, c.expectedBase).rows
    ensures HasCurrent(u, id) && (CurrentVersion(u, id) < CurrentVersion(s, id) <==> ApprovesLower(s, sdk, c, id))
  {
  }

  lemma StepFallsExactlyWhen(s: Rows, sdk: Sdk, c: Command, id: CompanionId)
    requires HasCurrent(s, id) && BelongsTo(s, CurrentOf(s, id), id)
    ensures HasCurrent(Step(s, sdk, c), id)
    ensures CurrentVersion(Step(s, sdk, c), id) < CurrentVersion(s, id) <==> CreatesLower(s, c, id) || ApprovesLower(s, sdk, c, id)
  {
    if c.CmdEdit? || c.CmdRename? || c.CmdRestore? || c.CmdReset? {
      AppendingCommandsRise(s, sdk, c, id);
    } else if c.CmdCreateGenome? {
      CreationFallsExactlyWhen(s, c, id, Step(s, sdk, c));
    } else if c.CmdApprove? {
      ApprovalFallsExactlyWhen(s, sdk, c, id, Step(s, sdk, c));
    }
  }

  /** Whatever came before, the current version falls exactly when create_genome is accepted with a lower committed version,
      or a proposal of lower version than its base is approved. */
  lemma VersionFallsExactlyWhen(sdk: Sdk, cs: seq<Command>, c: Command, id: CompanionId)
    requires id in Run(EMPTY, sdk, cs).companions
    ensures var s := Run(EMPTY, sdk, cs);
            && HasCurrent(s, id) && HasCurrent(Step(s, sdk, c), id)
            && (CurrentVersion(Step(s, sdk, c), id) < CurrentVersion(s, id) <==> CreatesLower(s, c, id) || ApprovesLower(s, sdk, c, id))
  {
    ReachableHasCurrent(sdk, cs, id);
    StepFallsExactlyWhen(Run(EMPTY, sdk, cs), sdk, c, id);
  }

  // ----- Both happen ------------------------------------------------------------

  /** A companion provisioned with genome 10, then given genome 11 as version 5. */
  function AtFive(content: Content): seq<Command> {
    [CmdProvision(9, 1, 0, 10, content, 0), CmdCreateGenome(9, 11, Genome(1, 5, Committed, Some(10), content, None))]
  }

  function FiveRows(content: Content): Rows {
    Rows(map[1 := Companion(9, 0, 1, Some(11), 0, 1, map[])],
         map[10 := Genome(1, 1, Committed, None, content, None), 11 := Genome(1, 5, Committed, Some(10), content, None)])
  }

  lemma AtFiveRuns(sdk: Sdk, content: Content)
    ensures Run(EMPTY, sdk, AtFive(content)) == FiveRows(content)
  {
    var (a, b) := (AtFive(content)[0], AtFive(content)[1]);
    var s := Step(EMPTY, sdk, a);
    assert s == Rows(map[1 := Companion(9, 0, 1, Some(10), 0, 1, map[])], map[10 := Genome(1, 1, Committed, None, content, None)]);
    assert Step(s, sdk, b) == FiveRows(content);
    assert [a, b][1..] == [b] && [b][1..] == [];
    assert Run(EMPTY, sdk, [a, b]) == Run(s, sdk, [b]) == Run(Step(s, sdk, b), sdk, []);
  }

  /** create_genome with an unused lower version moves the pointer from version 5 to version 3. */
  lemma CreationLowersTheVersion(sdk: Sdk, content: Content)
    ensures var s := Run(EMPTY, sdk, AtFive(content));
            var u := Step(s, sdk, CmdCreateGenome(9, 12, Genome(1, 3, Committed, Some(11), content, None)));
            HasCurrent(s, 1) && CurrentVersion(s, 1) == 5 && HasCurrent(u, 1) && CurrentVersion(u, 1) == 3
  {
    AtFiveRuns(sdk, content);
  }

  /** So does approving a proposal that create_genome put in with a lower version. */
  lemma ApprovalLowersTheVersion(sdk: Sdk, content: Content)
    requires sdk.accepts(content, Proposal(9, 1, 11, content, 12, content))
    ensures var s := Run(EMPTY, sdk, AtFive(content));
            var t := Step(s, sdk, CmdCreateGenome(9, 12, Genome(1, 3, Proposed, Some(11), content, None)));
            var u := Step(t, sdk, CmdApprove(9, 1, 12, None));
            HasCurrent(t, 1) && CurrentVersion(t, 1) == 5 && HasCurrent(u, 1) && CurrentVersion(u, 1) == 3
  {
    AtFiveRuns(sdk, content);
  }
}
