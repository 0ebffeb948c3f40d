/** Runs without create_genome: one unbroken line of commits per companion, ending at its pointer. */
module PersonaHistory {
  import opened Core
  import opened Persona
  import opened PersonaRuns

  ghost predicate GenomeLinear(s: Rows, g: GenomeId)
    requires g in s.genomes
  {
    var row := s.genomes[g];
    && row.version > 0 && row.companion in s.companions
    && (row.base.Some? ==> CommittedIn(s, row.base.value) && BelongsTo(s, row.base.value, row.companion)
                           && s.genomes[row.base.value].version < row.version)
  }

  ghost predicate Linear(s: Rows) {
    && (forall g | g in s.genomes :: GenomeLinear(s, g))
    && (forall id | id in s.companions :: HasCurrent(s, id) && BelongsTo(s, CurrentOf(s, id), id))
  }

  /** The pointer stayed or moved to a genome built on the one it left. */
  predicate Advances(s: Rows, u: Rows, id: CompanionId) {
    && HasCurrent(s, id) && HasCurrent(u, id)
    && (CurrentOf(u, id) != CurrentOf(s, id) ==> u.genomes[CurrentOf(u, id)].base == Some(CurrentOf(s, id)))
  }

  /** Whatever became committed is what its companion's pointer now names. */
  ghost predicate CommitsMoveThePointer(s: Rows, u: Rows) {
    forall g | CommittedIn(u, g) && !CommittedIn(s, g) ::
      u.genomes[g].companion in u.companions && u.companions[u.genomes[g].companion].current == Some(g)
  }

  ghost predicate Follows(s: Rows, u: Rows) {
    && Linear(u) && CommitsMoveThePointer(s, u)
    && (forall id | id in s.companions :: id in u.companions && Advances(s, u, id))
    && (forall id | id in u.companions && id !in s.companions :: u.genomes[CurrentOf(u, id)].base == None)
  }

  lemma AppendFollows(s: Rows, id: CompanionId, candidate: Content, restoredFrom: Option<GenomeId>, generated: GenomeId)
    requires Linear(s) && id in s.companions && generated !in s.genomes
    ensures Follows(s, Appended(s, id, candidate, restoredFrom, generated))
  {
    var u := Appended(s, id, candidate, restoredFrom, generated);
    assert BelongsTo(s, CurrentOf(s, id), id);
    assert GenomeLinear(s, CurrentOf(s, id));
    forall g | g in u.genomes ensures GenomeLinear(u, g) {
      if g != generated { assert GenomeLinear(s, g); }
    }
  }

  /** A write to companion columns other than the pointer is invisible here. */
  lemma SamePointersFollow(s: Rows, t: Rows, u: Rows)
    requires Follows(s, t) && u.genomes == t.genomes && u.companions.Keys == t.companions.Keys
    requires forall id | id in t.companions :: u.companions[id].current == t.companions[id].current
    ensures Follows(s, u)
  {
    forall g | g in u.genomes ensures GenomeLinear(u, g) {
      assert GenomeLinear(t, g);
    }
    forall id | id in u.companions ensures HasCurrent(u, id) && BelongsTo(u, CurrentOf(u, id), id) {
      assert HasCurrent(t, id);
    }
    forall id | id in s.companions ensures id in u.companions && Advances(s, u, id) {
      assert Advances(s, t, id);
    }
  }

  lemma FollowsItself(s: Rows)
    requires Linear(s)
    ensures Follows(s, s)
  {
  }

  lemma RenamedAppendFollows(s: Rows, id: CompanionId, name: Name, candidate: Content, restored: Option<GenomeId>, generated: GenomeId)
    requires Linear(s) && id in s.companions && generated !in s.genomes
    ensures Follows(s, Appended(WithDisplayName(s, id, name), id, candidate, restored, generated))
  {
    var named := WithDisplayName(s, id, name);
    FollowsItself(s);
    SamePointersFollow(s, s, named);
    AppendFollows(named, id, candidate, restored, generated);
    var u := Appended(named, id, candidate, restored, generated);
    forall k | k in s.companions ensures k in u.companions && Advances(s, u, k) {
      assert Advances(named, u, k);
    }
  }

  lemma EditFollows(s: Rows, sdk: Sdk, id: CompanionId, request: EditRequest, generated: GenomeId)
    requires Linear(s)
    ensures Follows(s, Edit(s, sdk, id, request, generated).rows)
  {
    var u := Edit(s, sdk, id, request, generated).rows;
    FollowsItself(s);
    if u != s {
      var p := Prepare(s, sdk, id, request.action).value;
      var named := WithDisplayName(s, id, p.displayName);
      if NeedsGenome(s, id, p) {
        RenamedAppendFollows(s, id, p.displayName, p.candidate, p.restored, generated);
        SamePointersFollow(s, Appended(named, id, p.candidate, p.restored, generated), u);
      } else {
        SamePointersFollow(s, s, u);
      }
    }
  }

  lemma RestoredFollows(s: Rows, id: CompanionId, target: GenomeId, generated: GenomeId)
    requires Linear(s) && HasCurrent(s, id) && target in s.genomes
    ensures Follows(s, Restored(s, id, target, generated).rows)
  {
    FollowsItself(s);
    if generated !in s.genomes {
      AppendFollows(s, id, s.genomes[target].content.(name := s.companions[id].displayName), Some(target), generated);
    }
  }

  lemma RenameFollows(s: Rows, sdk: Sdk, id: CompanionId, displayName: Name, generated: GenomeId)
    requires Linear(s)
    ensures Follows(s, RenameCompanion(s, sdk, id, displayName, generated).rows)
  {
    FollowsItself(s);
    if HasCurrent(s, id) && generated !in s.genomes {
      var name := sdk.trim(displayName);
      RenamedAppendFollows(s, id, name, s.genomes[CurrentOf(s, id)].content.(name := name), None, generated);
    }
  }

  lemma ProposeFollows(s: Rows, sdk: Sdk, p: Proposal)
    requires Linear(s)
    ensures Follows(s, Propose(s, sdk, p).rows)
  {
    var u := Propose(s, sdk, p).rows;
    FollowsItself(s);
    if u != s {
      assert BelongsTo(s, p.base, p.companion);
      forall g | g in u.genomes ensures GenomeLinear(u, g) {
        if g != p.proposed { assert GenomeLinear(s, g); }
      }
    }
  }

  lemma ApproveFollows(s: Rows, sdk: Sdk, owner: OwnerId, id: CompanionId, g: GenomeId, expected: Option<GenomeId>)
    requires Linear(s)
    ensures Follows(s, Approve(s, sdk, owner, id, g, expected).rows)
  {
    var u := Approve(s, sdk, owner, id, g, expected).rows;
    forall k | k in u.genomes ensures GenomeLinear(u, k) { assert GenomeLinear(s, k); }
  }

  lemma RejectFollows(s: Rows, owner: OwnerId, g: GenomeId, of: Option<CompanionId>)
    requires Linear(s)
    ensures Follows(s, Reject(s, owner, g, of).rows)
  {
    var u := Reject(s, owner, g, of).rows;
    forall k | k in u.genomes ensures GenomeLinear(u, k) { assert GenomeLinear(s, k); }
  }

  lemma ProvisionFollows(s: Rows, owner: OwnerId, id: CompanionId, name: Name, g: GenomeId, content: Content, preferences: Preferences)
    requires Linear(s)
    ensures Follows(s, Provision(s, owner, id, name, g, content, preferences).rows)
  {
    var u := Provision(s, owner, id, name, g, content, preferences).rows;
    forall k | k in s.genomes ensures GenomeLinear(u, k) { assert GenomeLinear(s, k); }
  }

  lemma StepFollows(s: Rows, sdk: Sdk, c: Command)
    requires Linear(s) && !c.CmdCreateGenome?
    ensures Follows(s, Step(s, sdk, c))
  {
    FollowsItself(s);
    match c
    case CmdEdit(id, request, generated) => EditFollows(s, sdk, id, request, generated);
    case CmdRename(id, displayName, generated) => RenameFollows(s, sdk, id, displayName, generated);
    case CmdRestore(owner, id, target, generated) =>
      if HasCurrent(s, id) && target in s.genomes { RestoredFollows(s, id, target, generated); }
    case CmdReset(owner, id, generated) =>
      if HasCurrent(s, id) { RestoredFollows(s, id, Origin(s, id, CurrentOf(s, id), {}), generated); }
    case CmdPropose(proposal) => ProposeFollows(s, sdk, proposal);
    case CmdApprove(owner, id, g, expectedBase) => ApproveFollows(s, sdk, owner, id, g, expectedBase);
    case CmdReject(owner, g, id) => RejectFollows(s, owner, g, id);
    case CmdProvision(owner, id, name, g, content, preferences) => ProvisionFollows(s, owner, id, name, g, content, preferences);
    case CmdTouch(id, displayName, revision, preferences, preferenceRevision) => SamePointersFollow(s, s, Step(s, sdk, c));
  }

  predicate NoCreate(cs: seq<Command>) {
    forall c | c in cs :: !c.CmdCreateGenome?
  }

  lemma {:induction false} RunKeepsLinear(s: Rows, sdk: Sdk, cs: seq<Command>)
    requires Linear(s) && NoCreate(cs)
    ensures Linear(Run(s, sdk, cs))
    decreases |cs|
  {
    if cs != [] {
      StepFollows(s, sdk, cs[0]);
      RunKeepsLinear(Step(s, sdk, cs[0]), sdk, cs[1..]);
    }
  }

  // ----- Versions -----------------------------------------------------------

  function CurrentVersion(s: Rows, id: CompanionId): int
    requires HasCurrent(s, id)
  {
    s.genomes[CurrentOf(s, id)].version
  }

  /** The current version never falls, and rises whenever the pointer moves. */
  lemma {:induction false} VersionsIncrease(s: Rows, sdk: Sdk, cs: seq<Command>, id: CompanionId)
    requires Linear(s) && NoCreate(cs) && id in s.companions
    ensures var u := Run(s, sdk, cs);
            HasCurrent(u, id)
            && ((CurrentOf(u, id) == CurrentOf(s, id) && CurrentVersion(u, id) == CurrentVersion(s, id))
                || CurrentVersion(u, id) > CurrentVersion(s, id))
    decreases |cs|
  {
    if cs != [] {
      var t := Step(s, sdk, cs[0]);
      StepFollows(s, sdk, cs[0]);
      StepExtends(s, sdk, cs[0]);
      assert Advances(s, t, id);
      assert GenomeLinear(t, CurrentOf(t, id));
      VersionsIncrease(t, sdk, cs[1..], id);
    }
  }

  // ----- The line of commits ------------------------------------------------

  /** The genome the pointer came to name from s to u, if it moved. */
  function Moved(s: Rows, u: Rows, id: CompanionId): seq<GenomeId> {
    if HasCurrent(u, id) && !(HasCurrent(s, id) && CurrentOf(s, id) == CurrentOf(u, id)) then [CurrentOf(u, id)] else []
  }

  /** The genomes the pointer comes to name during a run, in order. */
  ghost function Commits(s: Rows, sdk: Sdk, cs: seq<Command>, id: CompanionId): seq<GenomeId>
    decreases |cs|
  {
    if cs == [] then []
    else
      var u := Step(s, sdk, cs[0]);
      Moved(s, u, id) + Commits(u, sdk, cs[1..], id)
  }

  predicate LinkAt(s: Rows, id: CompanionId, line: seq<GenomeId>, i: nat)
    requires i < |line|
  {
    && CommittedIn(s, line[i]) && BelongsTo(s, line[i], id)
    && s.genomes[line[i]].base == (if i == 0 then None else Some(line[i - 1]))
  }

  /** line runs from a genome without base to the current one, each on the one before it, and holds every committed
      genome of the companion. */
  ghost predicate IsLine(s: Rows, id: CompanionId, line: seq<GenomeId>) {
    && (forall i | 0 <= i < |line| :: LinkAt(s, id, line, i))
    && (forall g | CommittedIn(s, g) && BelongsTo(s, g, id) :: g in line)
    && (if line == [] then id !in s.companions
        else HasCurrent(s, id) && CurrentOf(s, id) == line[|line| - 1])
  }

  lemma LineGrows(s: Rows, u: Rows, id: CompanionId, line: seq<GenomeId>)
    requires Linear(s) && Follows(s, u) && GenomesKept(s, u) && IsLine(s, id, line)
    ensures IsLine(u, id, line + Moved(s, u, id))
  {
    var line' := line + Moved(s, u, id);
    if id in s.companions { assert Advances(s, u, id); }
    forall g | CommittedIn(u, g) && BelongsTo(u, g, id) ensures g in line' {
      if CommittedIn(s, g) { assert g in line; }
    }
    forall i | 0 <= i < |line'| ensures LinkAt(u, id, line', i) {
      if i < |line| { assert LinkAt(s, id, line, i); }
    }
  }

  lemma StepGrowsLine(s: Rows, sdk: Sdk, c: Command, id: CompanionId, line: seq<GenomeId>)
    requires Linear(s) && !c.CmdCreateGenome? && IsLine(s, id, line)
    ensures Linear(Step(s, sdk, c)) && IsLine(Step(s, sdk, c), id, line + Moved(s, Step(s, sdk, c), id))
  {
    StepFollows(s, sdk, c);
    StepExtends(s, sdk, c);
    LineGrows(s, Step(s, sdk, c), id, line);
  }

  lemma Regroup<T>(a: seq<T>, b: seq<T>, c: seq<T>)
    ensures a + b + c == a + (b + c)
  {
  }

  lemma {:induction false} RunExtendsLine(s: Rows, sdk: Sdk, cs: seq<Command>, id: CompanionId, line: seq<GenomeId>)
    requires Linear(s) && NoCreate(cs) && IsLine(s, id, line)
    ensures IsLine(Run(s, sdk, cs), id, line + Commits(s, sdk, cs, id))
    decreases |cs|
  {
    if cs == [] {
      assert line + Commits(s, sdk, cs, id) == line;
    } else {
      var u := Step(s, sdk, cs[0]);
      var grown, rest := line + Moved(s, u, id), Commits(u, sdk, cs[1..], id);
      StepGrowsLine(s, sdk, cs[0], id, line);
      RunExtendsLine(u, sdk, cs[1..], id, grown);
      Regroup(line, Moved(s, u, id), rest);
    }
  }

  /** The base chain from the current genome, read backwards, is exactly the companion's commit history. */
  lemma HistoryIsTheBaseChain(sdk: Sdk, cs: seq<Command>, id: CompanionId)
    requires NoCreate(cs)
    ensures IsLine(Run(EMPTY, sdk, cs), id, Commits(EMPTY, sdk, cs, id))
  {
    RunExtendsLine(EMPTY, sdk, cs, id, []);
    assert [] + Commits(EMPTY, sdk, cs, id) == Commits(EMPTY, sdk, cs, id);
  }

  // ----- Back to the origin -------------------------------------------------

  /** The walk from any point of the line ends at its first genome. */
  lemma {:induction false} WalkEndsAtTheFirst(s: Rows, id: CompanionId, line: seq<GenomeId>, i: nat, visited: set<GenomeId>)
    requires Linear(s) && IsLine(s, id, line) && i < |line|
    requires LinkAt(s, id, line, i)
    requires forall g | g in visited :: g in s.genomes && s.genomes[g].version > s.genomes[line[i]].version
    ensures Origin(s, id, line[i], visited) == line[0]
    decreases i
  {
    assert GenomeLinear(s, line[i]) && LinkAt(s, id, line, i);
    if i > 0 {
      var base := line[i - 1];
      assert s.genomes[line[i]].base == Some(base) && base !in visited && LinkAt(s, id, line, i - 1);
      WalkEndsAtTheFirst(s, id, line, i - 1, visited + {line[i]});
      assert Origin(s, id, line[i], visited) == Origin(s, id, base, visited + {line[i]});
    }
  }

  lemma ResetIsARestoreOfTheFirst(s: Rows, owner: OwnerId, id: CompanionId, line: seq<GenomeId>, generated: GenomeId)
    requires Linear(s) && IsLine(s, id, line) && Owned(s, owner, id)
    ensures line != [] && HasCurrent(s, id) && CurrentOf(s, id) == line[|line| - 1] && line[0] in s.genomes
    ensures ResetToOrigin(s, owner, id, generated) == Restored(s, id, line[0], generated)
  {
    assert LinkAt(s, id, line, 0) && LinkAt(s, id, line, |line| - 1);
    WalkEndsAtTheFirst(s, id, line, |line| - 1, {});
  }

  /** On a linear history a reset appends the first genome's text under the companion's present name, unless the first
      genome or a restore of it is already current; and resetting again changes nothing. */
  lemma ResetRestoresTheFirst(s: Rows, owner: OwnerId, id: CompanionId, line: seq<GenomeId>, generated: GenomeId, generated': GenomeId)
    requires Linear(s) && IsLine(s, id, line) && Owned(s, owner, id) && generated !in s.genomes
    ensures line != [] && line[0] in s.genomes && line[|line| - 1] in s.genomes
    ensures var (outcome, first) := (ResetToOrigin(s, owner, id, generated), line[0]);
            && outcome.answer.Ok? && s.genomes[first].base.None?
            && (outcome.rows == s <==> line[|line| - 1] == first || s.genomes[line[|line| - 1]].restoredFrom == Some(first))
            && (outcome.rows != s ==>
                  outcome.answer.value.content == s.genomes[first].content.(name := s.companions[id].displayName)
                  && IsLine(outcome.rows, id, line + [generated]))
            && ResetToOrigin(outcome.rows, owner, id, generated') == outcome
  {
    ResetIsARestoreOfTheFirst(s, owner, id, line, generated);
    var outcome := ResetToOrigin(s, owner, id, generated);
    assert LinkAt(s, id, line, 0);
    if outcome.rows == s {
      ResetIsARestoreOfTheFirst(s, owner, id, line, generated');
    } else {
      RestoredFollows(s, id, line[0], generated);
      RestoredExtends(s, id, line[0], generated);
      LineGrows(s, outcome.rows, id, line);
      assert Moved(s, outcome.rows, id) == [generated];
      ResetIsARestoreOfTheFirst(outcome.rows, owner, id, line + [generated], generated');
    }
  }
}
