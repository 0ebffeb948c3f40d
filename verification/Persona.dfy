/**
 * Persona history: an append-only graph of genomes, a current pointer per companion moved by compare-and-swap,
 * restores that append, and edit receipts. Each command is the function from rows to rows and an answer that one
 * transaction of the service computes.
 */
module Persona {
  import opened Core

  type CompanionId = int
  type GenomeId = int
  type OwnerId = int
  type OperationId = int
  type Name = int
  type Body = int
  type Authoring = int
  type Preferences = int

  datatype Status = Proposed | Committed | Rejected | Stale

  /** A normalised genome without its provenance: the constitution's name and everything else. */
  datatype Content = Content(name: Name, body: Body)
  datatype Genome = Genome(
    companion: CompanionId, version: int, status: Status, base: Option<GenomeId>, content: Content,
    restoredFrom: Option<GenomeId>)

  datatype Action = Rename(name: Name) | RestoreTo(genome: GenomeId) | Author(authoring: Authoring)
  datatype EditRequest = EditRequest(
    operation: OperationId, expectedBase: GenomeId, expectedPreferences: int, action: Action, preferences: Option<Preferences>)
  datatype Snapshot = Snapshot(
    genome: GenomeId, displayName: Name, revision: int, persona: Content, preferences: Preferences, preferenceRevision: int)
  /** The request stands for its fingerprint; the genome is stored by reference only. */
  datatype Receipt = Receipt(
    request: EditRequest, genome: GenomeId, displayName: Name, revision: int, preferences: Preferences, preferenceRevision: int)
  datatype Companion = Companion(
    owner: OwnerId, displayName: Name, revision: int, current: Option<GenomeId>,
    preferences: Preferences, preferenceRevision: int, receipts: map<OperationId, Receipt>)
  datatype Rows = Rows(companions: map<CompanionId, Companion>, genomes: map<GenomeId, Genome>)

  /** A proposed evolution; the base's content stands for the hash of it that the proposal carries. */
  datatype Proposal = Proposal(
    owner: OwnerId, companion: CompanionId, base: GenomeId, baseHash: Content, proposed: GenomeId, content: Content)

  /** The persona library, which the store only calls. */
  datatype Sdk = Sdk(
    author: (Content, Authoring, GenomeId) -> Option<Content>,
    accepts: (Content, Proposal) -> bool,
    trim: Name -> Name,
    validName: Name -> bool)

  datatype Refusal =
    | CompanionMissing | OperationConflict | GenomeMissing | NoCommittedPersona | BaseNotCurrent | PreferencesChanged
    | NotThisCompanion | NotRestorable | AuthoringRefused | InvalidName | NotFoundForOwner | ForeignBase
    | VersionUnavailable | GenomeIdTaken | EvolutionRefused | NotProposed | CurrentChanged | IdTaken

  /** The rows a command commits and what it answers: one refusal commits a change first. */
  datatype Outcome<+V> = Outcome(rows: Rows, answer: Result<V, Refusal>)

  function Refuse<V>(s: Rows, why: Refusal): Outcome<V> {
    Outcome(s, Err(why))
  }

  // ----- Reading ------------------------------------------------------------

  predicate BelongsTo(s: Rows, g: GenomeId, id: CompanionId) {
    g in s.genomes && s.genomes[g].companion == id
  }

  /** The companion has a current genome, and it is committed. */
  predicate HasCurrent(s: Rows, id: CompanionId) {
    && id in s.companions && s.companions[id].current.Some? && s.companions[id].current.value in s.genomes
    && s.genomes[s.companions[id].current.value].status == Committed
  }

  function CurrentOf(s: Rows, id: CompanionId): GenomeId
    requires HasCurrent(s, id)
  {
    s.companions[id].current.value
  }

  predicate Owned(s: Rows, owner: OwnerId, id: CompanionId) {
    id in s.companions && s.companions[id].owner == owner
  }

  ghost predicate IsHighest(s: Rows, id: CompanionId, h: int) {
    && (forall g | BelongsTo(s, g, id) :: s.genomes[g].version <= h)
    && ((h == 0 && forall g :: !BelongsTo(s, g, id)) || (exists g :: BelongsTo(s, g, id) && s.genomes[g].version == h))
  }

  lemma {:induction false} HighestExists(s: Rows, id: CompanionId)
    ensures exists h :: IsHighest(s, id, h)
    decreases |s.genomes|
  {
    if exists g :: BelongsTo(s, g, id) {
      var g :| BelongsTo(s, g, id);
      var rest := s.(genomes := s.genomes - {g});
      assert |rest.genomes| < |s.genomes|;
      HighestExists(rest, id);
      var h :| IsHighest(rest, id, h);
      if (forall k :: !BelongsTo(rest, k, id)) || h <= s.genomes[g].version {
        forall k | BelongsTo(s, k, id) ensures s.genomes[k].version <= s.genomes[g].version {
          if k != g { assert BelongsTo(rest, k, id); }
        }
        assert IsHighest(s, id, s.genomes[g].version);
      } else {
        var k :| BelongsTo(rest, k, id) && rest.genomes[k].version == h;
        assert BelongsTo(s, k, id);
        forall j | BelongsTo(s, j, id) ensures s.genomes[j].version <= h {
          if j != g { assert BelongsTo(rest, j, id); }
        }
        assert IsHighest(s, id, h);
      }
    } else {
      assert IsHighest(s, id, 0);
    }
  }

  /** max(version) over the companion's genomes, 0 when it has none. */
  ghost function Highest(s: Rows, id: CompanionId): (h: int)
    ensures IsHighest(s, id, h)
  {
    HighestExists(s, id);
    var h :| IsHighest(s, id, h);
    h
  }

  function SnapshotOf(s: Rows, id: CompanionId): Snapshot
    requires HasCurrent(s, id)
  {
    var c, g := s.companions[id], CurrentOf(s, id);
    Snapshot(g, c.displayName, c.revision, s.genomes[g].content, c.preferences, c.preferenceRevision)
  }

  // ----- Appending ----------------------------------------------------------

  /** _append_persona: a new committed genome on top of the current one, and the pointer moved to it. */
  ghost function Appended(s: Rows, id: CompanionId, candidate: Content, restoredFrom: Option<GenomeId>, generated: GenomeId): Rows
    requires id in s.companions
  {
    var c := s.companions[id];
    Rows(s.companions[id := c.(current := Some(generated), revision := c.revision + 1)],
         s.genomes[generated := Genome(id, Highest(s, id) + 1, Committed, c.current, candidate, restoredFrom)])
  }

  function WithDisplayName(s: Rows, id: CompanionId, name: Name): Rows
    requires id in s.companions
  {
    s.(companions := s.companions[id := s.companions[id].(displayName := name)])
  }

  // ----- Edits --------------------------------------------------------------

  datatype Prepared = Prepared(candidate: Content, displayName: Name, restored: Option<GenomeId>)

  /** What the request makes of the current genome. */
  function Prepare(s: Rows, sdk: Sdk, id: CompanionId, action: Action): Result<Prepared, Refusal>
    requires HasCurrent(s, id)
  {
    var c, current := s.companions[id], CurrentOf(s, id);
    var base := s.genomes[current].content;
    match action
    case Rename(name) => Ok(Prepared(base.(name := sdk.trim(name)), sdk.trim(name), None))
    case RestoreTo(target) =>
      if !BelongsTo(s, target, id) then Err(NotThisCompanion)
      else if s.genomes[target].status != Committed then Err(NotRestorable)
      else if target == current then Ok(Prepared(base, c.displayName, Some(target)))
      else Ok(Prepared(s.genomes[target].content.(name := c.displayName), c.displayName, Some(target)))
    case Author(authoring) =>
      var candidate := sdk.author(base, authoring, current);
      if candidate.None? then Err(AuthoringRefused) else Ok(Prepared(candidate.value, c.displayName, None))
  }

  predicate NeedsGenome(s: Rows, id: CompanionId, p: Prepared)
    requires HasCurrent(s, id)
  {
    p.candidate != s.genomes[CurrentOf(s, id)].content || (p.restored.Some? && p.restored.value != CurrentOf(s, id))
  }

  function WithPreferences(s: Rows, id: CompanionId, preferences: Option<Preferences>): Rows
    requires id in s.companions
  {
    var c := s.companions[id];
    if preferences.None? || preferences.value == c.preferences then s
    else s.(companions := s.companions[id :=
      c.(preferences := preferences.value, preferenceRevision := c.preferenceRevision + 1, revision := c.revision + 1)])
  }

  function ReceiptOf(request: EditRequest, v: Snapshot): Receipt {
    Receipt(request, v.genome, v.displayName, v.revision, v.preferences, v.preferenceRevision)
  }

  function WithReceipt(s: Rows, id: CompanionId, request: EditRequest, v: Snapshot): Rows
    requires id in s.companions
  {
    var c := s.companions[id];
    s.(companions := s.companions[id := c.(receipts := c.receipts[request.operation := ReceiptOf(request, v)])])
  }

  /** The rows of an accepted edit before its receipt is written. */
  ghost function Edited(s: Rows, id: CompanionId, request: EditRequest, p: Prepared, generated: GenomeId): Rows
    requires HasCurrent(s, id)
  {
    var named := WithDisplayName(s, id, p.displayName);
    var moved := if NeedsGenome(s, id, p) then Appended(named, id, p.candidate, p.restored, generated) else named;
    WithPreferences(moved, id, request.preferences)
  }

  function Replay(s: Rows, receipt: Receipt): Outcome<Snapshot> {
    if receipt.genome !in s.genomes then Refuse(s, GenomeMissing)
    else Outcome(s, Ok(Snapshot(receipt.genome, receipt.displayName, receipt.revision, s.genomes[receipt.genome].content,
                                receipt.preferences, receipt.preferenceRevision)))
  }

  /** What refuses an operation not yet recorded. */
  function EditRefusal(s: Rows, sdk: Sdk, id: CompanionId, request: EditRequest, generated: GenomeId): Option<Refusal>
    requires id in s.companions
  {
    if !HasCurrent(s, id) then Some(NoCommittedPersona)
    else if CurrentOf(s, id) != request.expectedBase then Some(BaseNotCurrent)
    else if s.companions[id].preferenceRevision != request.expectedPreferences then Some(PreferencesChanged)
    else
      var prepared := Prepare(s, sdk, id, request.action);
      if prepared.Err? then Some(prepared.error)
      else if NeedsGenome(s, id, prepared.value) && generated in s.genomes then Some(GenomeIdTaken)
      else None
  }

  ghost function AcceptedEdit(s: Rows, sdk: Sdk, id: CompanionId, request: EditRequest, generated: GenomeId): Outcome<Snapshot>
    requires id in s.companions && EditRefusal(s, sdk, id, request, generated).None?
  {
    var edited := Edited(s, id, request, Prepare(s, sdk, id, request.action).value, generated);
    Outcome(WithReceipt(edited, id, request, SnapshotOf(edited, id)), Ok(SnapshotOf(edited, id)))
  }

  ghost function Edit(s: Rows, sdk: Sdk, id: CompanionId, request: EditRequest, generated: GenomeId): Outcome<Snapshot> {
    if id !in s.companions then Refuse(s, CompanionMissing)
    else if request.operation in s.companions[id].receipts then
      var receipt := s.companions[id].receipts[request.operation];
      if receipt.request != request then Refuse(s, OperationConflict) else Replay(s, receipt)
    else
      var refusal := EditRefusal(s, sdk, id, request, generated);
      if refusal.Some? then Refuse(s, refusal.value) else AcceptedEdit(s, sdk, id, request, generated)
  }

  ghost function RenameCompanion(s: Rows, sdk: Sdk, id: CompanionId, displayName: Name, generated: GenomeId): Outcome<Option<Companion>> {
    var name := sdk.trim(displayName);
    if !sdk.validName(name) then Refuse(s, InvalidName)
    else if id !in s.companions then Outcome(s, Ok(None))
    else if !HasCurrent(s, id) then Refuse(s, NoCommittedPersona)
    else
      var c, base := s.companions[id], s.genomes[CurrentOf(s, id)].content;
      if c.displayName == name && base.name == name then Outcome(s, Ok(Some(c)))
      else if generated in s.genomes then Refuse(s, GenomeIdTaken)
      else
        var t := Appended(WithDisplayName(s, id, name), id, base.(name := name), None, generated);
        Outcome(t, Ok(Some(t.companions[id])))
  }

  /** Appends a copy of a committed genome under the companion's present name, unless that is what is current. */
  ghost function Restored(s: Rows, id: CompanionId, target: GenomeId, generated: GenomeId): Outcome<Genome>
    requires HasCurrent(s, id) && target in s.genomes
  {
    var current := CurrentOf(s, id);
    if current == target || s.genomes[current].restoredFrom == Some(target) then Outcome(s, Ok(s.genomes[current]))
    else if generated in s.genomes then Refuse(s, GenomeIdTaken)
    else
      var t := Appended(s, id, s.genomes[target].content.(name := s.companions[id].displayName), Some(target), generated);
      Outcome(t, Ok(t.genomes[generated]))
  }

  ghost function RestoreChapter(s: Rows, owner: Option<OwnerId>, id: CompanionId, target: GenomeId, generated: GenomeId): Outcome<Genome> {
    if id !in s.companions then Refuse(s, CompanionMissing)
    else if owner.Some? && s.companions[id].owner != owner.value then Refuse(s, NotFoundForOwner)
    else if !HasCurrent(s, id) then Refuse(s, NoCommittedPersona)
    else if !BelongsTo(s, target, id) then Refuse(s, NotThisCompanion)
    else if s.genomes[target].status != Committed then Refuse(s, NotRestorable)
    else Restored(s, id, target, generated)
  }

  /** The walk of reset_to_origin: base by base until there is none, it was visited, or it is not this companion's. */
  function Origin(s: Rows, id: CompanionId, g: GenomeId, visited: set<GenomeId>): (origin: GenomeId)
    requires g in s.genomes
    ensures origin in s.genomes
    decreases |s.genomes.Keys - visited|, if g in visited then 1 else 0
  {
    var base := s.genomes[g].base;
    if base.None? || base.value in visited || !BelongsTo(s, base.value, id) then g
    else
      assert g !in visited ==> s.genomes.Keys - (visited + {g}) == s.genomes.Keys - visited - {g};
      assert g in visited ==> visited + {g} == visited;
      Origin(s, id, base.value, visited + {g})
  }

  ghost function ResetToOrigin(s: Rows, owner: OwnerId, id: CompanionId, generated: GenomeId): Outcome<Genome> {
    if !Owned(s, owner, id) then Refuse(s, NotFoundForOwner)
    else if s.companions[id].current.None? || s.companions[id].current.value !in s.genomes then Refuse(s, GenomeMissing)
    else if !HasCurrent(s, id) then Refuse(s, NoCommittedPersona)
    else Restored(s, id, Origin(s, id, CurrentOf(s, id), {}), generated)
  }

  // ----- Evolution ----------------------------------------------------------

  predicate VersionTaken(s: Rows, id: CompanionId, version: int) {
    exists g | g in s.genomes :: s.genomes[g].companion == id && s.genomes[g].version == version
  }

  function CreateGenome(s: Rows, owner: OwnerId, g: GenomeId, row: Genome): Outcome<Genome> {
    if !Owned(s, owner, row.companion) then Refuse(s, NotFoundForOwner)
    else if row.base.Some? && !BelongsTo(s, row.base.value, row.companion) then Refuse(s, ForeignBase)
    else if g in s.genomes then Refuse(s, GenomeIdTaken)
    else if row.version <= 0 || VersionTaken(s, row.companion, row.version) then Refuse(s, VersionUnavailable)
    else
      var c := s.companions[row.companion];
      var moved := if row.status == Committed then c.(current := Some(g)) else c;
      Outcome(Rows(s.companions[row.companion := moved], s.genomes[g := row]), Ok(row))
  }

  ghost function Propose(s: Rows, sdk: Sdk, p: Proposal): Outcome<Genome> {
    if !Owned(s, p.owner, p.companion) then Refuse(s, NotFoundForOwner)
    else if s.companions[p.companion].current != Some(p.base) || p.base !in s.genomes then Refuse(s, BaseNotCurrent)
    else if !sdk.accepts(s.genomes[p.base].content, p) then Refuse(s, EvolutionRefused)
    else if p.proposed in s.genomes then Refuse(s, GenomeIdTaken)
    else
      var row := Genome(p.companion, Highest(s, p.companion) + 1, Proposed, Some(p.base), p.content, None);
      Outcome(s.(genomes := s.genomes[p.proposed := row]), Ok(row))
  }

  /** A proposal whose base is no longer current, or not the one expected, is marked stale and committed so, and the
      caller is refused. */
  function Approve(s: Rows, sdk: Sdk, owner: OwnerId, id: CompanionId, g: GenomeId, expectedBase: Option<GenomeId>): Outcome<Genome> {
    if !Owned(s, owner, id) then Refuse(s, NotFoundForOwner)
    else if !BelongsTo(s, g, id) then Refuse(s, GenomeMissing)
    else if s.genomes[g].status != Proposed then Refuse(s, NotProposed)
    else
      var row, c := s.genomes[g], s.companions[id];
      if c.current != row.base || (expectedBase.Some? && expectedBase != row.base) then
        Outcome(s.(genomes := s.genomes[g := row.(status := Stale)]), Err(CurrentChanged))
      else if row.base.None? || row.base.value !in s.genomes then Refuse(s, GenomeMissing)
      else
        var base := s.genomes[row.base.value].content;
        if !sdk.accepts(base, Proposal(owner, id, row.base.value, base, g, row.content)) then Refuse(s, EvolutionRefused)
        else
          var committed := row.(status := Committed);
          Outcome(Rows(s.companions[id := c.(current := Some(g), revision := c.revision + 1)], s.genomes[g := committed]),
                  Ok(committed))
  }

  function Reject(s: Rows, owner: OwnerId, g: GenomeId, id: Option<CompanionId>): Outcome<Genome> {
    if g !in s.genomes then Refuse(s, GenomeMissing)
    else if id.Some? && s.genomes[g].companion != id.value then Refuse(s, GenomeMissing)
    else if !Owned(s, owner, s.genomes[g].companion) then Refuse(s, NotFoundForOwner)
    else if s.genomes[g].status != Proposed then Refuse(s, NotProposed)
    else
      var row := s.genomes[g].(status := Rejected);
      Outcome(s.(genomes := s.genomes[g := row]), Ok(row))
  }

  /** Workspace provisioning: a companion with its first genome. */
  function Provision(
    s: Rows, owner: OwnerId, id: CompanionId, name: Name, g: GenomeId, content: Content, preferences: Preferences): Outcome<()>
  {
    if id in s.companions || g in s.genomes then Refuse(s, IdTaken)
    else Outcome(Rows(s.companions[id := Companion(owner, name, 1, Some(g), preferences, 1, map[])],
                      s.genomes[g := Genome(id, 1, Committed, None, content, None)]), Ok(()))
  }

  /** Other services' writes to the companion's row: anything but its owner, pointer and receipts. */
  function Touch(s: Rows, id: CompanionId, displayName: Name, revision: int, preferences: Preferences, preferenceRevision: int): Rows {
    if id !in s.companions then s
    else s.(companions := s.companions[id := s.companions[id].(displayName := displayName, revision := revision,
                                       preferences := preferences, preferenceRevision := preferenceRevision)])
  }

  // ----- Runs ---------------------------------------------------------------

  datatype Command =
    | CmdEdit(id: CompanionId, request: EditRequest, generated: GenomeId)
    | CmdRename(id: CompanionId, displayName: Name, generated: GenomeId)
    | CmdRestore(byOwner: Option<OwnerId>, id: CompanionId, target: GenomeId, generated: GenomeId)
    | CmdReset(owner: OwnerId, id: CompanionId, generated: GenomeId)
    | CmdCreateGenome(owner: OwnerId, g: GenomeId, row: Genome)
    | CmdPropose(proposal: Proposal)
    | CmdApprove(owner: OwnerId, id: CompanionId, g: GenomeId, expectedBase: Option<GenomeId>)
    | CmdReject(owner: OwnerId, g: GenomeId, of: Option<CompanionId>)
    | CmdProvision(owner: OwnerId, id: CompanionId, name: Name, g: GenomeId, content: Content, preferences: Preferences)
    | CmdTouch(id: CompanionId, displayName: Name, revision: int, preferences: Preferences, preferenceRevision: int)

  ghost function Step(s: Rows, sdk: Sdk, c: Command): Rows {
    match c
    case CmdEdit(id, request, generated) => Edit(s, sdk, id, request, generated).rows
    case CmdRename(id, displayName, generated) => RenameCompanion(s, sdk, id, displayName, generated).rows
    case CmdRestore(owner, id, target, generated) => RestoreChapter(s, owner, id, target, generated).rows
    case CmdReset(owner, id, generated) => ResetToOrigin(s, owner, id, generated).rows
    case CmdCreateGenome(owner, g, row) => CreateGenome(s, owner, g, row).rows
    case CmdPropose(proposal) => Propose(s, sdk, proposal).rows
    case CmdApprove(owner, id, g, expectedBase) => Approve(s, sdk, owner, id, g, expectedBase).rows
    case CmdReject(owner, g, id) => Reject(s, owner, g, id).rows
    case CmdProvision(owner, id, name, g, content, preferences) => Provision(s, owner, id, name, g, content, preferences).rows
    case CmdTouch(id, displayName, revision, preferences, preferenceRevision) =>
      Touch(s, id, displayName, revision, preferences, preferenceRevision)
  }

  ghost function Run(s: Rows, sdk: Sdk, cs: seq<Command>): Rows
    decreases |cs|
  {
    if cs == [] then s else Run(Step(s, sdk, cs[0]), sdk, cs[1..])
  }

  const EMPTY := Rows(map[], map[])
}
