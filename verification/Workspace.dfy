/**
 * Companion lifecycle and the owner's default pointer. The lifecycle table and the states that may be the default are
 * the SDK's; here they are active to retiring to archived to active, and active alone.
 */
module Workspace {
  import opened Core

  type OwnerId = int
  type CompanionId = int

  datatype Kind = Conversational | Guard | Specialist | System
  datatype Lifecycle = Active | Retiring | Archived
  datatype Companion = Companion(owner: OwnerId, kind: Kind, state: Lifecycle, revision: int)
  datatype Owner = Owner(active: bool, default: Option<CompanionId>, revision: int)
  datatype Rows = Rows(owners: map<OwnerId, Owner>, companions: map<CompanionId, Companion>)

  datatype Refusal =
    | OwnerNotFound | OwnerNotActive | IdTaken | NotFoundForOwner | TransitionNotAllowed | RevisionStale
    | LastActiveCompanion | ReplacementRequired | ReplacementIneligible | CompanionNotActive | GuardNotDefault | StillDefault

  datatype Outcome<+V> = Done(rows: Rows, view: V) | Refused(why: Refusal)

  function After<V>(s: Rows, outcome: Outcome<V>): Rows {
    if outcome.Done? then outcome.rows else s
  }

  function Answer<V>(outcome: Outcome<V>): Result<V, Refusal> {
    if outcome.Done? then Ok(outcome.view) else Err(outcome.why)
  }

  predicate Allowed(from: Lifecycle, to: Lifecycle) {
    (from == Active && to == Retiring) || (from == Retiring && to == Archived) || (from == Archived && to == Active)
  }

  predicate Owns(s: Rows, owner: OwnerId, id: CompanionId) {
    id in s.companions && s.companions[id].owner == owner
  }

  predicate IsDefault(s: Rows, owner: OwnerId, id: CompanionId) {
    owner in s.owners && s.owners[owner].default == Some(id)
  }

  function TransitionRefusal(c: Companion, to: Lifecycle, expected: Option<int>): Option<Refusal> {
    if !Allowed(c.state, to) then Some(TransitionNotAllowed)
    else if expected.Some? && expected.value != c.revision then Some(RevisionStale)
    else None
  }

  function Moved(s: Rows, id: CompanionId, to: Lifecycle): Rows
    requires id in s.companions
  {
    var c := s.companions[id];
    s.(companions := s.companions[id := c.(state := to, revision := c.revision + 1)])
  }

  function WithDefault(s: Rows, owner: OwnerId, default: Option<CompanionId>): Rows
    requires owner in s.owners
  {
    s.(owners := s.owners[owner := s.owners[owner].(default := default, revision := s.owners[owner].revision + 1)])
  }

  /** May answer for the owner instead of the one retiring. */
  predicate Eligible(s: Rows, owner: OwnerId, retiring: CompanionId, id: CompanionId) {
    Owns(s, owner, id) && id != retiring && s.companions[id].state == Active && s.companions[id].kind != Guard
  }

  predicate AnyEligible(s: Rows, owner: OwnerId, retiring: CompanionId) {
    exists id | id in s.companions :: Eligible(s, owner, retiring, id)
  }

  function ReplacementRefusal(s: Rows, owner: OwnerId, retiring: CompanionId, named: Option<CompanionId>): Option<Refusal> {
    if !AnyEligible(s, owner, retiring) then Some(LastActiveCompanion)
    else if named.None? then Some(ReplacementRequired)
    else if !Eligible(s, owner, retiring, named.value) then Some(ReplacementIneligible)
    else None
  }

  // ----- Lifecycle ------------------------------------------------------------

  /** _retire: the default moves to its replacement before the companion stops answering. */
  function Retire(s: Rows, owner: OwnerId, id: CompanionId, expected: Option<int>, replacement: Option<CompanionId>): Outcome<()>
    requires id in s.companions
  {
    if s.companions[id].state == Retiring then Done(s, ())
    else
      var refusal := TransitionRefusal(s.companions[id], Retiring, expected);
      if refusal.Some? then Refused(refusal.value)
      else if owner !in s.owners then Refused(OwnerNotFound)
      else if s.owners[owner].default == Some(id) then
        var unfit := ReplacementRefusal(s, owner, id, replacement);
        if unfit.Some? then Refused(unfit.value) else Done(Moved(WithDefault(s, owner, replacement), id, Retiring), ())
      else Done(Moved(s, id, Retiring), ())
  }

  /** _archive. */
  function Archive(s: Rows, owner: OwnerId, id: CompanionId, expected: Option<int>): Outcome<()>
    requires id in s.companions
  {
    if s.companions[id].state == Archived then Done(s, ())
    else
      var refusal := TransitionRefusal(s.companions[id], Archived, expected);
      if refusal.Some? then Refused(refusal.value)
      else if IsDefault(s, owner, id) then Refused(ReplacementRequired)
      else Done(Moved(s, id, Archived), ())
  }

  function BeginRetirement(
    s: Rows, owner: OwnerId, id: CompanionId, expected: Option<int>, replacement: Option<CompanionId>): Outcome<()>
  {
    if !Owns(s, owner, id) then Refused(NotFoundForOwner) else Retire(s, owner, id, expected, replacement)
  }

  function ArchiveCompanion(s: Rows, owner: OwnerId, id: CompanionId, expected: Option<int>): Outcome<()> {
    if !Owns(s, owner, id) then Refused(NotFoundForOwner) else Archive(s, owner, id, expected)
  }

  function PutAway(s: Rows, owner: OwnerId, id: CompanionId, expected: Option<int>, replacement: Option<CompanionId>): Outcome<()> {
    if !Owns(s, owner, id) then Refused(NotFoundForOwner)
    else if s.companions[id].state == Archived then Done(s, ())
    else
      var retired := Retire(s, owner, id, expected, replacement);
      if retired.Refused? then retired
      else if id !in retired.rows.companions then Refused(NotFoundForOwner)
      else Archive(retired.rows, owner, id, None)
  }

  function Restore(s: Rows, owner: OwnerId, id: CompanionId, expected: Option<int>): Outcome<()> {
    if !Owns(s, owner, id) then Refused(NotFoundForOwner)
    else if s.companions[id].state == Active then Done(s, ())
    else
      var refusal := TransitionRefusal(s.companions[id], Active, expected);
      if refusal.Some? then Refused(refusal.value) else Done(Moved(s, id, Active), ())
  }

  function SetDefault(s: Rows, owner: OwnerId, id: CompanionId, expected: Option<int>): Outcome<()> {
    if !Owns(s, owner, id) then Refused(NotFoundForOwner)
    else if s.companions[id].state != Active then Refused(CompanionNotActive)
    else if s.companions[id].kind == Guard then Refused(GuardNotDefault)
    else if owner !in s.owners then Refused(OwnerNotFound)
    else if s.owners[owner].default == Some(id) then Done(s, ())
    else if expected.Some? && expected.value != s.owners[owner].revision then Refused(RevisionStale)
    else Done(WithDefault(s, owner, Some(id)), ())
  }

  // ----- Owners ---------------------------------------------------------------

  function CreateOwner(s: Rows, owner: OwnerId): Outcome<()> {
    if owner in s.owners then Refused(IdTaken) else Done(s.(owners := s.owners[owner := Owner(true, None, 1)]), ())
  }

  /** Provisioning: the first companion that may be the default becomes it. */
  function Provision(s: Rows, owner: OwnerId, id: CompanionId, kind: Kind): Outcome<()> {
    if owner !in s.owners then Refused(OwnerNotFound)
    else if !s.owners[owner].active then Refused(OwnerNotActive)
    else if id in s.companions then Refused(IdTaken)
    else
      var added := s.(companions := s.companions[id := Companion(owner, kind, Active, 1)]);
      Done(if s.owners[owner].default.None? && kind != Guard then WithDefault(added, owner, Some(id)) else added, ())
  }

  /** Archiving an owner archives what is active and clears the pointer. */
  ghost function ArchiveOwner(s: Rows, owner: OwnerId): Outcome<()> {
    if owner !in s.owners then Refused(OwnerNotFound)
    else if !s.owners[owner].active then Done(s, ())
    else
      Done(Rows(s.owners[owner := Owner(false, None, s.owners[owner].revision + 1)],
                Archiving(s.companions, owner)), ())
  }

  ghost function Archiving(companions: map<CompanionId, Companion>, owner: OwnerId): map<CompanionId, Companion> {
    Mapped(companions, (id, c: Companion) => PutUnder(c, owner))
  }

  function PutUnder(c: Companion, owner: OwnerId): Companion {
    if c.owner == owner && c.state == Active then c.(state := Archived, revision := c.revision + 1) else c
  }

  function DeleteCompanion(s: Rows, owner: OwnerId, id: CompanionId, allowDefault: bool): Outcome<()> {
    if !Owns(s, owner, id) then Refused(NotFoundForOwner)
    else if IsDefault(s, owner, id) && !allowDefault then Refused(StillDefault)
    else
      var cleared := if IsDefault(s, owner, id) then WithDefault(s, owner, None) else s;
      Done(cleared.(companions := cleared.companions - {id}), ())
  }

  /** get_default_for_owner. */
  function DefaultFor(s: Rows, owner: OwnerId): Option<CompanionId> {
    if owner !in s.owners || s.owners[owner].default.None? then None
    else
      var id := s.owners[owner].default.value;
      if !Owns(s, owner, id) || s.companions[id].state != Active then None else Some(id)
  }

  datatype Command =
    | CmdCreateOwner(owner: OwnerId)
    | CmdProvision(owner: OwnerId, id: CompanionId, kind: Kind)
    | CmdRetire(owner: OwnerId, id: CompanionId, expected: Option<int>, replacement: Option<CompanionId>)
    | CmdArchive(owner: OwnerId, id: CompanionId, expected: Option<int>)
    | CmdPutAway(owner: OwnerId, id: CompanionId, expected: Option<int>, replacement: Option<CompanionId>)
    | CmdRestore(owner: OwnerId, id: CompanionId, expected: Option<int>)
    | CmdSetDefault(owner: OwnerId, id: CompanionId, expected: Option<int>)
    | CmdArchiveOwner(owner: OwnerId)
    | CmdDelete(owner: OwnerId, id: CompanionId, allowDefault: bool)

  ghost function Step(s: Rows, c: Command): Rows {
    match c
    case CmdCreateOwner(owner) => After(s, CreateOwner(s, owner))
    case CmdProvision(owner, id, kind) => After(s, Provision(s, owner, id, kind))
    case CmdRetire(owner, id, expected, replacement) => After(s, BeginRetirement(s, owner, id, expected, replacement))
    case CmdArchive(owner, id, expected) => After(s, ArchiveCompanion(s, owner, id, expected))
    case CmdPutAway(owner, id, expected, replacement) => After(s, PutAway(s, owner, id, expected, replacement))
    case CmdRestore(owner, id, expected) => After(s, Restore(s, owner, id, expected))
    case CmdSetDefault(owner, id, expected) => After(s, SetDefault(s, owner, id, expected))
    case CmdArchiveOwner(owner) => After(s, ArchiveOwner(s, owner))
    case CmdDelete(owner, id, allowDefault) => After(s, DeleteCompanion(s, owner, id, allowDefault))
  }

  ghost function Run(s: Rows, cs: seq<Command>): Rows
    decreases |cs|
  {
    if cs == [] then s else Run(Step(s, cs[0]), cs[1..])
  }

  const EMPTY := Rows(map[], map[])

  // ----- The default can always answer ----------------------------------------

  predicate DefaultSound(s: Rows, owner: OwnerId)
    requires owner in s.owners
  {
    s.owners[owner].default.Some? ==>
      var id := s.owners[owner].default.value;
      Owns(s, owner, id) && s.companions[id].state == Active && s.companions[id].kind != Guard
  }

  ghost predicate Sound(s: Rows) {
    forall owner | owner in s.owners :: DefaultSound(s, owner)
  }

  lemma RetireKeepsSound(s: Rows, owner: OwnerId, id: CompanionId, expected: Option<int>, replacement: Option<CompanionId>)
    requires Sound(s) && Owns(s, owner, id)
    ensures Sound(After(s, Retire(s, owner, id, expected, replacement)))
    ensures Retire(s, owner, id, expected, replacement).Done? ==>
              var u := Retire(s, owner, id, expected, replacement).rows;
              Owns(u, owner, id) && u.companions[id].state == Retiring && !IsDefault(u, owner, id)
  {
    var u := After(s, Retire(s, owner, id, expected, replacement));
    forall o | o in u.owners ensures DefaultSound(u, o) { assert DefaultSound(s, o); }
  }

  lemma ArchiveKeepsSound(s: Rows, owner: OwnerId, id: CompanionId, expected: Option<int>)
    requires Sound(s) && Owns(s, owner, id)
    ensures Sound(After(s, Archive(s, owner, id, expected)))
  {
    var u := After(s, Archive(s, owner, id, expected));
    forall o | o in u.owners ensures DefaultSound(u, o) { assert DefaultSound(s, o); }
  }

  lemma StepKeepsSound(s: Rows, c: Command)
    requires Sound(s)
    ensures Sound(Step(s, c))
  {
    var u := Step(s, c);
    match c
    case CmdRetire(owner, id, expected, replacement) =>
      if Owns(s, owner, id) { RetireKeepsSound(s, owner, id, expected, replacement); }
    case CmdArchive(owner, id, expected) =>
      if Owns(s, owner, id) { ArchiveKeepsSound(s, owner, id, expected); }
    case CmdPutAway(owner, id, expected, replacement) =>
      if Owns(s, owner, id) {
        RetireKeepsSound(s, owner, id, expected, replacement);
        ArchiveKeepsSound(After(s, Retire(s, owner, id, expected, replacement)), owner, id, None);
      }
    case _ =>
      forall o | o in u.owners ensures DefaultSound(u, o) {
        if o in s.owners { assert DefaultSound(s, o); }
      }
  }

  lemma {:induction false} RunKeepsSound(s: Rows, cs: seq<Command>)
    requires Sound(s)
    ensures Sound(Run(s, cs))
    decreases |cs|
  {
    if cs != [] {
      StepKeepsSound(s, cs[0]);
      RunKeepsSound(Step(s, cs[0]), cs[1..]);
    }
  }

  /** Over every run the pointer, when set, names an owned, active, non-guard companion, so the default query answers
      exactly when a default is set. */
  lemma DefaultCanAlwaysAnswer(cs: seq<Command>, owner: OwnerId)
    requires owner in Run(EMPTY, cs).owners
    ensures var s := Run(EMPTY, cs);
            && DefaultFor(s, owner) == s.owners[owner].default
            && (s.owners[owner].default.Some? ==> s.companions[s.owners[owner].default.value].kind != Guard)
  {
    RunKeepsSound(EMPTY, cs);
    assert DefaultSound(Run(EMPTY, cs), owner);
  }

  /** Only archiving the owner or a forced deletion of the default itself clears the pointer. */
  lemma OnlyTheseClearTheDefault(s: Rows, c: Command, owner: OwnerId)
    requires Sound(s) && owner in s.owners && s.owners[owner].default.Some?
    ensures owner in Step(s, c).owners
    ensures Step(s, c).owners[owner].default.None? <==>
              || (c.CmdArchiveOwner? && c.owner == owner && s.owners[owner].active)
              || (c.CmdDelete? && c.owner == owner && c.allowDefault && s.owners[owner].default == Some(c.id))
  {
    assert DefaultSound(s, owner);
  }

  /** The refusal inside _archive is unreachable. */
  lemma ArchiveNeverMeetsTheDefault(cs: seq<Command>, owner: OwnerId, id: CompanionId, expected: Option<int>)
    ensures var s := Run(EMPTY, cs);
            ArchiveCompanion(s, owner, id, expected) != Refused(ReplacementRequired)
            && (Owns(s, owner, id) && s.companions[id].state != Archived ==>
                  (ArchiveCompanion(s, owner, id, expected).Done? <==>
                     s.companions[id].state == Retiring && (expected.None? || expected.value == s.companions[id].revision)))
  {
    var s := Run(EMPTY, cs);
    RunKeepsSound(EMPTY, cs);
    if owner in s.owners { assert DefaultSound(s, owner); }
  }

  // ----- Putting away ---------------------------------------------------------

  /** Retirement followed by archiving without a revision, as two transactions. */
  function RetireThenArchive(
    s: Rows, owner: OwnerId, id: CompanionId, expected: Option<int>, replacement: Option<CompanionId>): Outcome<()>
  {
    var retired := BeginRetirement(s, owner, id, expected, replacement);
    if retired.Refused? then retired else ArchiveCompanion(retired.rows, owner, id, None)
  }

  /** Putting away is retiring and archiving in one, and is refused exactly when retirement is, precisely for companions
      not yet archived; an archived one is put away without effect where retirement refuses it. */
  lemma PutAwayIsRetireThenArchive(
    s: Rows, owner: OwnerId, id: CompanionId, expected: Option<int>, replacement: Option<CompanionId>)
    requires Sound(s)
    ensures var (away, retired) := (PutAway(s, owner, id, expected, replacement), BeginRetirement(s, owner, id, expected, replacement));
            var archived := Owns(s, owner, id) && s.companions[id].state == Archived;
            && (away == RetireThenArchive(s, owner, id, expected, replacement) <==> !archived)
            && ((away.Refused? <==> retired.Refused?) <==> !archived)
            && (retired.Refused? && !archived ==> away == retired)
            && (archived ==> away == Done(s, ()) && retired == Refused(TransitionNotAllowed))
  {
    if Owns(s, owner, id) { RetireKeepsSound(s, owner, id, expected, replacement); }
  }

  /** What putting away leaves: the companion archived, the default moved to the named replacement if it was the one put
      away and untouched otherwise, nobody else's row touched. */
  lemma PutAwayLeaves(s: Rows, owner: OwnerId, id: CompanionId, expected: Option<int>, replacement: Option<CompanionId>)
    requires Sound(s) && PutAway(s, owner, id, expected, replacement).Done? && owner in s.owners
    ensures var u := PutAway(s, owner, id, expected, replacement).rows;
            && Owns(u, owner, id) && u.companions[id].state == Archived
            && (forall k | k != id :: (k in u.companions <==> k in s.companions) && (k in s.companions ==> u.companions[k] == s.companions[k]))
            && owner in u.owners
            && u.owners[owner].default == (if s.owners[owner].default == Some(id) then replacement else s.owners[owner].default)
            && (s.owners[owner].default == Some(id) ==> replacement.Some? && replacement != Some(id))
            && (s.companions[id].state == Active ==>
                  u.companions[id].revision == s.companions[id].revision + 2 && (expected.None? || expected == Some(s.companions[id].revision)))
            && (s.companions[id].state == Retiring ==> u.companions[id].revision == s.companions[id].revision + 1)
  {
    assert DefaultSound(s, owner);
  }

  /** A companion that is retiring is put away whatever revision its caller read. */
  lemma RetiringIgnoresTheCallersRevision(s: Rows, owner: OwnerId, id: CompanionId, expected: Option<int>, replacement: Option<CompanionId>)
    requires Sound(s) && Owns(s, owner, id) && s.companions[id].state == Retiring
    ensures PutAway(s, owner, id, expected, replacement) == Done(Moved(s, id, Archived), ())
  {
    if owner in s.owners { assert DefaultSound(s, owner); }
  }
}
