/** Team assets: immutable revisions, replayable saves, one exclusive run per team, first-wins start snapshots. */
module Teams {
  import opened Core

  type OwnerId = int
  type HostId = string
  type TeamId = int
  type SessionId = int
  type CompanionId = int
  type Tag = int

  datatype Configuration = Configuration(members: set<CompanionId>, body: Tag)
  datatype Selection = Selection(session: SessionId, body: Tag)
  datatype Terminal = Terminal(session: SessionId, closed: bool, body: Tag)

  datatype TeamKey = TeamKey(owner: OwnerId, team: TeamId)
  datatype RevisionKey = RevisionKey(owner: OwnerId, team: TeamId, revision: int)
  datatype StartKey = StartKey(owner: OwnerId, session: SessionId)

  datatype Team = Team(host: HostId, active: Option<SessionId>, deleted: bool, revision: int)
  datatype Start = Start(team: TeamId, revision: int, closed: bool, selection: Option<Selection>, terminal: Option<Terminal>)
  datatype Member = Member(owner: OwnerId, active: bool)

  datatype Rows = Rows(
    owners: map<OwnerId, bool>, companions: map<CompanionId, Member>, teams: map<TeamKey, Team>,
    revisions: map<RevisionKey, Configuration>, starts: map<StartKey, Start>)

  datatype Refusal =
    | InvalidRevision | InvalidHost | NotFound | RevisionConflict | CompanionUnavailable | BusyOrConflict
    | IdempotencyConflict | RunAlreadyClosed | InvalidClosureEvidence | IdentityMismatch | ConfigurationMismatch

  datatype Revision = Revision(team: TeamId, revision: int, configuration: Configuration)
  datatype Snapshot = Snapshot(team: TeamId, session: SessionId, start: Start)

  datatype Outcome<+V> = Done(rows: Rows, view: V) | Refused(why: Refusal)

  function After<V>(s: Rows, outcome: Outcome<V>): Rows {
    if outcome.Done? then outcome.rows else s
  }

  function Answer<V>(outcome: Outcome<V>): Result<V, Refusal> {
    if outcome.Done? then Ok(outcome.view) else Err(outcome.why)
  }

  predicate ActiveOwner(s: Rows, owner: OwnerId) {
    owner in s.owners && s.owners[owner]
  }

  predicate Available(s: Rows, owner: OwnerId, members: set<CompanionId>) {
    forall c | c in members :: c in s.companions && s.companions[c].owner == owner && s.companions[c].active
  }

  predicate ValidHost(host: HostId) {
    1 <= |host| <= 128
  }

  predicate Hosted(s: Rows, k: TeamKey, host: HostId) {
    k in s.teams && s.teams[k].host == host
  }

  // ----- Saving ---------------------------------------------------------------

  /** The save a new revision needs, in the order of the source; the retry of a saved revision is answered before. */
  function SaveNew(s: Rows, owner: OwnerId, host: HostId, team: TeamId, expected: int, configuration: Configuration): Outcome<Revision> {
    var k, next := TeamKey(owner, team), expected + 1;
    if !Available(s, owner, configuration.members) then Refused(CompanionUnavailable)
    else
      var saved := s.revisions[RevisionKey(owner, team, next) := configuration];
      if expected == 0 then
        if k in s.teams then Refused(RevisionConflict)
        else Done(s.(teams := s.teams[k := Team(host, None, false, 1)], revisions := saved), Revision(team, next, configuration))
      else if !Hosted(s, k, host) || s.teams[k].deleted || s.teams[k].revision != expected then Refused(RevisionConflict)
      else Done(s.(teams := s.teams[k := s.teams[k].(revision := next)], revisions := saved), Revision(team, next, configuration))
  }

  function Save(s: Rows, owner: OwnerId, host: HostId, team: TeamId, expected: int, configuration: Configuration): Outcome<Revision> {
    var k, accepted := TeamKey(owner, team), RevisionKey(owner, team, expected + 1);
    if expected < 0 then Refused(InvalidRevision)
    else if !ValidHost(host) then Refused(InvalidHost)
    else if !ActiveOwner(s, owner) then Refused(NotFound)
    else if k in s.teams && (s.teams[k].host != host || s.teams[k].deleted) then Refused(RevisionConflict)
    else if k in s.teams && accepted in s.revisions then
      if s.revisions[accepted] == configuration then Done(s, Revision(team, expected + 1, configuration)) else Refused(RevisionConflict)
    else SaveNew(s, owner, host, team, expected, configuration)
  }

  function Get(s: Rows, owner: OwnerId, host: HostId, team: TeamId): Result<Revision, Refusal> {
    var k := TeamKey(owner, team);
    if !ActiveOwner(s, owner) || !Hosted(s, k, host) || s.teams[k].deleted then Err(NotFound)
    else
      var current := RevisionKey(owner, team, s.teams[k].revision);
      if current !in s.revisions then Err(NotFound) else Ok(Revision(team, s.teams[k].revision, s.revisions[current]))
  }

  // ----- Runs of a team -------------------------------------------------------

  /** The guarded update that reserves the team for the session. */
  predicate MayStart(s: Rows, k: TeamKey, host: HostId, expected: int, session: SessionId) {
    && Hosted(s, k, host) && !s.teams[k].deleted
    && (s.teams[k].active == Some(session) || (s.teams[k].active.None? && s.teams[k].revision == expected))
  }

  function ReserveStart(s: Rows, owner: OwnerId, host: HostId, team: TeamId, expected: int, session: SessionId): Outcome<Revision> {
    var k, started, pinned := TeamKey(owner, team), StartKey(owner, session), RevisionKey(owner, team, expected);
    if !ActiveOwner(s, owner) then Refused(NotFound)
    else if !MayStart(s, k, host, expected, session) then Refused(BusyOrConflict)
    else if started in s.starts && (s.starts[started].team != team || s.starts[started].revision != expected) then Refused(IdempotencyConflict)
    else if started in s.starts && s.starts[started].closed then Refused(RunAlreadyClosed)
    else if pinned !in s.revisions then Refused(RevisionConflict)
    else
      var start := if started in s.starts then s.starts[started] else Start(team, expected, false, None, None);
      Done(s.(teams := s.teams[k := s.teams[k].(active := Some(session))], starts := s.starts[started := start]),
           Revision(team, expected, s.revisions[pinned]))
  }

  function ConfirmClosed(
    s: Rows, owner: OwnerId, host: HostId, team: TeamId, session: SessionId, terminal: Option<Terminal>): Outcome<()>
  {
    var k, started := TeamKey(owner, team), StartKey(owner, session);
    if terminal.Some? && (!terminal.value.closed || terminal.value.session != session) then Refused(InvalidClosureEvidence)
    else if !Hosted(s, k, host) then Refused(NotFound)
    else if started !in s.starts || s.starts[started].team != team then Refused(NotFound)
    else
      var start := s.starts[started].(closed := true, terminal := if terminal.Some? then terminal else s.starts[started].terminal);
      var row := if s.teams[k].active == Some(session) then s.teams[k].(active := None) else s.teams[k];
      Done(s.(teams := s.teams[k := row], starts := s.starts[started := start]), ())
  }

  function Delete(s: Rows, owner: OwnerId, host: HostId, team: TeamId, expected: int): Outcome<()> {
    var k := TeamKey(owner, team);
    if !ActiveOwner(s, owner) then Refused(NotFound)
    else if !Hosted(s, k, host) || s.teams[k].revision != expected || s.teams[k].active.Some? then Refused(BusyOrConflict)
    else Done(s.(teams := s.teams[k := s.teams[k].(deleted := true)]), ())
  }

  /** resolves is the SDK's: resolving the configuration with the selection's own devices and attachments gives it back. */
  function StartSnapshot(
    s: Rows, resolves: (Configuration, Selection) -> bool, owner: OwnerId, host: HostId, team: TeamId, session: SessionId,
    selection: Option<Selection>): Outcome<Snapshot>
  {
    var started := StartKey(owner, session);
    if !Hosted(s, TeamKey(owner, team), host) || !ActiveOwner(s, owner) then Refused(NotFound)
    else if started !in s.starts || s.starts[started].team != team then Refused(NotFound)
    else
      var start := s.starts[started];
      if selection.None? then Done(s, Snapshot(team, session, start))
      else if start.closed then Refused(RunAlreadyClosed)
      else if selection.value.session != session then Refused(IdentityMismatch)
      else if RevisionKey(owner, team, start.revision) !in s.revisions
              || !resolves(s.revisions[RevisionKey(owner, team, start.revision)], selection.value) then Refused(ConfigurationMismatch)
      else
        var chosen := if start.selection.None? then start.(selection := selection) else start;
        Done(s.(starts := s.starts[started := chosen]), Snapshot(team, session, chosen))
  }

  // ----- Runs of commands -----------------------------------------------------

  datatype Command =
    | CmdSave(owner: OwnerId, host: HostId, team: TeamId, expected: int, configuration: Configuration)
    | CmdReserve(owner: OwnerId, host: HostId, team: TeamId, expected: int, session: SessionId)
    | CmdClose(owner: OwnerId, host: HostId, team: TeamId, session: SessionId, terminal: Option<Terminal>)
    | CmdDelete(owner: OwnerId, host: HostId, team: TeamId, expected: int)
    | CmdSnapshot(owner: OwnerId, host: HostId, team: TeamId, session: SessionId, selection: Option<Selection>)
    /** Owners and companions change as they please. */
    | CmdWorld(owners: map<OwnerId, bool>, companions: map<CompanionId, Member>)

  function Step(s: Rows, resolves: (Configuration, Selection) -> bool, c: Command): Rows {
    match c
    case CmdSave(owner, host, team, expected, configuration) => After(s, Save(s, owner, host, team, expected, configuration))
    case CmdReserve(owner, host, team, expected, session) => After(s, ReserveStart(s, owner, host, team, expected, session))
    case CmdClose(owner, host, team, session, terminal) => After(s, ConfirmClosed(s, owner, host, team, session, terminal))
    case CmdDelete(owner, host, team, expected) => After(s, Delete(s, owner, host, team, expected))
    case CmdSnapshot(owner, host, team, session, selection) =>
      After(s, StartSnapshot(s, resolves, owner, host, team, session, selection))
    case CmdWorld(owners, companions) => s.(owners := owners, companions := companions)
  }

  function Run(s: Rows, resolves: (Configuration, Selection) -> bool, cs: seq<Command>): Rows
    decreases |cs|
  {
    if cs == [] then s else Run(Step(s, resolves, cs[0]), resolves, cs[1..])
  }

  const EMPTY := Rows(map[], map[], map[], map[], map[])
}
