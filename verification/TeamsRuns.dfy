/** What every interleaving of team commands keeps. */
module TeamsRuns {
  import opened Core
  import opened Teams

  /** The session is the team's one open run. */
  predicate OpenRun(s: Rows, k: TeamKey, session: SessionId) {
    var started := StartKey(k.owner, session);
    started in s.starts && s.starts[started].team == k.team && !s.starts[started].closed
  }

  ghost predicate TeamSound(s: Rows, k: TeamKey)
    requires k in s.teams
  {
    var team := s.teams[k];
    && team.revision >= 1
    && (forall r :: RevisionKey(k.owner, k.team, r) in s.revisions <==> 1 <= r <= team.revision)
    && (forall session :: team.active == Some(session) <==> OpenRun(s, k, session))
    && (team.deleted ==> team.active.None?)
  }

  ghost predicate StartSound(s: Rows, started: StartKey)
    requires started in s.starts
  {
    var start := s.starts[started];
    && TeamKey(started.owner, start.team) in s.teams
    && RevisionKey(started.owner, start.team, start.revision) in s.revisions
    && (start.selection.Some? ==> start.selection.value.session == started.session)
  }

  ghost predicate Sound(s: Rows) {
    && (forall k | k in s.teams :: TeamSound(s, k))
    && (forall started | started in s.starts :: StartSound(s, started))
    && (forall key | key in s.revisions :: TeamKey(key.owner, key.team) in s.teams)
  }

  lemma SameStartsSameRuns(s: Rows, u: Rows)
    requires u.starts == s.starts
    ensures forall k, session :: OpenRun(u, k, session) <==> OpenRun(s, k, session)
  {
  }

  lemma NewTeamHasNoRuns(s: Rows, k: TeamKey)
    requires Sound(s) && k !in s.teams
    ensures forall session :: !OpenRun(s, k, session)
    ensures forall r :: RevisionKey(k.owner, k.team, r) !in s.revisions
  {
    forall session ensures !OpenRun(s, k, session) {
      if StartKey(k.owner, session) in s.starts { assert StartSound(s, StartKey(k.owner, session)); }
    }
    forall r ensures RevisionKey(k.owner, k.team, r) !in s.revisions {
      assert RevisionKey(k.owner, k.team, r) in s.revisions ==> k in s.teams;
    }
  }

  lemma SavingKeepsTeams(s: Rows, owner: OwnerId, host: HostId, team: TeamId, expected: int, configuration: Configuration, j: TeamKey)
    requires Sound(s) && j in After(s, Save(s, owner, host, team, expected, configuration)).teams
    ensures TeamSound(After(s, Save(s, owner, host, team, expected, configuration)), j)
  {
    var u := After(s, Save(s, owner, host, team, expected, configuration));
    SameStartsSameRuns(s, u);
    if j in s.teams { assert TeamSound(s, j); } else { NewTeamHasNoRuns(s, j); }
  }

  lemma SaveKeepsSound(s: Rows, owner: OwnerId, host: HostId, team: TeamId, expected: int, configuration: Configuration)
    requires Sound(s)
    ensures Sound(After(s, Save(s, owner, host, team, expected, configuration)))
  {
    var u := After(s, Save(s, owner, host, team, expected, configuration));
    forall j | j in u.teams ensures TeamSound(u, j) { SavingKeepsTeams(s, owner, host, team, expected, configuration, j); }
    forall started | started in u.starts ensures StartSound(u, started) { assert StartSound(s, started); }
  }

  lemma ReserveKeepsSound(s: Rows, owner: OwnerId, host: HostId, team: TeamId, expected: int, session: SessionId)
    requires Sound(s)
    ensures Sound(After(s, ReserveStart(s, owner, host, team, expected, session)))
  {
    var u := After(s, ReserveStart(s, owner, host, team, expected, session));
    forall j | j in u.teams ensures TeamSound(u, j) { assert TeamSound(s, j); }
    forall started | started in u.starts ensures StartSound(u, started) {
      if started in s.starts { assert StartSound(s, started); }
    }
  }

  lemma CloseKeepsSound(s: Rows, owner: OwnerId, host: HostId, team: TeamId, session: SessionId, terminal: Option<Terminal>)
    requires Sound(s)
    ensures Sound(After(s, ConfirmClosed(s, owner, host, team, session, terminal)))
  {
    var u := After(s, ConfirmClosed(s, owner, host, team, session, terminal));
    forall j | j in u.teams ensures TeamSound(u, j) { assert TeamSound(s, j); }
    forall started | started in u.starts ensures StartSound(u, started) { assert StartSound(s, started); }
  }

  lemma DeleteKeepsSound(s: Rows, owner: OwnerId, host: HostId, team: TeamId, expected: int)
    requires Sound(s)
    ensures Sound(After(s, Delete(s, owner, host, team, expected)))
  {
    var u := After(s, Delete(s, owner, host, team, expected));
    forall j | j in u.teams ensures TeamSound(u, j) { assert TeamSound(s, j); }
    forall started | started in u.starts ensures StartSound(u, started) { assert StartSound(s, started); }
  }

  lemma SnapshotKeepsSound(
    s: Rows, resolves: (Configuration, Selection) -> bool, owner: OwnerId, host: HostId, team: TeamId, session: SessionId,
    selection: Option<Selection>)
    requires Sound(s)
    ensures Sound(After(s, StartSnapshot(s, resolves, owner, host, team, session, selection)))
  {
    var u := After(s, StartSnapshot(s, resolves, owner, host, team, session, selection));
    forall j | j in u.teams ensures TeamSound(u, j) {
      assert TeamSound(s, j);
      forall other ensures OpenRun(u, j, other) <==> OpenRun(s, j, other) {}
    }
    forall started | started in u.starts ensures StartSound(u, started) { assert StartSound(s, started); }
  }

  lemma WorldKeepsSound(s: Rows, owners: map<OwnerId, bool>, companions: map<CompanionId, Member>)
    requires Sound(s)
    ensures Sound(s.(owners := owners, companions := companions))
  {
    var u := s.(owners := owners, companions := companions);
    forall j | j in u.teams ensures TeamSound(u, j) {
      assert TeamSound(s, j);
      forall other ensures OpenRun(u, j, other) <==> OpenRun(s, j, other) {}
    }
    forall started | started in u.starts ensures StartSound(u, started) { assert StartSound(s, started); }
  }

  lemma StepKeepsSound(s: Rows, resolves: (Configuration, Selection) -> bool, c: Command)
    requires Sound(s)
    ensures Sound(Step(s, resolves, c))
  {
    match c
    case CmdSave(owner, host, team, expected, configuration) => SaveKeepsSound(s, owner, host, team, expected, configuration);
    case CmdReserve(owner, host, team, expected, session) => ReserveKeepsSound(s, owner, host, team, expected, session);
    case CmdClose(owner, host, team, session, terminal) => CloseKeepsSound(s, owner, host, team, session, terminal);
    case CmdDelete(owner, host, team, expected) => DeleteKeepsSound(s, owner, host, team, expected);
    case CmdSnapshot(owner, host, team, session, selection) =>
      SnapshotKeepsSound(s, resolves, owner, host, team, session, selection);
    case CmdWorld(owners, companions) => WorldKeepsSound(s, owners, companions);
  }

  lemma {:induction false} RunKeepsSound(s: Rows, resolves: (Configuration, Selection) -> bool, cs: seq<Command>)
    requires Sound(s)
    ensures Sound(Run(s, resolves, cs))
    decreases |cs|
  {
    if cs != [] {
      StepKeepsSound(s, resolves, cs[0]);
      RunKeepsSound(Step(s, resolves, cs[0]), resolves, cs[1..]);
    }
  }

  /** In every reachable state a team's active session is s exactly when (owner, s) is its one open start, a deleted
      team has none, every start pins a saved revision, and the saved revisions are exactly 1 to the current one. */
  lemma RunsAreExclusive(resolves: (Configuration, Selection) -> bool, cs: seq<Command>, k: TeamKey)
    requires k in Run(EMPTY, resolves, cs).teams
    ensures var s := Run(EMPTY, resolves, cs);
            && (forall session :: s.teams[k].active == Some(session) <==> OpenRun(s, k, session))
            && (forall a, b | OpenRun(s, k, a) && OpenRun(s, k, b) :: a == b)
            && (s.teams[k].deleted ==> forall session :: !OpenRun(s, k, session))
            && (forall started | started in s.starts ::
                  RevisionKey(started.owner, s.starts[started].team, s.starts[started].revision) in s.revisions)
            && (forall r :: RevisionKey(k.owner, k.team, r) in s.revisions <==> 1 <= r <= s.teams[k].revision)
  {
    RunKeepsSound(EMPTY, resolves, cs);
    var s := Run(EMPTY, resolves, cs);
    assert TeamSound(s, k);
    forall started | started in s.starts
      ensures RevisionKey(started.owner, s.starts[started].team, s.starts[started].revision) in s.revisions
    {
      assert StartSound(s, started);
    }
  }

  // ----- What only grows ------------------------------------------------------

  predicate TeamGrew(before: Team, after: Team) {
    after.host == before.host && after.revision >= before.revision && (before.deleted ==> after.deleted)
  }

  /** A start keeps its team and revision; closed is permanent; a selection, once there, stays, and a closed start
      gains none. */
  predicate StartGrew(before: Start, after: Start) {
    && after.team == before.team && after.revision == before.revision && (before.closed ==> after.closed)
    && (before.selection.Some? || before.closed ==> after.selection == before.selection)
  }

  ghost predicate Extends(s: Rows, u: Rows) {
    && (forall key | key in s.revisions :: key in u.revisions && u.revisions[key] == s.revisions[key])
    && (forall k | k in s.teams :: k in u.teams && TeamGrew(s.teams[k], u.teams[k]))
    && (forall started | started in s.starts :: started in u.starts && StartGrew(s.starts[started], u.starts[started]))
  }

  lemma ExtendsTransitive(s: Rows, t: Rows, u: Rows)
    requires Extends(s, t) && Extends(t, u)
    ensures Extends(s, u)
  {
    forall started | started in s.starts ensures started in u.starts && StartGrew(s.starts[started], u.starts[started]) {
      assert StartGrew(s.starts[started], t.starts[started]) && StartGrew(t.starts[started], u.starts[started]);
    }
  }

  lemma SaveExtends(s: Rows, owner: OwnerId, host: HostId, team: TeamId, expected: int, configuration: Configuration)
    requires Sound(s)
    ensures Extends(s, After(s, Save(s, owner, host, team, expected, configuration)))
  {
    var k := TeamKey(owner, team);
    if k in s.teams { assert TeamSound(s, k); }
  }

  lemma ReserveExtends(s: Rows, owner: OwnerId, host: HostId, team: TeamId, expected: int, session: SessionId)
    ensures Extends(s, After(s, ReserveStart(s, owner, host, team, expected, session)))
  {
  }

  lemma CloseExtends(s: Rows, owner: OwnerId, host: HostId, team: TeamId, session: SessionId, terminal: Option<Terminal>)
    ensures Extends(s, After(s, ConfirmClosed(s, owner, host, team, session, terminal)))
  {
  }

  lemma SnapshotExtends(
    s: Rows, resolves: (Configuration, Selection) -> bool, owner: OwnerId, host: HostId, team: TeamId, session: SessionId,
    selection: Option<Selection>)
    ensures Extends(s, After(s, StartSnapshot(s, resolves, owner, host, team, session, selection)))
  {
  }

  lemma StepExtends(s: Rows, resolves: (Configuration, Selection) -> bool, c: Command)
    requires Sound(s)
    ensures Extends(s, Step(s, resolves, c))
  {
    match c
    case CmdSave(owner, host, team, expected, configuration) => SaveExtends(s, owner, host, team, expected, configuration);
    case CmdReserve(owner, host, team, expected, session) => ReserveExtends(s, owner, host, team, expected, session);
    case CmdClose(owner, host, team, session, terminal) => CloseExtends(s, owner, host, team, session, terminal);
    case CmdDelete(owner, host, team, expected) =>
    case CmdSnapshot(owner, host, team, session, selection) =>
      SnapshotExtends(s, resolves, owner, host, team, session, selection);
    case CmdWorld(owners, companions) =>
  }

  /** Over any run: saved revisions are never rewritten, closed is permanent, a selection is set at most once and only
      while its run is open. */
  lemma {:induction false} RunExtends(s: Rows, resolves: (Configuration, Selection) -> bool, cs: seq<Command>)
    requires Sound(s)
    ensures Sound(Run(s, resolves, cs)) && Extends(s, Run(s, resolves, cs))
    decreases |cs|
  {
    if cs != [] {
      StepKeepsSound(s, resolves, cs[0]);
      StepExtends(s, resolves, cs[0]);
      RunExtends(Step(s, resolves, cs[0]), resolves, cs[1..]);
      ExtendsTransitive(s, Step(s, resolves, cs[0]), Run(s, resolves, cs));
    }
  }

  // ----- Saves ----------------------------------------------------------------

  /** An accepted save is the team's revision from then on. */
  lemma SavedIsRecorded(s: Rows, owner: OwnerId, host: HostId, team: TeamId, expected: int, configuration: Configuration)
    requires Sound(s) && Save(s, owner, host, team, expected, configuration).Done?
    ensures var u := Save(s, owner, host, team, expected, configuration).rows;
            && Sound(u) && Extends(s, u) && Hosted(u, TeamKey(owner, team), host) && ValidHost(host) && expected >= 0
            && RevisionKey(owner, team, expected + 1) in u.revisions
            && u.revisions[RevisionKey(owner, team, expected + 1)] == configuration
            && (u != s ==> u.teams[TeamKey(owner, team)].revision == expected + 1
                           && (expected == 0 <==> TeamKey(owner, team) !in s.teams)
                           && (expected > 0 ==> s.teams[TeamKey(owner, team)].revision == expected))
  {
    SaveKeepsSound(s, owner, host, team, expected, configuration);
    SaveExtends(s, owner, host, team, expected, configuration);
    if TeamKey(owner, team) in s.teams { assert TeamSound(s, TeamKey(owner, team)); }
  }

  /** The retry of an accepted save returns its result, after any number of later saves and other commands, as long as
      the team is not deleted and its owner is active. */
  lemma RetriedSaveAnswersAgain(
    s: Rows, resolves: (Configuration, Selection) -> bool, owner: OwnerId, host: HostId, team: TeamId, expected: int,
    configuration: Configuration, cs: seq<Command>)
    requires Sound(s) && Save(s, owner, host, team, expected, configuration).Done?
    ensures var u := Save(s, owner, host, team, expected, configuration);
            var later := Run(u.rows, resolves, cs);
            && TeamKey(owner, team) in later.teams
            && (ActiveOwner(later, owner) && !later.teams[TeamKey(owner, team)].deleted ==>
                  Save(later, owner, host, team, expected, configuration) == Done(later, u.view))
  {
    var u := Save(s, owner, host, team, expected, configuration).rows;
    SavedIsRecorded(s, owner, host, team, expected, configuration);
    RunExtends(u, resolves, cs);
  }

  /** One winner: after a save, no save naming the same revision with other content is ever accepted. */
  lemma OneWinnerPerRevision(
    s: Rows, resolves: (Configuration, Selection) -> bool, owner: OwnerId, host: HostId, team: TeamId, expected: int,
    configuration: Configuration, cs: seq<Command>, host': HostId, other: Configuration)
    requires Sound(s) && Save(s, owner, host, team, expected, configuration).Done? && other != configuration
    ensures var later := Run(Save(s, owner, host, team, expected, configuration).rows, resolves, cs);
            Save(later, owner, host', team, expected, other).Refused?
  {
    var u := Save(s, owner, host, team, expected, configuration).rows;
    SavedIsRecorded(s, owner, host, team, expected, configuration);
    RunExtends(u, resolves, cs);
  }

  /** What a save writes beside the current pointer and its one new revision: nothing. */
  lemma SaveAppendsOneRevision(s: Rows, owner: OwnerId, host: HostId, team: TeamId, expected: int, configuration: Configuration)
    requires Sound(s) && Save(s, owner, host, team, expected, configuration).Done?
    ensures var u := Save(s, owner, host, team, expected, configuration).rows;
            && u.starts == s.starts
            && (forall k | k != TeamKey(owner, team) :: k in u.teams <==> k in s.teams)
            && (forall k | k in s.teams && k != TeamKey(owner, team) :: u.teams[k] == s.teams[k])
            && (u != s ==> RevisionKey(owner, team, expected + 1) !in s.revisions
                           && u.revisions == s.revisions[RevisionKey(owner, team, expected + 1) := configuration])
            && Get(u, owner, host, team).Ok? && Get(u, owner, host, team).value.revision >= expected + 1
            && (u != s ==> Get(u, owner, host, team) == Ok(Revision(team, expected + 1, configuration)))
  {
    SavedIsRecorded(s, owner, host, team, expected, configuration);
    var u := Save(s, owner, host, team, expected, configuration).rows;
    assert TeamSound(u, TeamKey(owner, team));
    assert RevisionKey(owner, team, expected + 1) in s.revisions ==> TeamKey(owner, team) in s.teams;
    if TeamKey(owner, team) in s.teams { assert TeamSound(s, TeamKey(owner, team)); }
  }

  // ----- Exclusive runs -------------------------------------------------------

  /** A reservation makes the session the team's one run, pinned to the revision named and answered with its content. */
  lemma ReservationPins(s: Rows, owner: OwnerId, host: HostId, team: TeamId, expected: int, session: SessionId)
    requires Sound(s) && ReserveStart(s, owner, host, team, expected, session).Done?
    ensures var u := ReserveStart(s, owner, host, team, expected, session);
            && Sound(u.rows) && Hosted(u.rows, TeamKey(owner, team), host) && OpenRun(u.rows, TeamKey(owner, team), session)
            && u.rows.teams[TeamKey(owner, team)].active == Some(session)
            && u.rows.starts[StartKey(owner, session)].revision == expected
            && RevisionKey(owner, team, expected) in u.rows.revisions
            && u.view == Revision(team, expected, u.rows.revisions[RevisionKey(owner, team, expected)])
  {
    ReserveKeepsSound(s, owner, host, team, expected, session);
  }

  /** While a run is open no other session may start and the team may not be deleted; asking for it again changes
      nothing and answers the revision it pins. */
  lemma OpenRunExcludes(s: Rows, owner: OwnerId, host: HostId, team: TeamId, expected: int, session: SessionId)
    requires Sound(s) && Hosted(s, TeamKey(owner, team), host) && OpenRun(s, TeamKey(owner, team), session)
    requires s.starts[StartKey(owner, session)].revision == expected && RevisionKey(owner, team, expected) in s.revisions
    ensures forall host', other, r | other != session :: ReserveStart(s, owner, host', team, r, other).Refused?
    ensures forall host', r :: Delete(s, owner, host', team, r).Refused?
    ensures ActiveOwner(s, owner) ==>
              ReserveStart(s, owner, host, team, expected, session)
              == Done(s, Revision(team, expected, s.revisions[RevisionKey(owner, team, expected)]))
  {
    var (k, started) := (TeamKey(owner, team), StartKey(owner, session));
    assert TeamSound(s, k);
    assert s.teams[k := s.teams[k].(active := Some(session))] == s.teams;
    assert s.starts[started := s.starts[started]] == s.starts;
  }

  /** Whatever else happens, from a reservation until its run is closed: exclusive, pinned, and replayed exactly. */
  lemma ReservationIsExclusive(
    s: Rows, resolves: (Configuration, Selection) -> bool, owner: OwnerId, host: HostId, team: TeamId, expected: int,
    session: SessionId, cs: seq<Command>, u: Outcome<Revision>, later: Rows)
    requires Sound(s) && u == ReserveStart(s, owner, host, team, expected, session) && u.Done?
    requires later == Run(u.rows, resolves, cs) && OpenRun(later, TeamKey(owner, team), session)
    ensures forall host', other, r | other != session :: ReserveStart(later, owner, host', team, r, other).Refused?
    ensures forall host', r :: Delete(later, owner, host', team, r).Refused?
    ensures ActiveOwner(later, owner) ==> ReserveStart(later, owner, host, team, expected, session) == Done(later, u.view)
  {
    ReservationPins(s, owner, host, team, expected, session);
    RunExtends(u.rows, resolves, cs);
    assert StartGrew(u.rows.starts[StartKey(owner, session)], later.starts[StartKey(owner, session)]);
    OpenRunExcludes(later, owner, host, team, expected, session);
  }

  /** Closing ends exactly this run: the team is free when it was its active one, nothing else of any team or start
      changes, and closing again changes at most the recorded terminal status. */
  lemma ClosingFreesTheTeam(
    s: Rows, owner: OwnerId, host: HostId, team: TeamId, session: SessionId, terminal: Option<Terminal>, again: Option<Terminal>)
    requires Sound(s) && ConfirmClosed(s, owner, host, team, session, terminal).Done?
    ensures var (u, k, started) := (ConfirmClosed(s, owner, host, team, session, terminal).rows, TeamKey(owner, team), StartKey(owner, session));
            && !OpenRun(u, k, session) && u.teams[k].active != Some(session)
            && (s.teams[k].active == Some(session) ==> u.teams[k] == s.teams[k].(active := None))
            && (s.teams[k].active != Some(session) ==> u.teams == s.teams)
            && (forall j | j in s.teams && j != k :: j in u.teams && u.teams[j] == s.teams[j])
            && u.starts == s.starts[started := s.starts[started].(closed := true, terminal := u.starts[started].terminal)]
            && u.starts[started].terminal == (if terminal.Some? then terminal else s.starts[started].terminal)
            && u.revisions == s.revisions
            && (ConfirmClosed(u, owner, host, team, session, again).Done? ==>
                  ConfirmClosed(u, owner, host, team, session, again).rows
                  == u.(starts := u.starts[started := u.starts[started].(terminal := if again.Some? then again else u.starts[started].terminal)]))
  {
    var (u, k, started) := (ConfirmClosed(s, owner, host, team, session, terminal).rows, TeamKey(owner, team), StartKey(owner, session));
    assert TeamSound(s, k);
    assert u.teams[k := u.teams[k]] == u.teams;
  }

  /** A closed run never starts again. */
  lemma ClosedRunsStayClosed(
    s: Rows, resolves: (Configuration, Selection) -> bool, started: StartKey, cs: seq<Command>, host: HostId, team: TeamId, expected: int)
    requires Sound(s) && started in s.starts && s.starts[started].closed
    ensures var later := Run(s, resolves, cs);
            && started in later.starts && later.starts[started].closed && later.starts[started].selection == s.starts[started].selection
            && ReserveStart(later, started.owner, host, team, expected, started.session).Refused?
  {
    RunExtends(s, resolves, cs);
    assert StartGrew(s.starts[started], Run(s, resolves, cs).starts[started]);
  }

  /** A deleted team stays deleted: no save and no start is accepted, and it has no open run. */
  lemma DeletedTeamsStayDeleted(
    s: Rows, resolves: (Configuration, Selection) -> bool, k: TeamKey, cs: seq<Command>, host: HostId, expected: int,
    configuration: Configuration, session: SessionId)
    requires Sound(s) && k in s.teams && s.teams[k].deleted
    ensures var later := Run(s, resolves, cs);
            && k in later.teams && later.teams[k].deleted
            && Save(later, k.owner, host, k.team, expected, configuration).Refused?
            && ReserveStart(later, k.owner, host, k.team, expected, session).Refused?
            && !OpenRun(later, k, session)
  {
    RunExtends(s, resolves, cs);
    assert TeamSound(Run(s, resolves, cs), k);
  }

  /** The first accepted selection wins: it is what every later snapshot of the run shows, and it was accepted against
      the revision the run pins. */
  lemma FirstSelectionWins(
    s: Rows, resolves: (Configuration, Selection) -> bool, owner: OwnerId, host: HostId, team: TeamId, session: SessionId,
    selection: Selection, cs: seq<Command>, host': HostId, other: Option<Selection>)
    requires Sound(s) && StartSnapshot(s, resolves, owner, host, team, session, Some(selection)).Done?
    ensures var u := StartSnapshot(s, resolves, owner, host, team, session, Some(selection));
            var won := u.view.start.selection;
            var again := StartSnapshot(Run(u.rows, resolves, cs), resolves, owner, host', team, session, other);
            && won == (if s.starts[StartKey(owner, session)].selection.Some? then s.starts[StartKey(owner, session)].selection
                       else Some(selection))
            && (again.Done? ==> again.view.start.selection == won && again.view.start.revision == u.view.start.revision)
  {
    var u := StartSnapshot(s, resolves, owner, host, team, session, Some(selection));
    SnapshotKeepsSound(s, resolves, owner, host, team, session, Some(selection));
    RunExtends(u.rows, resolves, cs);
    assert StartGrew(u.rows.starts[StartKey(owner, session)], Run(u.rows, resolves, cs).starts[StartKey(owner, session)]);
  }
}
