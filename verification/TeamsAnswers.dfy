/** When exactly each team command is accepted, read off the rows before it, and what it then writes. */
module TeamsAnswers {
  import opened Core
  import opened Teams
  import opened TeamsRuns

  /** A new session reserves a team exactly when the owner is active and the team idle, on that host, not deleted, and at the
      revision expected; the open run reserves it again exactly for the revision it pins; nothing else does. */
  lemma ReservationAcceptedExactlyWhen(s: Rows, owner: OwnerId, host: HostId, team: TeamId, expected: int, session: SessionId)
    requires Sound(s)
    ensures var (k, started) := (TeamKey(owner, team), StartKey(owner, session));
            var accepted := ReserveStart(s, owner, host, team, expected, session).Done?;
            var reachable := owner in s.owners && s.owners[owner] && k in s.teams && s.teams[k].host == host;
            && (started !in s.starts ==>
                  (accepted <==> reachable && !s.teams[k].deleted && s.teams[k].active.None? && s.teams[k].revision == expected))
            && (OpenRun(s, k, session) ==> (accepted <==> reachable && s.starts[started].revision == expected))
            && (started in s.starts && !OpenRun(s, k, session) ==> !accepted)
            && (!accepted ==> After(s, ReserveStart(s, owner, host, team, expected, session)) == s)
  {
    var (k, started) := (TeamKey(owner, team), StartKey(owner, session));
    if k in s.teams { assert TeamSound(s, k); }
    if started in s.starts { assert StartSound(s, started); }
  }

  /** It writes the session into the team and at most one new start, open and without a selection. */
  lemma ReservationWrites(s: Rows, owner: OwnerId, host: HostId, team: TeamId, expected: int, session: SessionId)
    requires Sound(s) && ReserveStart(s, owner, host, team, expected, session).Done?
    ensures var (u, k, started) := (ReserveStart(s, owner, host, team, expected, session).rows, TeamKey(owner, team), StartKey(owner, session));
            && u.teams == s.teams[k := s.teams[k].(active := Some(session))]
            && u.revisions == s.revisions && u.owners == s.owners && u.companions == s.companions
            && (if started in s.starts then u.starts == s.starts
                else u.starts == s.starts[started := Start(team, expected, false, None, None)])
  {
  }

  /** A team can be saved by this owner on this host: it is not there yet, or there, on the host and not deleted. */
  predicate Savable(s: Rows, owner: OwnerId, host: HostId, team: TeamId) {
    && 1 <= |host| <= 128 && owner in s.owners && s.owners[owner]
    && var k := TeamKey(owner, team);
       k in s.teams ==> s.teams[k].host == host && !s.teams[k].deleted
  }

  predicate AllActive(s: Rows, owner: OwnerId, members: set<CompanionId>) {
    forall c | c in members :: c in s.companions && s.companions[c].owner == owner && s.companions[c].active
  }

  /** A save is accepted exactly when it names the revision before the next one and all members can take part, or it repeats
      the content saved as that next revision. */
  lemma SaveAcceptedExactlyWhen(s: Rows, owner: OwnerId, host: HostId, team: TeamId, expected: int, configuration: Configuration)
    requires Sound(s)
    ensures var k := TeamKey(owner, team);
            var present := if k in s.teams then s.teams[k].revision else 0;
            var next := RevisionKey(owner, team, expected + 1);
            Save(s, owner, host, team, expected, configuration).Done? <==>
              && Savable(s, owner, host, team)
              && ((expected == present && AllActive(s, owner, configuration.members))
                  || (0 <= expected < present && s.revisions[next] == configuration))
  {
    var k := TeamKey(owner, team);
    if k in s.teams { assert TeamSound(s, k); } else { NewTeamHasNoRuns(s, k); }
  }

  /** The team is read exactly when it is there; the answer is what was saved last. */
  lemma GetAnswersTheLastSave(s: Rows, owner: OwnerId, host: HostId, team: TeamId)
    requires Sound(s)
    ensures var k := TeamKey(owner, team);
            Get(s, owner, host, team).Ok? <==>
              owner in s.owners && s.owners[owner] && k in s.teams && s.teams[k].host == host && !s.teams[k].deleted
    ensures Get(s, owner, host, team).Ok? ==>
              var current := s.teams[TeamKey(owner, team)].revision;
              && RevisionKey(owner, team, current) in s.revisions && RevisionKey(owner, team, current + 1) !in s.revisions
              && Get(s, owner, host, team).value == Revision(team, current, s.revisions[RevisionKey(owner, team, current)])
  {
    var k := TeamKey(owner, team);
    if k in s.teams { assert TeamSound(s, k); }
  }

  /** Closing is accepted exactly for a start of that team on that host, with evidence of its own closing or none. */
  lemma ClosingAcceptedExactlyWhen(
    s: Rows, owner: OwnerId, host: HostId, team: TeamId, session: SessionId, terminal: Option<Terminal>)
    requires Sound(s)
    ensures var (k, started) := (TeamKey(owner, team), StartKey(owner, session));
            ConfirmClosed(s, owner, host, team, session, terminal).Done? <==>
              && (terminal.Some? ==> terminal.value.closed && terminal.value.session == session)
              && started in s.starts && s.starts[started].team == team && s.teams[k].host == host
  {
    var started := StartKey(owner, session);
    if started in s.starts { assert StartSound(s, started); }
  }

  /** Deleting is accepted exactly for a team without an open run at the revision expected, and only marks it. */
  lemma DeletionAcceptedExactlyWhen(s: Rows, owner: OwnerId, host: HostId, team: TeamId, expected: int)
    requires Sound(s)
    ensures var k := TeamKey(owner, team);
            Delete(s, owner, host, team, expected).Done? <==>
              && owner in s.owners && s.owners[owner] && k in s.teams && s.teams[k].host == host
              && s.teams[k].revision == expected && forall session :: !OpenRun(s, k, session)
    ensures var (k, u) := (TeamKey(owner, team), Delete(s, owner, host, team, expected));
            u.Done? ==> u.rows == s.(teams := s.teams[k := s.teams[k].(deleted := true)])
  {
    var k := TeamKey(owner, team);
    if k in s.teams {
      assert TeamSound(s, k);
      if s.teams[k].active.Some? { assert OpenRun(s, k, s.teams[k].active.value); }
    }
  }

  /** A snapshot is read exactly for a start of the team; a selection is taken exactly for an open run, naming its session,
      when the pinned configuration resolves to it. Either way only this start's first selection is written. */
  lemma SnapshotAcceptedExactlyWhen(
    s: Rows, resolves: (Configuration, Selection) -> bool, owner: OwnerId, host: HostId, team: TeamId, session: SessionId,
    selection: Option<Selection>)
    requires Sound(s)
    ensures var (started, outcome) := (StartKey(owner, session), StartSnapshot(s, resolves, owner, host, team, session, selection));
            && (outcome.Done? <==>
                  && owner in s.owners && s.owners[owner] && started in s.starts && s.starts[started].team == team
                  && s.teams[TeamKey(owner, team)].host == host
                  && (selection.Some? ==>
                        && !s.starts[started].closed && selection.value.session == session
                        && resolves(s.revisions[RevisionKey(owner, team, s.starts[started].revision)], selection.value)))
            && (outcome.Done? ==>
                  var first := s.starts[started].selection;
                  outcome.rows == s.(starts := s.starts[started := s.starts[started].(selection := if first.Some? then first else selection)])
                  && outcome.view == Snapshot(team, session, outcome.rows.starts[started]))
  {
    var started := StartKey(owner, session);
    if started in s.starts {
      assert StartSound(s, started);
      assert s.starts[started := s.starts[started]] == s.starts;
    }
  }
}
