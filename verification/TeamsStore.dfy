/** The team service over its tables: guarded updates that change nothing unless their row matches. */
module TeamsStore {
  import opened Core
  import T = Teams

  class Store {
    var owners: map<T.OwnerId, bool>
    var companions: map<T.CompanionId, T.Member>
    var teams: map<T.TeamKey, T.Team>
    var revisions: map<T.RevisionKey, T.Configuration>
    var starts: map<T.StartKey, T.Start>

    function Rows(): T.Rows
      reads this
    {
      T.Rows(owners, companions, teams, revisions, starts)
    }

    constructor ()
      ensures Rows() == T.EMPTY
    {
      owners, companions, teams, revisions, starts := map[], map[], map[], map[], map[];
    }

    /** The members found active among the owner's companions are all of them. */
    method AllAvailable(owner: T.OwnerId, members: set<T.CompanionId>) returns (yes: bool)
      ensures yes == T.Available(Rows(), owner, members)
    {
      var available := set c | c in members && c in companions && companions[c].owner == owner && companions[c].active;
      yes := forall c | c in members :: c in available;
    }

    method Save(owner: T.OwnerId, host: T.HostId, team: T.TeamId, expected: int, configuration: T.Configuration)
      returns (answer: Result<T.Revision, T.Refusal>)
      modifies this`teams, this`revisions
      ensures var outcome := T.Save(old(Rows()), owner, host, team, expected, configuration);
              Rows() == T.After(old(Rows()), outcome) && answer == T.Answer(outcome)
    {
      if expected < 0 { return Err(T.InvalidRevision); }
      if |host| == 0 || |host| > 128 { return Err(T.InvalidHost); }
      var result := T.Revision(team, expected + 1, configuration);
      if owner !in owners || !owners[owner] { return Err(T.NotFound); }
      var k, next := T.TeamKey(owner, team), T.RevisionKey(owner, team, expected + 1);
      if k in teams {
        if teams[k].host != host || teams[k].deleted { return Err(T.RevisionConflict); }
        if next in revisions {
          if revisions[next] == configuration { return Ok(result); }
          return Err(T.RevisionConflict);
        }
      }
      var available := AllAvailable(owner, configuration.members);
      if !available { return Err(T.CompanionUnavailable); }
      if expected == 0 {
        if k in teams { return Err(T.RevisionConflict); }
        teams := teams[k := T.Team(host, None, false, 1)];
      } else {
        if k !in teams || teams[k].host != host || teams[k].deleted || teams[k].revision != expected { return Err(T.RevisionConflict); }
        teams := teams[k := teams[k].(revision := expected + 1)];
      }
      revisions := revisions[next := configuration];
      answer := Ok(result);
    }

    method Get(owner: T.OwnerId, host: T.HostId, team: T.TeamId) returns (answer: Result<T.Revision, T.Refusal>)
      ensures answer == T.Get(Rows(), owner, host, team)
    {
      if owner !in owners || !owners[owner] { return Err(T.NotFound); }
      var k := T.TeamKey(owner, team);
      if k !in teams || teams[k].host != host || teams[k].deleted { return Err(T.NotFound); }
      var current := T.RevisionKey(owner, team, teams[k].revision);
      if current !in revisions { return Err(T.NotFound); }
      answer := Ok(T.Revision(team, teams[k].revision, revisions[current]));
    }

    /** The reservation is written first; every later refusal rolls it back. */
    method ReserveStart(owner: T.OwnerId, host: T.HostId, team: T.TeamId, expected: int, session: T.SessionId)
      returns (answer: Result<T.Revision, T.Refusal>)
      modifies this`teams, this`starts
      ensures var outcome := T.ReserveStart(old(Rows()), owner, host, team, expected, session);
              Rows() == T.After(old(Rows()), outcome) && answer == T.Answer(outcome)
    {
      if owner !in owners || !owners[owner] { return Err(T.NotFound); }
      var k, started, pinned := T.TeamKey(owner, team), T.StartKey(owner, session), T.RevisionKey(owner, team, expected);
      if !T.MayStart(Rows(), k, host, expected, session) { return Err(T.BusyOrConflict); }
      var before := teams;
      teams := teams[k := teams[k].(active := Some(session))];
      if started in starts {
        var previous := starts[started];
        if previous.team != team || previous.revision != expected { teams := before; return Err(T.IdempotencyConflict); }
        if previous.closed { teams := before; return Err(T.RunAlreadyClosed); }
      }
      if pinned !in revisions { teams := before; return Err(T.RevisionConflict); }
      if started !in starts {
        starts := starts[started := T.Start(team, expected, false, None, None)];
      }
      answer := Ok(T.Revision(team, expected, revisions[pinned]));
    }

    method ConfirmClosed(owner: T.OwnerId, host: T.HostId, team: T.TeamId, session: T.SessionId, terminal: Option<T.Terminal>)
      returns (answer: Result<(), T.Refusal>)
      modifies this`teams, this`starts
      ensures var outcome := T.ConfirmClosed(old(Rows()), owner, host, team, session, terminal);
              Rows() == T.After(old(Rows()), outcome) && answer == T.Answer(outcome)
    {
      if terminal.Some? && (!terminal.value.closed || terminal.value.session != session) { return Err(T.InvalidClosureEvidence); }
      var k, started := T.TeamKey(owner, team), T.StartKey(owner, session);
      if k !in teams || teams[k].host != host { return Err(T.NotFound); }
      if started !in starts || starts[started].team != team { return Err(T.NotFound); }
      var start := starts[started].(closed := true);
      if terminal.Some? {
        start := start.(terminal := terminal);
      }
      starts := starts[started := start];
      if teams[k].active == Some(session) {
        teams := teams[k := teams[k].(active := None)];
      }
      answer := Ok(());
    }

    method Delete(owner: T.OwnerId, host: T.HostId, team: T.TeamId, expected: int) returns (answer: Result<(), T.Refusal>)
      modifies this`teams
      ensures var outcome := T.Delete(old(Rows()), owner, host, team, expected);
              Rows() == T.After(old(Rows()), outcome) && answer == T.Answer(outcome)
    {
      if owner !in owners || !owners[owner] { return Err(T.NotFound); }
      var k := T.TeamKey(owner, team);
      if k !in teams || teams[k].host != host || teams[k].revision != expected || teams[k].active.Some? { return Err(T.BusyOrConflict); }
      teams := teams[k := teams[k].(deleted := true)];
      answer := Ok(());
    }

    method StartSnapshot(
      resolves: (T.Configuration, T.Selection) -> bool, owner: T.OwnerId, host: T.HostId, team: T.TeamId, session: T.SessionId,
      selection: Option<T.Selection>) returns (answer: Result<T.Snapshot, T.Refusal>)
      modifies this`starts
      ensures var outcome := T.StartSnapshot(old(Rows()), resolves, owner, host, team, session, selection);
              Rows() == T.After(old(Rows()), outcome) && answer == T.Answer(outcome)
    {
      var k, started := T.TeamKey(owner, team), T.StartKey(owner, session);
      if k !in teams || teams[k].host != host || owner !in owners || !owners[owner] { return Err(T.NotFound); }
      if started !in starts || starts[started].team != team { return Err(T.NotFound); }
      var start := starts[started];
      if selection.Some? {
        if start.closed { return Err(T.RunAlreadyClosed); }
        if selection.value.session != session { return Err(T.IdentityMismatch); }
        var pinned := T.RevisionKey(owner, team, start.revision);
        if pinned !in revisions || !resolves(revisions[pinned], selection.value) { return Err(T.ConfigurationMismatch); }
        if start.selection.None? {
          start := start.(selection := selection);
        }
        starts := starts[started := start];
      }
      answer := Ok(T.Snapshot(team, session, start));
    }
  }
}
