/** The lifecycle and default-pointer commands over the owner and companion rows. */
module WorkspaceStore {
  import opened Core
  import W = Workspace

  class Store {
    var owners: map<W.OwnerId, W.Owner>
    var companions: map<W.CompanionId, W.Companion>

    function Rows(): W.Rows
      reads this
    {
      W.Rows(owners, companions)
    }

    constructor ()
      ensures Rows() == W.EMPTY && W.Sound(Rows())
    {
      owners, companions := map[], map[];
    }

    method Move(id: W.CompanionId, to: W.Lifecycle)
      requires id in companions
      modifies this`companions
      ensures Rows() == W.Moved(old(Rows()), id, to)
    {
      var c := companions[id].(state := to);
      c := c.(revision := c.revision + 1);
      companions := companions[id := c];
    }

    method PointDefault(owner: W.OwnerId, default: Option<W.CompanionId>)
      requires owner in owners
      modifies this`owners
      ensures Rows() == W.WithDefault(old(Rows()), owner, default)
    {
      var row := owners[owner].(default := default);
      row := row.(revision := row.revision + 1);
      owners := owners[owner := row];
    }

    /** _eligible_replacement: nobody else, nobody named, or the named one if it is among the others. */
    method EligibleReplacement(owner: W.OwnerId, retiring: W.CompanionId, named: Option<W.CompanionId>)
      returns (answer: Result<W.CompanionId, W.Refusal>)
      ensures var refusal := W.ReplacementRefusal(Rows(), owner, retiring, named);
              answer == if refusal.Some? then Err(refusal.value) else Ok(named.value)
    {
      var others := set id | id in companions && W.Eligible(Rows(), owner, retiring, id);
      assert others == {} <==> !W.AnyEligible(Rows(), owner, retiring) by {
        if others != {} {
          var id :| id in others;
          assert W.Eligible(Rows(), owner, retiring, id);
        }
        assert forall id | id in companions && W.Eligible(Rows(), owner, retiring, id) :: id in others;
      }
      if others == {} { return Err(W.LastActiveCompanion); }
      if named.None? { return Err(W.ReplacementRequired); }
      var rest := others;
      while rest != {}
        invariant rest <= others && (named.value in others ==> named.value in rest)
        decreases |rest|
      {
        var candidate := AnyOf(rest);
        if candidate == named.value { return Ok(candidate); }
        rest := rest - {candidate};
      }
      answer := Err(W.ReplacementIneligible);
    }

    method Retire(owner: W.OwnerId, id: W.CompanionId, expected: Option<int>, replacement: Option<W.CompanionId>)
      returns (answer: Result<(), W.Refusal>)
      requires id in companions
      modifies this
      ensures var outcome := W.Retire(old(Rows()), owner, id, expected, replacement);
              Rows() == W.After(old(Rows()), outcome) && answer == W.Answer(outcome)
    {
      if companions[id].state == W.Retiring { return Ok(()); }
      var refusal := W.TransitionRefusal(companions[id], W.Retiring, expected);
      if refusal.Some? { return Err(refusal.value); }
      if owner !in owners { return Err(W.OwnerNotFound); }
      if owners[owner].default == Some(id) {
        var chosen := EligibleReplacement(owner, id, replacement);
        if chosen.Err? { return Err(chosen.error); }
        PointDefault(owner, Some(chosen.value));
      }
      Move(id, W.Retiring);
      answer := Ok(());
    }

    method Archive(owner: W.OwnerId, id: W.CompanionId, expected: Option<int>) returns (answer: Result<(), W.Refusal>)
      requires id in companions
      modifies this
      ensures var outcome := W.Archive(old(Rows()), owner, id, expected);
              Rows() == W.After(old(Rows()), outcome) && answer == W.Answer(outcome)
    {
      if companions[id].state == W.Archived { return Ok(()); }
      var refusal := W.TransitionRefusal(companions[id], W.Archived, expected);
      if refusal.Some? { return Err(refusal.value); }
      if owner in owners && owners[owner].default == Some(id) { return Err(W.ReplacementRequired); }
      Move(id, W.Archived);
      answer := Ok(());
    }

    method BeginRetirement(owner: W.OwnerId, id: W.CompanionId, expected: Option<int>, replacement: Option<W.CompanionId>)
      returns (answer: Result<(), W.Refusal>)
      modifies this
      ensures var outcome := W.BeginRetirement(old(Rows()), owner, id, expected, replacement);
              Rows() == W.After(old(Rows()), outcome) && answer == W.Answer(outcome)
    {
      if id !in companions || companions[id].owner != owner { return Err(W.NotFoundForOwner); }
      answer := Retire(owner, id, expected, replacement);
    }

    method ArchiveCompanion(owner: W.OwnerId, id: W.CompanionId, expected: Option<int>) returns (answer: Result<(), W.Refusal>)
      modifies this
      ensures var outcome := W.ArchiveCompanion(old(Rows()), owner, id, expected);
              Rows() == W.After(old(Rows()), outcome) && answer == W.Answer(outcome)
    {
      if id !in companions || companions[id].owner != owner { return Err(W.NotFoundForOwner); }
      answer := Archive(owner, id, expected);
    }

    /** Both halves in one transaction: a refusal of the second would roll the first back. */
    method PutAway(owner: W.OwnerId, id: W.CompanionId, expected: Option<int>, replacement: Option<W.CompanionId>)
      returns (answer: Result<(), W.Refusal>)
      modifies this
      ensures var outcome := W.PutAway(old(Rows()), owner, id, expected, replacement);
              Rows() == W.After(old(Rows()), outcome) && answer == W.Answer(outcome)
    {
      if id !in companions || companions[id].owner != owner { return Err(W.NotFoundForOwner); }
      if companions[id].state == W.Archived { return Ok(()); }
      var (owners', companions') := (owners, companions);
      answer := Retire(owner, id, expected, replacement);
      if answer.Err? { return; }
      answer := Archive(owner, id, None);
      if answer.Err? {
        owners, companions := owners', companions';
      }
    }

    method Restore(owner: W.OwnerId, id: W.CompanionId, expected: Option<int>) returns (answer: Result<(), W.Refusal>)
      modifies this
      ensures var outcome := W.Restore(old(Rows()), owner, id, expected);
              Rows() == W.After(old(Rows()), outcome) && answer == W.Answer(outcome)
    {
      if id !in companions || companions[id].owner != owner { return Err(W.NotFoundForOwner); }
      if companions[id].state == W.Active { return Ok(()); }
      var refusal := W.TransitionRefusal(companions[id], W.Active, expected);
      if refusal.Some? { return Err(refusal.value); }
      Move(id, W.Active);
      answer := Ok(());
    }

    method SetDefault(owner: W.OwnerId, id: W.CompanionId, expected: Option<int>) returns (answer: Result<(), W.Refusal>)
      modifies this
      ensures var outcome := W.SetDefault(old(Rows()), owner, id, expected);
              Rows() == W.After(old(Rows()), outcome) && answer == W.Answer(outcome)
    {
      if id !in companions || companions[id].owner != owner { return Err(W.NotFoundForOwner); }
      if companions[id].state != W.Active { return Err(W.CompanionNotActive); }
      if companions[id].kind == W.Guard { return Err(W.GuardNotDefault); }
      if owner !in owners { return Err(W.OwnerNotFound); }
      var previous := owners[owner].default;
      if expected.Some? && expected.value != owners[owner].revision && previous != Some(id) { return Err(W.RevisionStale); }
      if previous != Some(id) {
        PointDefault(owner, Some(id));
      }
      answer := Ok(());
    }

    method Provision(owner: W.OwnerId, id: W.CompanionId, kind: W.Kind) returns (answer: Result<(), W.Refusal>)
      modifies this
      ensures var outcome := W.Provision(old(Rows()), owner, id, kind);
              Rows() == W.After(old(Rows()), outcome) && answer == W.Answer(outcome)
    {
      if owner !in owners { return Err(W.OwnerNotFound); }
      if !owners[owner].active { return Err(W.OwnerNotActive); }
      if id in companions { return Err(W.IdTaken); }
      companions := companions[id := W.Companion(owner, kind, W.Active, 1)];
      if owners[owner].default.None? && kind != W.Guard {
        PointDefault(owner, Some(id));
      }
      answer := Ok(());
    }

    /** The loop over the owner's active companions. */
    method ArchiveActive(owner: W.OwnerId)
      modifies this`companions
      ensures companions == W.Archiving(old(companions), owner)
    {
      ghost var all := companions;
      var rest := set id | id in companions && companions[id].owner == owner && companions[id].state == W.Active;
      while rest != {}
        invariant companions.Keys == all.Keys && rest <= all.Keys
        invariant forall id | id in rest :: companions[id] == all[id] && all[id].owner == owner && all[id].state == W.Active
        invariant forall id | id in all && id !in rest :: companions[id] == W.PutUnder(all[id], owner)
        decreases |rest|
      {
        var id := AnyOf(rest);
        rest := rest - {id};
        Move(id, W.Archived);
      }
      ghost var expected := W.Archiving(all, owner);
      assert companions.Keys == expected.Keys;
      assert forall id | id in all :: companions[id] == expected[id];
    }

    method ArchiveOwner(owner: W.OwnerId) returns (answer: Result<(), W.Refusal>)
      modifies this
      ensures var outcome := W.ArchiveOwner(old(Rows()), owner);
              Rows() == W.After(old(Rows()), outcome) && answer == W.Answer(outcome)
    {
      if owner !in owners { return Err(W.OwnerNotFound); }
      if !owners[owner].active { return Ok(()); }
      owners := owners[owner := owners[owner].(active := false)];
      ArchiveActive(owner);
      PointDefault(owner, None);
      answer := Ok(());
    }

    method DeleteCompanion(owner: W.OwnerId, id: W.CompanionId, allowDefault: bool) returns (answer: Result<(), W.Refusal>)
      modifies this
      ensures var outcome := W.DeleteCompanion(old(Rows()), owner, id, allowDefault);
              Rows() == W.After(old(Rows()), outcome) && answer == W.Answer(outcome)
    {
      if id !in companions || companions[id].owner != owner { return Err(W.NotFoundForOwner); }
      var isDefault := owner in owners && owners[owner].default == Some(id);
      if isDefault && !allowDefault { return Err(W.StillDefault); }
      if isDefault {
        PointDefault(owner, None);
      }
      companions := companions - {id};
      answer := Ok(());
    }

    method DefaultFor(owner: W.OwnerId) returns (found: Option<W.CompanionId>)
      ensures found == W.DefaultFor(Rows(), owner)
    {
      if owner !in owners || owners[owner].default.None? { return None; }
      var id := owners[owner].default.value;
      if id !in companions || companions[id].owner != owner || companions[id].state != W.Active { return None; }
      found := Some(id);
    }
  }
}
