/** When exactly each lifecycle command is accepted, read off the rows before it, and what it then writes. */
module WorkspaceAnswers {
  import opened Core
  import opened Workspace

  predicate OwnerHas(s: Rows, owner: OwnerId, id: CompanionId) {
    id in s.companions && s.companions[id].owner == owner
  }

  /** Another active companion of the owner, and no guard. */
  predicate CanStandIn(s: Rows, owner: OwnerId, id: CompanionId, other: CompanionId) {
    && other != id && other in s.companions && s.companions[other].owner == owner
    && s.companions[other].state == Active && s.companions[other].kind != Guard
  }

  /** The companion in its next state, one revision on. */
  function Advanced(c: Companion, to: Lifecycle): Companion {
    c.(state := to, revision := c.revision + 1)
  }

  /** The owners with this one's default set to something else, one revision on. */
  function Pointed(s: Rows, owner: OwnerId, default: Option<CompanionId>): map<OwnerId, Owner>
    requires owner in s.owners
  {
    s.owners[owner := Owner(s.owners[owner].active, default, s.owners[owner].revision + 1)]
  }

  /** Retirement of an active companion is accepted exactly at the revision expected, if any is, and of the default exactly
      with a stand-in; of a retiring one it is accepted without effect. */
  lemma RetirementAcceptedExactlyWhen(
    s: Rows, owner: OwnerId, id: CompanionId, expected: Option<int>, replacement: Option<CompanionId>)
    requires owner in s.owners
    ensures var outcome := BeginRetirement(s, owner, id, expected, replacement);
            var default := s.owners[owner].default == Some(id);
            && (outcome.Done? <==>
                  OwnerHas(s, owner, id)
                  && (s.companions[id].state == Retiring
                      || (&& s.companions[id].state == Active && (expected.None? || expected.value == s.companions[id].revision)
                          && (default ==> replacement.Some? && CanStandIn(s, owner, id, replacement.value)))))
            && (outcome.Done? && s.companions[id].state == Retiring ==> outcome.rows == s)
            && (outcome.Done? && s.companions[id].state == Active ==>
                  outcome.rows == Rows(if default then Pointed(s, owner, replacement) else s.owners,
                                       s.companions[id := Advanced(s.companions[id], Retiring)]))
  {
    if replacement.Some? && CanStandIn(s, owner, id, replacement.value) { assert Eligible(s, owner, id, replacement.value); }
  }

  /** Why the retirement of an owner's default at the right revision is refused: nobody could stand in, nobody was named, or
      the one named cannot. */
  lemma DefaultNotReplaced(s: Rows, owner: OwnerId, id: CompanionId, expected: Option<int>, replacement: Option<CompanionId>)
    requires owner in s.owners && OwnerHas(s, owner, id) && s.companions[id].state == Active && s.owners[owner].default == Some(id)
    requires expected.None? || expected.value == s.companions[id].revision
    ensures var outcome := BeginRetirement(s, owner, id, expected, replacement);
            && (outcome == Refused(LastActiveCompanion) <==> forall other :: !CanStandIn(s, owner, id, other))
            && (outcome == Refused(ReplacementRequired) <==> (exists other :: CanStandIn(s, owner, id, other)) && replacement.None?)
            && (outcome == Refused(ReplacementIneligible) <==>
                  (exists other :: CanStandIn(s, owner, id, other)) && replacement.Some? && !CanStandIn(s, owner, id, replacement.value))
  {
    forall other ensures CanStandIn(s, owner, id, other) <==> other in s.companions && Eligible(s, owner, id, other) {}
  }

  /** Archiving is accepted exactly from retiring, at the revision expected if any is, and of an archived one without effect. */
  lemma ArchivingAcceptedExactlyWhen(s: Rows, owner: OwnerId, id: CompanionId, expected: Option<int>)
    requires Sound(s)
    ensures var outcome := ArchiveCompanion(s, owner, id, expected);
            && (outcome.Done? <==>
                  OwnerHas(s, owner, id)
                  && (s.companions[id].state == Archived
                      || (s.companions[id].state == Retiring && (expected.None? || expected.value == s.companions[id].revision))))
            && (outcome.Done? ==>
                  outcome.rows == if s.companions[id].state == Archived then s
                                  else s.(companions := s.companions[id := Advanced(s.companions[id], Archived)]))
  {
    if owner in s.owners { assert DefaultSound(s, owner); }
  }

  /** Putting away is accepted exactly for an archived or a retiring companion, and for an active one as its retirement is. */
  lemma PuttingAwayAcceptedExactlyWhen(
    s: Rows, owner: OwnerId, id: CompanionId, expected: Option<int>, replacement: Option<CompanionId>)
    requires Sound(s) && owner in s.owners
    ensures var outcome := PutAway(s, owner, id, expected, replacement);
            && (outcome.Done? <==>
                  OwnerHas(s, owner, id)
                  && (s.companions[id].state == Active ==>
                        && (expected.None? || expected.value == s.companions[id].revision)
                        && (s.owners[owner].default == Some(id) ==> replacement.Some? && CanStandIn(s, owner, id, replacement.value))))
            && (outcome.Done? && s.companions[id].state == Active ==>
                  outcome.rows == Rows(if s.owners[owner].default == Some(id) then Pointed(s, owner, replacement) else s.owners,
                                       s.companions[id := Advanced(Advanced(s.companions[id], Retiring), Archived)]))
  {
    assert DefaultSound(s, owner);
    if replacement.Some? && CanStandIn(s, owner, id, replacement.value) { assert Eligible(s, owner, id, replacement.value); }
  }

  /** A companion is restored exactly from archived, at the revision expected if any is, and an active one without effect. */
  lemma RestoringAcceptedExactlyWhen(s: Rows, owner: OwnerId, id: CompanionId, expected: Option<int>)
    ensures var outcome := Restore(s, owner, id, expected);
            && (outcome.Done? <==>
                  OwnerHas(s, owner, id)
                  && (s.companions[id].state == Active
                      || (s.companions[id].state == Archived && (expected.None? || expected.value == s.companions[id].revision))))
            && (outcome.Done? ==>
                  outcome.rows == if s.companions[id].state == Active then s
                                  else s.(companions := s.companions[id := Advanced(s.companions[id], Active)]))
  {
  }

  /** The default is set exactly to an active companion that is no guard, at the owner revision expected unless it is the
      default already. */
  lemma DefaultAcceptedExactlyWhen(s: Rows, owner: OwnerId, id: CompanionId, expected: Option<int>)
    ensures var outcome := SetDefault(s, owner, id, expected);
            && (outcome.Done? <==>
                  && OwnerHas(s, owner, id) && s.companions[id].state == Active && s.companions[id].kind != Guard && owner in s.owners
                  && (s.owners[owner].default == Some(id) || expected.None? || expected.value == s.owners[owner].revision))
            && (outcome.Done? ==>
                  outcome.rows == if s.owners[owner].default == Some(id) then s else s.(owners := Pointed(s, owner, Some(id))))
  {
  }

  /** A companion is provisioned exactly under a new id for an active owner, active at revision 1; it becomes the default
      exactly when there is none and it is no guard. */
  lemma ProvisioningAcceptedExactlyWhen(s: Rows, owner: OwnerId, id: CompanionId, kind: Kind)
    ensures var outcome := Provision(s, owner, id, kind);
            && (outcome.Done? <==> owner in s.owners && s.owners[owner].active && id !in s.companions)
            && (outcome.Done? ==>
                  outcome.rows == Rows(if s.owners[owner].default.None? && kind != Guard then Pointed(s, owner, Some(id)) else s.owners,
                                       s.companions[id := Companion(owner, kind, Active, 1)]))
  {
  }

  /** An owner is created exactly under a new id, active, with no default. */
  lemma OwnerCreationAcceptedExactlyWhen(s: Rows, owner: OwnerId)
    ensures var outcome := CreateOwner(s, owner);
            && (outcome.Done? <==> owner !in s.owners)
            && (outcome.Done? ==> outcome.rows == Rows(s.owners[owner := Owner(true, None, 1)], s.companions))
  {
  }

  /** Archiving an active owner archives exactly its active companions and leaves no default; an archived one stays as it is. */
  lemma OwnerArchivingMeans(s: Rows, owner: OwnerId)
    ensures var outcome := ArchiveOwner(s, owner);
            && (outcome.Done? <==> owner in s.owners)
            && (outcome.Done? && !s.owners[owner].active ==> outcome.rows == s)
            && (outcome.Done? && s.owners[owner].active ==>
                  && outcome.rows.owners == s.owners[owner := Owner(false, None, s.owners[owner].revision + 1)]
                  && (forall id :: id in outcome.rows.companions <==> id in s.companions)
                  && (forall id | id in s.companions ::
                        outcome.rows.companions[id] ==
                        if s.companions[id].owner == owner && s.companions[id].state == Active then Advanced(s.companions[id], Archived)
                        else s.companions[id]))
  {
  }

  /** A companion is deleted exactly when owned, and the default exactly when that is forced, which leaves none. */
  lemma DeletionAcceptedExactlyWhen(s: Rows, owner: OwnerId, id: CompanionId, allowDefault: bool)
    ensures var outcome := DeleteCompanion(s, owner, id, allowDefault);
            var default := owner in s.owners && s.owners[owner].default == Some(id);
            && (outcome.Done? <==> OwnerHas(s, owner, id) && (default ==> allowDefault))
            && (outcome.Done? ==>
                  outcome.rows == Rows(if default then Pointed(s, owner, None) else s.owners, s.companions - {id}))
  {
  }
}
