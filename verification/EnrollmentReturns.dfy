/** When an enrollment opened earlier gives a person a voice again after the person's profile was deleted. */
module EnrollmentReturns {
  import opened Core
  import opened Enrollment
  import opened EnrollmentRuns

  /** What a caller sees of an open enrollment before completing it: nothing stands in its way but the profile. */
  ghost predicate CouldComplete(s: Rows, owner: OwnerId, e: Enrollment, evaluation: Evaluation, now: real) {
    && IsCollecting(e, now) && SpeakerRefusal(s, owner, e.person).None?
    && |e.samples| == 3 && e.samples == evaluation.evidence
    && CompatibleWithAll(e.samples, evaluation.template) && CompatibleWithAll(e.samples, evaluation.trial)
  }

  lemma DeletionLeavesNoVoice(s: Rows, owner: OwnerId, p: ProfileId, person: PersonId)
    requires Sound(s) && p in s.profiles && DeleteProfile(s, owner, p).Done? && s.profiles[p].person == person
    ensures CurrentVoice(DeleteProfile(s, owner, p).rows, owner, person).None?
  {
    var u := DeleteProfile(s, owner, p).rows;
    forall q ensures !IsVoiceOf(u, owner, person, q) {
      if q in s.profiles && q != p { assert !(s.profiles[q].owner == owner && s.profiles[q].person == person); }
    }
  }

  lemma DeletionLeavesItsProfileUnwritten(s: Rows, owner: OwnerId, p: ProfileId, id: EnrollmentId, u: Rows)
    requires Sound(s) && p in s.profiles && DeleteProfile(s, owner, p) == Done(u, ())
    requires id in s.enrollments && id.owner == owner && s.enrollments[id].person == s.profiles[p].person
    ensures s.enrollments[id].profile !in u.profiles
  {
    assert EnrollmentSound(s, id);
    DeletionLeavesNoVoice(s, owner, p, s.enrollments[id].person);
    assert !IsVoiceOf(u, owner, s.enrollments[id].person, s.enrollments[id].profile);
  }

  /** For a person without a voice nothing but the target decides beyond what the caller sees. */
  lemma VoicelessCompletesExactlyWhen(
    u: Rows, owner: OwnerId, id: EnrollmentId, recording: Option<Recording>, evaluation: Evaluation, now: real, e: Enrollment)
    requires owner in u.activeOwners && id in u.enrollments && id.owner == owner && u.enrollments[id] == e
    requires CurrentVoice(u, owner, e.person).None? && e.profile !in u.profiles && RecordingRefusal(recording, evaluation).None?
    ensures Completes(u, owner, id, recording, evaluation, now) <==> e.target == 0 && CouldComplete(u, owner, e, evaluation, now)
  {
    assert RevisionOf(u, e.profile) == 0;
  }

  /** After the deletion of a person's profile p an enrollment of that person completes exactly when it was opened for
      another profile id before the person had any voice, and is otherwise ready to complete. */
  lemma CompletesAfterDeletionExactlyWhen(
    s: Rows, owner: OwnerId, p: ProfileId, id: EnrollmentId, recording: Option<Recording>, evaluation: Evaluation, now: real)
    requires Sound(s) && p in s.profiles && DeleteProfile(s, owner, p).Done? && RecordingRefusal(recording, evaluation).None?
    requires id in s.enrollments && id.owner == owner && s.enrollments[id].person == s.profiles[p].person
    ensures var e := s.enrollments[id];
            Completes(DeleteProfile(s, owner, p).rows, owner, id, recording, evaluation, now)
            <==> e.profile != p && e.target == 0 && CouldComplete(s, owner, e, evaluation, now)
  {
    var (u, e) := (DeleteProfile(s, owner, p).rows, s.enrollments[id]);
    DeletionLeavesOtherProfiles(s, owner, p, id);
    if e.profile != p {
      DeletionLeavesNoVoice(s, owner, p, e.person);
      DeletionLeavesItsProfileUnwritten(s, owner, p, id, u);
      VoicelessCompletesExactlyWhen(u, owner, id, recording, evaluation, now, e);
      assert SpeakerRefusal(u, owner, e.person) == SpeakerRefusal(s, owner, e.person);
    }
  }

  // ----- Whenever it completes --------------------------------------------------

  /** An enrollment opened against a revision that exists keeps its profile's row in existence. */
  ghost predicate Targeted(s: Rows) {
    forall k | k in s.enrollments && s.enrollments[k].target > 0 :: s.enrollments[k].profile in s.profiles
  }

  lemma CompleteKeepsTargeted(
    s: Rows, owner: OwnerId, id: EnrollmentId, recording: Option<Recording>, evaluation: Evaluation, now: real)
    requires Targeted(s)
    ensures Targeted(After(s, Complete(s, owner, id, recording, evaluation, now)))
  {
    CompleteEffect(s, owner, id, recording, evaluation, now);
  }

  lemma RemovalKeepsTargeted(s: Rows, c: Command)
    requires Sound(s) && Targeted(s) && (c.CmdForget? || c.CmdDelete?)
    ensures Targeted(Step(s, c))
  {
    var u := Step(s, c);
    forall k | k in u.enrollments && u.enrollments[k].target > 0 ensures u.enrollments[k].profile in u.profiles {
      assert EnrollmentSound(s, k);
    }
  }

  lemma CreateKeepsTargeted(s: Rows, owner: OwnerId, request: Request, generated: ProfileId, now: real)
    requires Targeted(s)
    ensures Targeted(After(s, CreateEnrollment(s, owner, request, generated, now)))
  {
  }

  lemma ExpireKeepsTargeted(s: Rows, now: real)
    requires Targeted(s)
    ensures Targeted(ExpireAll(s, now))
  {
  }

  lemma DiscoverKeepsTargeted(s: Rows, owner: OwnerId, person: PersonId, generated: ProfileId, sample: Sample)
    requires Targeted(s)
    ensures Targeted(After(s, DiscoverVoice(s, owner, person, generated, sample)))
  {
  }

  lemma WritesKeepTargeted(s: Rows, c: Command)
    requires Targeted(s) && (c.CmdView? || c.CmdCancel? || c.CmdSample? || c.CmdWorld?)
    ensures Targeted(Step(s, c))
  {
  }

  lemma StepKeepsTargeted(s: Rows, c: Command)
    requires Sound(s) && Targeted(s)
    ensures Targeted(Step(s, c))
  {
    match c
    case CmdComplete(owner, id, recording, evaluation, now) => CompleteKeepsTargeted(s, owner, id, recording, evaluation, now);
    case CmdForget(person) => RemovalKeepsTargeted(s, c);
    case CmdDelete(owner, profile) => RemovalKeepsTargeted(s, c);
    case CmdCreate(owner, request, generated, now) => CreateKeepsTargeted(s, owner, request, generated, now);
    case CmdExpire(now) => ExpireKeepsTargeted(s, now);
    case CmdDiscover(owner, person, generated, sample) => DiscoverKeepsTargeted(s, owner, person, generated, sample);
    case _ => WritesKeepTargeted(s, c);
  }

  lemma {:induction false} RunKeepsTargeted(s: Rows, cs: seq<Command>)
    requires Sound(s) && Targeted(s)
    ensures Targeted(Run(s, cs))
    decreases |cs|
  {
    if cs != [] {
      StepKeepsSound(s, cs[0]);
      StepKeepsTargeted(s, cs[0]);
      RunKeepsTargeted(Step(s, cs[0]), cs[1..]);
    }
  }

  /** The enrollment is still for profile q and not collecting, or q and all its enrollments are gone. */
  ghost predicate Closed(s: Rows, id: EnrollmentId, q: ProfileId) {
    (id in s.enrollments && s.enrollments[id].profile == q && s.enrollments[id].state != Collecting) || Gone(s, q)
  }

  lemma CompleteKeepsClosed(
    s: Rows, owner: OwnerId, done: EnrollmentId, recording: Option<Recording>, evaluation: Evaluation, now: real,
    id: EnrollmentId, q: ProfileId)
    requires Closed(s, id, q)
    ensures Closed(After(s, Complete(s, owner, done, recording, evaluation, now)), id, q)
  {
    CompleteEffect(s, owner, done, recording, evaluation, now);
    if Gone(s, q) { CompleteKeepsGone(s, owner, done, recording, evaluation, now, q); }
  }

  lemma RemovalKeepsClosed(s: Rows, c: Command, id: EnrollmentId, q: ProfileId)
    requires Sound(s) && Closed(s, id, q) && (c.CmdForget? || c.CmdDelete?)
    ensures Closed(Step(s, c), id, q)
  {
    if Gone(s, q) { StepKeepsGone(s, c, q); } else { assert EnrollmentSound(s, id); }
  }

  lemma WritesKeepClosed(s: Rows, c: Command, id: EnrollmentId, q: ProfileId)
    requires id in s.enrollments && s.enrollments[id].profile == q && s.enrollments[id].state != Collecting
    requires !c.CmdComplete? && !c.CmdForget? && !c.CmdDelete?
    ensures Closed(Step(s, c), id, q)
  {
  }

  lemma StepKeepsClosed(s: Rows, c: Command, id: EnrollmentId, q: ProfileId)
    requires Sound(s) && Closed(s, id, q)
    ensures Closed(Step(s, c), id, q)
  {
    if c.CmdForget? || c.CmdDelete? {
      RemovalKeepsClosed(s, c, id, q);
    } else if c.CmdComplete? {
      CompleteKeepsClosed(s, c.owner, c.id, c.recording, c.evaluation, c.now, id, q);
    } else if Gone(s, q) {
      StepKeepsGone(s, c, q);
    } else {
      WritesKeepClosed(s, c, id, q);
    }
  }

  /** What has stopped collecting never collects again. */
  lemma {:induction false} ClosedStaysClosed(s: Rows, cs: seq<Command>, id: EnrollmentId, q: ProfileId)
    requires Sound(s) && Closed(s, id, q)
    ensures Closed(Run(s, cs), id, q)
    decreases |cs|
  {
    if cs != [] {
      StepKeepsSound(s, cs[0]);
      StepKeepsClosed(s, cs[0], id, q);
      ClosedStaysClosed(Step(s, cs[0]), cs[1..], id, q);
    }
  }

  lemma OnlyVoiceOfItsPerson(s: Rows, owner: OwnerId, p: ProfileId, id: EnrollmentId)
    requires Sound(s) && Targeted(s) && p in s.profiles && s.profiles[p].owner == owner
    requires id in s.enrollments && id.owner == owner && s.enrollments[id].person == s.profiles[p].person && s.enrollments[id].profile != p
    ensures s.enrollments[id].profile !in s.profiles && s.enrollments[id].target == 0
  {
    assert EnrollmentSound(s, id);
  }

  lemma DeletedProfileIsGone(s: Rows, owner: OwnerId, p: ProfileId)
    requires Sound(s) && p in s.profiles && DeleteProfile(s, owner, p).Done?
    ensures Gone(DeleteProfile(s, owner, p).rows, p) && Sound(DeleteProfile(s, owner, p).rows)
  {
    StepKeepsSound(s, CmdDelete(owner, p));
  }

  lemma ClosedCompletesNoMore(
    s: Rows, owner: OwnerId, id: EnrollmentId, recording: Option<Recording>, evaluation: Evaluation, now: real, q: ProfileId)
    requires Closed(s, id, q) && id in s.enrollments && s.enrollments[id].profile == q
    ensures !Completes(s, owner, id, recording, evaluation, now)
  {
  }

  lemma OpenAtTheDeletion(
    s: Rows, owner: OwnerId, p: ProfileId, u: Rows, cs: seq<Command>, id: EnrollmentId, caller: OwnerId,
    recording: Option<Recording>, evaluation: Evaluation, now: real)
    requires Sound(s) && p in s.profiles && DeleteProfile(s, owner, p) == Done(u, ()) && id in s.enrollments
    requires Completes(Run(u, cs), caller, id, recording, evaluation, now)
    requires Run(u, cs).enrollments[id].profile == s.enrollments[id].profile
    ensures s.enrollments[id].state == Collecting && s.enrollments[id].profile != p
  {
    var q := s.enrollments[id].profile;
    DeletedProfileIsGone(s, owner, p);
    if Closed(u, id, q) {
      ClosedStaysClosed(u, cs, id, q);
      ClosedCompletesNoMore(Run(u, cs), caller, id, recording, evaluation, now, q);
    }
  }

  /** However much later, after any run, an enrollment that existed at the deletion of the person's profile completes only
      if at the deletion it was collecting, for another profile id, from before the person had any voice. */
  lemma LaterCompletionsWereOpen(
    before: seq<Command>, owner: OwnerId, p: ProfileId, u: Rows, cs: seq<Command>, id: EnrollmentId, caller: OwnerId,
    recording: Option<Recording>, evaluation: Evaluation, now: real)
    requires var s := Run(EMPTY, before);
             && p in s.profiles && DeleteProfile(s, owner, p) == Done(u, ())
             && id in s.enrollments && id.owner == owner && s.enrollments[id].person == s.profiles[p].person
             && Completes(Run(u, cs), caller, id, recording, evaluation, now)
             && Run(u, cs).enrollments[id].profile == s.enrollments[id].profile
    ensures var e := Run(EMPTY, before).enrollments[id];
            e.state == Collecting && e.profile != p && e.target == 0
  {
    var s := Run(EMPTY, before);
    RunKeepsSound(EMPTY, before);
    RunKeepsTargeted(EMPTY, before);
    OpenAtTheDeletion(s, owner, p, u, cs, id, caller, recording, evaluation, now);
    OnlyVoiceOfItsPerson(s, owner, p, id);
  }

  // ----- It happens -------------------------------------------------------------

  const SAMPLE := Sample(Identity(1, 1, 1, 2), 5)
  const THREE := map[1 := SAMPLE, 2 := SAMPLE, 3 := SAMPLE]
  const EVALUATION := Evaluation(SAMPLE, SAMPLE, THREE, 9)
  const RECORDING := Some(Recording(48000, 9))
  const FIRST := EnrollmentId(1, 100)
  const SECOND := EnrollmentId(1, 200)

  function Opening(operation: Tag): Request {
    Request(operation, 7, None, 0)
  }

  function Opened(operation: Tag, profile: ProfileId, samples: map<SampleId, Sample>): Enrollment {
    Enrollment(7, profile, Opening(operation), 0, samples, Collecting, 1800.0, None)
  }

  /** Person 7 without a voice, and what is open for it. */
  function Voiceless(enrollments: map<EnrollmentId, Enrollment>, issued: set<ProfileId>): Rows {
    Rows({1}, map[7 := Speaker(1, true)], map[], map[], enrollments, issued)
  }

  function Creations(): seq<Command> {
    [CmdWorld({1}, map[7 := Speaker(1, true)]), CmdCreate(1, Opening(100), 51, 0.0), CmdCreate(1, Opening(200), 52, 0.0)]
  }

  function Sampling(id: EnrollmentId): seq<Command> {
    [CmdSample(1, id, 1, SAMPLE, 0.0), CmdSample(1, id, 2, SAMPLE, 0.0), CmdSample(1, id, 3, SAMPLE, 0.0)]
  }

  lemma {:induction false} RunSplits(s: Rows, first: seq<Command>, second: seq<Command>)
    ensures Run(s, first + second) == Run(Run(s, first), second)
    decreases |first|
  {
    if first == [] {
      assert first + second == second;
    } else {
      RunSplits(Step(s, first[0]), first[1..], second);
      assert (first + second)[1..] == first[1..] + second;
    }
  }

  lemma RunOfThree(s: Rows, a: Command, b: Command, c: Command)
    ensures Run(s, [a, b, c]) == Step(Step(Step(s, a), b), c)
  {
    assert [a, b, c][1..] == [b, c] && [b, c][1..] == [c] && [c][1..] == [];
    assert Run(s, [a, b, c]) == Run(Step(s, a), [b, c]) == Run(Step(Step(s, a), b), [c]) == Run(Step(Step(Step(s, a), b), c), []);
  }

  lemma OpensOne(s: Rows, operation: Tag, generated: ProfileId)
    requires s == Voiceless(s.enrollments, s.issued) && EnrollmentId(1, operation) !in s.enrollments && generated !in s.issued
    ensures Step(s, CmdCreate(1, Opening(operation), generated, 0.0))
            == Voiceless(s.enrollments[EnrollmentId(1, operation) := Opened(operation, generated, map[])], s.issued + {generated})
  {
    assert forall p :: !IsVoiceOf(s, 1, 7, p);
  }

  lemma CreationsRun()
    ensures Run(EMPTY, Creations()) == Voiceless(map[FIRST := Opened(100, 51, map[]), SECOND := Opened(200, 52, map[])], {51, 52})
  {
    var cs := Creations();
    var s := Step(EMPTY, cs[0]);
    RunOfThree(EMPTY, cs[0], cs[1], cs[2]);
    OpensOne(s, 100, 51);
    OpensOne(Step(s, cs[1]), 200, 52);
  }

  lemma TakesOne(s: Rows, id: EnrollmentId, key: SampleId, e: Enrollment)
    requires 1 in s.activeOwners && Owns(s, 1, id) && s.enrollments[id] == e && IsCollecting(e, 0.0)
    requires key !in e.samples && |e.samples| < 3 && CompatibleWithAll(e.samples, SAMPLE)
    ensures Step(s, CmdSample(1, id, key, SAMPLE, 0.0)) == s.(enrollments := s.enrollments[id := e.(samples := e.samples[key := SAMPLE])])
  {
  }

  lemma SamplingRuns(s: Rows, id: EnrollmentId, e: Enrollment)
    requires 1 in s.activeOwners && Owns(s, 1, id) && s.enrollments[id] == e && IsCollecting(e, 0.0) && e.samples == map[]
    ensures Run(s, Sampling(id)) == s.(enrollments := s.enrollments[id := e.(samples := THREE)])
  {
    var (m1, m2) := (map[1 := SAMPLE], map[1 := SAMPLE, 2 := SAMPLE]);
    var cs := Sampling(id);
    RunOfThree(s, cs[0], cs[1], cs[2]);
    TakesOne(s, id, 1, e);
    assert e.samples[1 := SAMPLE] == m1 && m1[2 := SAMPLE] == m2 && m2[3 := SAMPLE] == THREE;
    assert m1.Keys == {1} && m2.Keys == {1, 2};
    TakesOne(Step(s, cs[0]), id, 2, e.(samples := m1));
    TakesOne(Step(Step(s, cs[0]), cs[1]), id, 3, e.(samples := m2));
  }

  /** Both enrollments hold their three samples. */
  function TwoOpen(): Rows {
    Voiceless(map[FIRST := Opened(100, 51, THREE), SECOND := Opened(200, 52, THREE)], {51, 52})
  }

  lemma TwoOpenIsReached()
    ensures Run(EMPTY, Creations() + Sampling(FIRST) + Sampling(SECOND)) == TwoOpen()
  {
    var s := Run(EMPTY, Creations());
    CreationsRun();
    RunSplits(EMPTY, Creations() + Sampling(FIRST), Sampling(SECOND));
    RunSplits(EMPTY, Creations(), Sampling(FIRST));
    SamplingRuns(s, FIRST, Opened(100, 51, map[]));
    SamplingRuns(Run(s, Sampling(FIRST)), SECOND, Opened(200, 52, map[]));
    assert Run(Run(s, Sampling(FIRST)), Sampling(SECOND)).enrollments == TwoOpen().enrollments;
  }

  lemma FirstCompletes()
    ensures Completes(TwoOpen(), 1, FIRST, RECORDING, EVALUATION, 0.0)
  {
    assert THREE.Keys == {1, 2, 3};
    assert forall p :: !IsVoiceOf(TwoOpen(), 1, 7, p);
    assert CompletionRefusal(TwoOpen(), 1, Opened(100, 51, THREE), EVALUATION, 0.0).None?;
  }

  /** Per person rather than per profile id "never returns" fails. From nothing: two enrollments are opened before person
      7 has a voice and get three samples each; the first completes and its profile is deleted; the second completes. */
  lemma OldEnrollmentGivesThePersonANewVoice()
    ensures var s := Run(EMPTY, Creations() + Sampling(FIRST) + Sampling(SECOND));
            && Completes(s, 1, FIRST, RECORDING, EVALUATION, 0.0)
            && var u := Complete(s, 1, FIRST, RECORDING, EVALUATION, 0.0).rows;
               && CurrentVoice(u, 1, 7) == Some(51) && DeleteProfile(u, 1, 51).Done?
               && Completes(DeleteProfile(u, 1, 51).rows, 1, SECOND, RECORDING, EVALUATION, 0.0)
  {
    var s := TwoOpen();
    TwoOpenIsReached();
    FirstCompletes();
    RunKeepsSound(EMPTY, Creations() + Sampling(FIRST) + Sampling(SECOND));
    var u := Complete(s, 1, FIRST, RECORDING, EVALUATION, 0.0).rows;
    AfterTheFirst(s, u);
    CompletesAfterDeletionExactlyWhen(u, 1, 51, SECOND, RECORDING, EVALUATION, 0.0);
  }

  lemma AfterTheFirst(s: Rows, u: Rows)
    requires s == TwoOpen() && Sound(s) && Completes(s, 1, FIRST, RECORDING, EVALUATION, 0.0)
    requires u == Complete(s, 1, FIRST, RECORDING, EVALUATION, 0.0).rows
    ensures Sound(u) && CurrentVoice(u, 1, 7) == Some(51) && 51 in u.profiles && u.profiles[51].owner == 1 && u.profiles[51].person == 7
    ensures 1 in u.activeOwners && SECOND in u.enrollments && u.enrollments[SECOND] == Opened(200, 52, THREE)
    ensures CouldComplete(u, 1, u.enrollments[SECOND], EVALUATION, 0.0)
  {
    CompletionMovesOneRevision(s, 1, FIRST, RECORDING, EVALUATION, 0.0);
    CompletionKeepsTheEvaluatedRecording(s, 1, FIRST, RECORDING, EVALUATION, 0.0);
    CompleteKeepsSound(s, 1, FIRST, RECORDING, EVALUATION, 0.0);
    assert THREE.Keys == {1, 2, 3};
  }
}
