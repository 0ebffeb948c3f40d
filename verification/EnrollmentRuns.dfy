/** One completion per profile revision, and no way back for a deleted profile. */
module EnrollmentRuns {
  import opened Core
  import opened Enrollment

  ghost predicate OneVoiceEach(s: Rows) {
    forall p, q | p in s.profiles && q in s.profiles
                  && s.profiles[p].owner == s.profiles[q].owner && s.profiles[p].person == s.profiles[q].person :: p == q
  }

  ghost predicate PairwiseCompatible(samples: map<SampleId, Sample>) {
    forall a, b | a in samples && b in samples :: samples[a].identity == samples[b].identity
  }

  ghost predicate EnrollmentSound(s: Rows, k: EnrollmentId)
    requires k in s.enrollments
  {
    var e := s.enrollments[k];
    && e.profile in s.issued
    && (e.profile in s.profiles ==> s.profiles[e.profile].person == e.person && s.profiles[e.profile].owner == k.owner)
    && |e.samples| <= 3 && PairwiseCompatible(e.samples)
  }

  ghost predicate Sound(s: Rows) {
    && OneVoiceEach(s)
    && s.profiles.Keys <= s.issued
    && (forall k | k in s.enrollments :: EnrollmentSound(s, k))
    && (forall j, k | j in s.enrollments && k in s.enrollments && s.enrollments[j].profile == s.enrollments[k].profile ::
          s.enrollments[j].person == s.enrollments[k].person && j.owner == k.owner)
  }

  /** A new enrollment of the person's own voice, or of a profile id that was never given out. */
  lemma AddingKeepsSound(s: Rows, id: EnrollmentId, e: Enrollment)
    requires Sound(s) && id !in s.enrollments && e.samples == map[]
    requires IsVoiceOf(s, id.owner, e.person, e.profile) || e.profile !in s.issued
    requires forall k | k in s.enrollments && s.enrollments[k].profile == e.profile :: s.enrollments[k].person == e.person && k.owner == id.owner
    ensures Sound(s.(enrollments := s.enrollments[id := e], issued := s.issued + {e.profile}))
  {
    var u := s.(enrollments := s.enrollments[id := e], issued := s.issued + {e.profile});
    forall k | k in u.enrollments ensures EnrollmentSound(u, k) {
      if k != id { assert EnrollmentSound(s, k); }
    }
  }

  lemma CreateKeepsSound(s: Rows, owner: OwnerId, request: Request, generated: ProfileId, now: real)
    requires Sound(s)
    ensures Sound(After(s, CreateEnrollment(s, owner, request, generated, now)))
  {
    var u := After(s, CreateEnrollment(s, owner, request, generated, now));
    var id := EnrollmentId(owner, request.operation);
    if u != s {
      forall k | k in s.enrollments && s.enrollments[k].profile == u.enrollments[id].profile
        ensures s.enrollments[k].person == request.person && k.owner == owner
      {
        assert EnrollmentSound(s, k);
      }
      AddingKeepsSound(s, id, u.enrollments[id]);
    }
  }

  /** The row is still of that person and profile, with compatible samples. */
  ghost predicate Rewritten(before: Enrollment, after: Enrollment) {
    after.person == before.person && after.profile == before.profile && |after.samples| <= 3 && PairwiseCompatible(after.samples)
  }

  lemma RewritingKeepsSound(s: Rows, rows: map<EnrollmentId, Enrollment>)
    requires Sound(s) && rows.Keys == s.enrollments.Keys
    requires forall k | k in rows :: Rewritten(s.enrollments[k], rows[k])
    ensures Sound(s.(enrollments := rows))
  {
    var u := s.(enrollments := rows);
    forall k | k in rows ensures EnrollmentSound(u, k) { assert EnrollmentSound(s, k) && Rewritten(s.enrollments[k], rows[k]); }
    forall j, k | j in rows && k in rows && rows[j].profile == rows[k].profile
      ensures rows[j].person == rows[k].person && j.owner == k.owner
    {
      assert Rewritten(s.enrollments[j], rows[j]) && Rewritten(s.enrollments[k], rows[k]);
    }
  }

  lemma SampleKeepsSound(s: Rows, owner: OwnerId, id: EnrollmentId, key: SampleId, sample: Sample, now: real)
    requires Sound(s)
    ensures Sound(After(s, AddSample(s, owner, id, key, sample, now)))
  {
    var outcome := AddSample(s, owner, id, key, sample, now);
    if outcome.Done? && key !in s.enrollments[id].samples {
      var samples := s.enrollments[id].samples[key := sample];
      assert EnrollmentSound(s, id);
      assert PairwiseCompatible(samples);
      var rows := s.enrollments[id := s.enrollments[id].(samples := samples)];
      forall k | k in rows ensures Rewritten(s.enrollments[k], rows[k]) { assert EnrollmentSound(s, k); }
      RewritingKeepsSound(s, rows);
    }
  }

  lemma CompletedKeepsOneVoice(s: Rows, owner: OwnerId, id: EnrollmentId, evaluation: Evaluation, pcm: Tag, now: real)
    requires Sound(s) && Owns(s, owner, id) && CompletionRefusal(s, owner, s.enrollments[id], evaluation, now).None?
    ensures OneVoiceEach(Completed(s, owner, id, evaluation, pcm))
  {
    var u, e := Completed(s, owner, id, evaluation, pcm), s.enrollments[id];
    assert EnrollmentSound(s, id);
    var current := CurrentVoice(s, owner, e.person);
    assert current.Some? ==> current.value == e.profile;
    forall q | IsVoiceOf(s, owner, e.person, q)
      ensures q == e.profile
    {
      assert current.Some? && IsVoiceOf(s, owner, e.person, current.value);
    }
    assert forall q | q in s.profiles && q != e.profile :: !IsVoiceOf(s, owner, e.person, q);
    assert u.profiles[e.profile].owner == owner && u.profiles[e.profile].person == e.person;
  }

  /** Same person and profile; the samples stayed or were dropped. */
  predicate Trimmed(before: Enrollment, after: Enrollment) {
    after.person == before.person && after.profile == before.profile && (after.samples == before.samples || after.samples == map[])
  }

  lemma TrimmingKeepsSound(s: Rows, trimmed: map<EnrollmentId, Enrollment>)
    requires Sound(s) && trimmed.Keys == s.enrollments.Keys
    requires forall k | k in trimmed :: Trimmed(s.enrollments[k], trimmed[k])
    ensures Sound(s.(enrollments := trimmed))
  {
    forall k | k in trimmed ensures Rewritten(s.enrollments[k], trimmed[k]) {
      assert EnrollmentSound(s, k) && Trimmed(s.enrollments[k], trimmed[k]);
    }
    RewritingKeepsSound(s, trimmed);
  }

  lemma WrittenProfileKeepsSound(s: Rows, id: EnrollmentId, p: Profile, recordings: map<ProfileId, Tag>)
    requires Sound(s) && id in s.enrollments && p.person == s.enrollments[id].person && p.owner == id.owner
    requires OneVoiceEach(s.(profiles := s.profiles[s.enrollments[id].profile := p]))
    ensures Sound(s.(profiles := s.profiles[s.enrollments[id].profile := p], recordings := recordings))
  {
    var u := s.(profiles := s.profiles[s.enrollments[id].profile := p], recordings := recordings);
    assert EnrollmentSound(s, id);
    forall k | k in u.enrollments ensures EnrollmentSound(u, k) { assert EnrollmentSound(s, k); }
  }

  lemma CompletedKeepsSound(s: Rows, owner: OwnerId, id: EnrollmentId, evaluation: Evaluation, pcm: Tag, now: real)
    requires Sound(s) && Owns(s, owner, id) && CompletionRefusal(s, owner, s.enrollments[id], evaluation, now).None?
    ensures Sound(Completed(s, owner, id, evaluation, pcm))
  {
    var u, e := Completed(s, owner, id, evaluation, pcm), s.enrollments[id];
    CompletedKeepsOneVoice(s, owner, id, evaluation, pcm, now);
    assert EnrollmentSound(s, id);
    WrittenProfileKeepsSound(s, id, u.profiles[e.profile], u.recordings);
    TrimmingKeepsSound(s.(profiles := u.profiles, recordings := u.recordings), u.enrollments);
  }

  lemma CompleteKeepsSound(s: Rows, owner: OwnerId, id: EnrollmentId, recording: Option<Recording>, evaluation: Evaluation, now: real)
    requires Sound(s)
    ensures Sound(After(s, Complete(s, owner, id, recording, evaluation, now)))
  {
    CompleteEffect(s, owner, id, recording, evaluation, now);
    if After(s, Complete(s, owner, id, recording, evaluation, now)) != s {
      CompletedKeepsSound(s, owner, id, evaluation, recording.value.digest, now);
    }
  }

  lemma ViewKeepsSound(s: Rows, owner: OwnerId, id: EnrollmentId, now: real)
    requires Sound(s)
    ensures Sound(After(s, View(s, owner, id, now)))
  {
    TrimmingKeepsSound(s, After(s, View(s, owner, id, now)).enrollments);
  }

  lemma CancelKeepsSound(s: Rows, owner: OwnerId, id: EnrollmentId)
    requires Sound(s)
    ensures Sound(After(s, Cancel(s, owner, id)))
  {
    TrimmingKeepsSound(s, After(s, Cancel(s, owner, id)).enrollments);
  }

  lemma ExpireKeepsSound(s: Rows, now: real)
    requires Sound(s)
    ensures Sound(ExpireAll(s, now))
  {
    TrimmingKeepsSound(s, ExpireAll(s, now).enrollments);
  }

  lemma DiscoverKeepsSound(s: Rows, owner: OwnerId, person: PersonId, generated: ProfileId, sample: Sample)
    requires Sound(s)
    ensures Sound(After(s, DiscoverVoice(s, owner, person, generated, sample)))
  {
    var u := After(s, DiscoverVoice(s, owner, person, generated, sample));
    forall k | k in u.enrollments ensures EnrollmentSound(u, k) { assert EnrollmentSound(s, k); }
    if u != s {
      forall q | q in s.profiles ensures !(s.profiles[q].owner == owner && s.profiles[q].person == person) {
        assert !IsVoiceOf(s, owner, person, q);
      }
    }
  }

  lemma ForgetKeepsSound(s: Rows, p: ProfileId, person: PersonId)
    requires Sound(s)
    ensures Sound(WithoutProfile(s, p)) && Sound(ForgetPerson(s, person))
  {
    forall k | k in WithoutProfile(s, p).enrollments ensures EnrollmentSound(WithoutProfile(s, p), k) { assert EnrollmentSound(s, k); }
    forall k | k in ForgetPerson(s, person).enrollments ensures EnrollmentSound(ForgetPerson(s, person), k) { assert EnrollmentSound(s, k); }
  }

  lemma StepKeepsSound(s: Rows, c: Command)
    requires Sound(s)
    ensures Sound(Step(s, c))
  {
    var u := Step(s, c);
    match c
    case CmdCreate(owner, request, generated, now) => CreateKeepsSound(s, owner, request, generated, now);
    case CmdSample(owner, id, key, sample, now) => SampleKeepsSound(s, owner, id, key, sample, now);
    case CmdComplete(owner, id, recording, evaluation, now) => CompleteKeepsSound(s, owner, id, recording, evaluation, now);
    case CmdDelete(owner, profile) => ForgetKeepsSound(s, profile, 0);
    case CmdForget(person) => ForgetKeepsSound(s, 0, person);
    case CmdView(owner, id, now) => ViewKeepsSound(s, owner, id, now);
    case CmdCancel(owner, id) => CancelKeepsSound(s, owner, id);
    case CmdExpire(now) => ExpireKeepsSound(s, now);
    case CmdDiscover(owner, person, generated, sample) => DiscoverKeepsSound(s, owner, person, generated, sample);
    case CmdWorld(owners, speakers) =>
      forall k | k in u.enrollments ensures EnrollmentSound(u, k) { assert EnrollmentSound(s, k); }
  }

  lemma {:induction false} RunKeepsSound(s: Rows, cs: seq<Command>)
    requires Sound(s)
    ensures Sound(Run(s, cs))
    decreases |cs|
  {
    if cs != [] {
      StepKeepsSound(s, cs[0]);
      RunKeepsSound(Step(s, cs[0]), cs[1..]);
    }
  }

  // ----- Completion -----------------------------------------------------------

  /** This call is the first completion of the enrollment, not a repeat. */
  ghost predicate Completes(s: Rows, owner: OwnerId, id: EnrollmentId, recording: Option<Recording>, evaluation: Evaluation, now: real) {
    id in s.enrollments && s.enrollments[id].state != Ready && Complete(s, owner, id, recording, evaluation, now).Done?
  }

  /** A completion rests on three samples of one model, all fitting the template and the trial; it moves exactly its
      profile, from the revision the enrollment was opened against to the next one. */
  lemma CompletionMovesOneRevision(
    s: Rows, owner: OwnerId, id: EnrollmentId, recording: Option<Recording>, evaluation: Evaluation, now: real)
    requires Sound(s) && Completes(s, owner, id, recording, evaluation, now)
    ensures var e := s.enrollments[id];
            var u := Complete(s, owner, id, recording, evaluation, now).rows;
            && |e.samples| == 3 && PairwiseCompatible(e.samples)
            && (forall k | k in e.samples :: e.samples[k].identity == evaluation.template.identity == evaluation.trial.identity)
            && RevisionOf(s, e.profile) == e.target && RevisionOf(u, e.profile) == e.target + 1
            && CurrentVoice(u, owner, e.person) == Some(e.profile)
            && u.profiles[e.profile].enrollment == Some(id) && u.profiles[e.profile].template == evaluation.template
            && u.enrollments[id].state == Ready
            && (forall p | p != e.profile :: p in s.profiles <==> p in u.profiles)
            && (forall p | p != e.profile && p in s.profiles :: u.profiles[p] == s.profiles[p])
  {
    assert EnrollmentSound(s, id);
    var u := Complete(s, owner, id, recording, evaluation, now).rows;
    CompleteKeepsSound(s, owner, id, recording, evaluation, now);
    assert IsVoiceOf(u, owner, s.enrollments[id].person, s.enrollments[id].profile);
  }

  /** The recording kept is the one evaluated; the evidence behind this profile's earlier completions is erased, this
      one's is kept, and no other recording or enrollment changes. */
  lemma CompletionKeepsTheEvaluatedRecording(
    s: Rows, owner: OwnerId, id: EnrollmentId, recording: Option<Recording>, evaluation: Evaluation, now: real)
    requires Completes(s, owner, id, recording, evaluation, now)
    ensures var (e, u) := (s.enrollments[id], Complete(s, owner, id, recording, evaluation, now).rows);
            && e.profile in u.recordings && u.recordings[e.profile] == evaluation.recording
            && (forall p | p != e.profile :: (p in u.recordings <==> p in s.recordings) && (p in s.recordings ==> u.recordings[p] == s.recordings[p]))
            && u.enrollments.Keys == s.enrollments.Keys && u.enrollments[id].samples == e.samples
            && u.enrollments[id].evaluation == Some(evaluation)
            && (forall k | k in s.enrollments && k != id && s.enrollments[k].profile == e.profile && s.enrollments[k].state == Ready ::
                  u.enrollments[k].samples == map[])
            && (forall k | k in s.enrollments && k != id && !(s.enrollments[k].profile == e.profile && s.enrollments[k].state == Ready) ::
                  u.enrollments[k] == s.enrollments[k])
  {
  }

  /** Completing again never rewrites anything. */
  lemma RepeatedCompletionChangesNothing(
    s: Rows, owner: OwnerId, id: EnrollmentId, recording: Option<Recording>, evaluation: Evaluation, now: real)
    requires id in s.enrollments && s.enrollments[id].state == Ready
    ensures After(s, Complete(s, owner, id, recording, evaluation, now)) == s
    ensures Complete(s, owner, id, recording, evaluation, now).Done? ==>
              && s.enrollments[id].profile in s.profiles
              && Complete(s, owner, id, recording, evaluation, now).view == s.profiles[s.enrollments[id].profile]
              && s.profiles[s.enrollments[id].profile].enrollment == Some(id)
  {
  }

  /** The enrollment is ready for profile p, or p and all its enrollments were deleted. */
  ghost predicate ReadyOrGone(s: Rows, id: EnrollmentId, p: ProfileId) {
    (id in s.enrollments && s.enrollments[id].state == Ready && s.enrollments[id].profile == p) || Gone(s, p)
  }

  lemma CompleteKeepsReady(
    s: Rows, owner: OwnerId, done: EnrollmentId, recording: Option<Recording>, evaluation: Evaluation, now: real,
    id: EnrollmentId, p: ProfileId)
    requires ReadyOrGone(s, id, p)
    ensures ReadyOrGone(After(s, Complete(s, owner, done, recording, evaluation, now)), id, p)
  {
    CompleteEffect(s, owner, done, recording, evaluation, now);
    if Gone(s, p) { CompleteKeepsGone(s, owner, done, recording, evaluation, now, p); }
  }

  lemma RemovalKeepsReady(s: Rows, c: Command, id: EnrollmentId, p: ProfileId)
    requires Sound(s) && ReadyOrGone(s, id, p) && (c.CmdForget? || c.CmdDelete?)
    ensures ReadyOrGone(Step(s, c), id, p)
  {
    if id in s.enrollments { assert EnrollmentSound(s, id); }
  }

  lemma WritesKeepReady(s: Rows, c: Command, id: EnrollmentId, p: ProfileId)
    requires id in s.enrollments && s.enrollments[id].state == Ready && s.enrollments[id].profile == p
    requires !c.CmdComplete? && !c.CmdForget? && !c.CmdDelete?
    ensures ReadyOrGone(Step(s, c), id, p)
  {
  }

  lemma StepKeepsReady(s: Rows, c: Command, id: EnrollmentId, p: ProfileId)
    requires Sound(s) && ReadyOrGone(s, id, p)
    ensures ReadyOrGone(Step(s, c), id, p)
  {
    if Gone(s, p) {
      StepKeepsGone(s, c, p);
    } else {
      match c
      case CmdComplete(owner, done, recording, evaluation, now) =>
        CompleteKeepsReady(s, owner, done, recording, evaluation, now, id, p);
      case CmdForget(person) => RemovalKeepsReady(s, c, id, p);
      case CmdDelete(owner, profile) => RemovalKeepsReady(s, c, id, p);
      case _ => WritesKeepReady(s, c, id, p);
    }
  }

  lemma {:induction false} ReadyLasts(s: Rows, cs: seq<Command>, id: EnrollmentId, p: ProfileId)
    requires Sound(s) && ReadyOrGone(s, id, p)
    ensures ReadyOrGone(Run(s, cs), id, p)
    decreases |cs|
  {
    if cs != [] {
      StepKeepsSound(s, cs[0]);
      StepKeepsReady(s, cs[0], id, p);
      ReadyLasts(Step(s, cs[0]), cs[1..], id, p);
    }
  }

  /** A completed enrollment never completes anew, whatever happens in between: it is still ready, so completing it again
      rewrites nothing and answers only its own profile, or its profile was deleted and is gone. */
  lemma CompletedEnrollmentsNeverRewrite(
    s: Rows, cs: seq<Command>, owner: OwnerId, id: EnrollmentId, recording: Option<Recording>, evaluation: Evaluation, now: real)
    requires Sound(s) && id in s.enrollments && s.enrollments[id].state == Ready
    ensures var (p, later) := (s.enrollments[id].profile, Run(s, cs));
            Gone(later, p) ||
              (&& id in later.enrollments && later.enrollments[id].state == Ready
               && After(later, Complete(later, owner, id, recording, evaluation, now)) == later
               && (Complete(later, owner, id, recording, evaluation, now).Done? ==>
                     p in later.profiles && later.profiles[p].enrollment == Some(id)
                     && Complete(later, owner, id, recording, evaluation, now).view == later.profiles[p]))
  {
    ReadyLasts(s, cs, id, s.enrollments[id].profile);
    var later := Run(s, cs);
    if !Gone(later, s.enrollments[id].profile) {
      RepeatedCompletionChangesNothing(later, owner, id, recording, evaluation, now);
    }
  }

  /** No enrollment opened against revision r of profile p can complete any more. */
  ghost predicate Spent(s: Rows, p: ProfileId, r: nat) {
    && p in s.issued
    && (if p in s.profiles then s.profiles[p].revision > r
        else forall k | k in s.enrollments :: s.enrollments[k].profile != p)
  }

  lemma CompleteKeepsSpent(
    s: Rows, owner: OwnerId, id: EnrollmentId, recording: Option<Recording>, evaluation: Evaluation, now: real, p: ProfileId, r: nat)
    requires Spent(s, p, r)
    ensures Spent(After(s, Complete(s, owner, id, recording, evaluation, now)), p, r)
  {
    CompleteEffect(s, owner, id, recording, evaluation, now);
  }

  lemma WritesKeepSpent(s: Rows, c: Command, p: ProfileId, r: nat)
    requires Spent(s, p, r) && s.profiles.Keys <= s.issued && !c.CmdComplete? && !c.CmdForget?
    ensures Spent(Step(s, c), p, r)
  {
  }

  lemma ForgettingKeepsSpent(s: Rows, person: PersonId, p: ProfileId, r: nat)
    requires Sound(s) && Spent(s, p, r)
    ensures Spent(Step(s, CmdForget(person)), p, r)
  {
    forall k | k in s.enrollments ensures s.enrollments[k].profile == p && p in s.profiles ==> s.enrollments[k].person == s.profiles[p].person {
      assert EnrollmentSound(s, k);
    }
  }

  lemma StepKeepsSpent(s: Rows, c: Command, p: ProfileId, r: nat)
    requires Sound(s) && Spent(s, p, r)
    ensures Spent(Step(s, c), p, r)
  {
    match c
    case CmdForget(person) => ForgettingKeepsSpent(s, person, p, r);
    case CmdComplete(owner, id, recording, evaluation, now) => CompleteKeepsSpent(s, owner, id, recording, evaluation, now, p, r);
    case _ => WritesKeepSpent(s, c, p, r);
  }

  lemma {:induction false} RunKeepsSpent(s: Rows, cs: seq<Command>, p: ProfileId, r: nat)
    requires Sound(s) && Spent(s, p, r)
    ensures Spent(Run(s, cs), p, r)
    decreases |cs|
  {
    if cs != [] {
      StepKeepsSound(s, cs[0]);
      StepKeepsSpent(s, cs[0], p, r);
      RunKeepsSpent(Step(s, cs[0]), cs[1..], p, r);
    }
  }

  lemma CompletionSpendsItsRevision(
    s: Rows, owner: OwnerId, id: EnrollmentId, recording: Option<Recording>, evaluation: Evaluation, now: real)
    requires Sound(s) && Completes(s, owner, id, recording, evaluation, now)
    ensures var u := Complete(s, owner, id, recording, evaluation, now).rows;
            Sound(u) && Spent(u, s.enrollments[id].profile, s.enrollments[id].target)
  {
    CompletionMovesOneRevision(s, owner, id, recording, evaluation, now);
    CompleteKeepsSound(s, owner, id, recording, evaluation, now);
    assert EnrollmentSound(s, id);
  }

  lemma SpentRefuses(
    s: Rows, owner: OwnerId, id: EnrollmentId, recording: Option<Recording>, evaluation: Evaluation, now: real)
    requires id in s.enrollments && Spent(s, s.enrollments[id].profile, s.enrollments[id].target)
    ensures !Completes(s, owner, id, recording, evaluation, now)
  {
  }

  /** Of all enrollments opened against one revision of one profile at most one completes: after the first completion
      and any commands whatever, no enrollment with that profile and revision completes. */
  lemma AtMostOneCompletionPerRevision(
    s: Rows, owner: OwnerId, id: EnrollmentId, recording: Option<Recording>, evaluation: Evaluation, now: real, cs: seq<Command>,
    owner': OwnerId, id': EnrollmentId, recording': Option<Recording>, evaluation': Evaluation, now': real)
    requires Sound(s) && Completes(s, owner, id, recording, evaluation, now)
    ensures var later := Run(Complete(s, owner, id, recording, evaluation, now).rows, cs);
            id' in later.enrollments
            && later.enrollments[id'].profile == s.enrollments[id].profile && later.enrollments[id'].target == s.enrollments[id].target
            ==> !Completes(later, owner', id', recording', evaluation', now')
  {
    var u := Complete(s, owner, id, recording, evaluation, now).rows;
    CompletionSpendsItsRevision(s, owner, id, recording, evaluation, now);
    RunKeepsSpent(u, cs, s.enrollments[id].profile, s.enrollments[id].target);
    var later := Run(u, cs);
    if id' in later.enrollments && later.enrollments[id'].profile == s.enrollments[id].profile
       && later.enrollments[id'].target == s.enrollments[id].target {
      SpentRefuses(later, owner', id', recording', evaluation', now');
    }
  }

  /** No row refers to the profile, and its id was given out. */
  ghost predicate Gone(s: Rows, p: ProfileId) {
    && p in s.issued && p !in s.profiles
    && forall k | k in s.enrollments :: s.enrollments[k].profile != p
  }

  lemma CompleteKeepsGone(
    s: Rows, owner: OwnerId, id: EnrollmentId, recording: Option<Recording>, evaluation: Evaluation, now: real, p: ProfileId)
    requires Gone(s, p)
    ensures Gone(After(s, Complete(s, owner, id, recording, evaluation, now)), p)
  {
    CompleteEffect(s, owner, id, recording, evaluation, now);
  }

  lemma CreateKeepsGone(s: Rows, owner: OwnerId, request: Request, generated: ProfileId, now: real, p: ProfileId)
    requires Gone(s, p)
    ensures Gone(After(s, CreateEnrollment(s, owner, request, generated, now)), p)
  {
  }

  lemma EnrollmentWritesKeepGone(s: Rows, c: Command, p: ProfileId)
    requires Gone(s, p) && (c.CmdView? || c.CmdCancel? || c.CmdExpire? || c.CmdSample? || c.CmdWorld?)
    ensures Gone(Step(s, c), p)
  {
  }

  lemma StepKeepsGone(s: Rows, c: Command, p: ProfileId)
    requires Gone(s, p)
    ensures Gone(Step(s, c), p)
  {
    match c
    case CmdComplete(owner, id, recording, evaluation, now) => CompleteKeepsGone(s, owner, id, recording, evaluation, now, p);
    case CmdCreate(owner, request, generated, now) => CreateKeepsGone(s, owner, request, generated, now, p);
    case CmdDiscover(owner, person, generated, sample) =>
    case CmdForget(person) =>
    case CmdDelete(owner, profile) =>
    case _ => EnrollmentWritesKeepGone(s, c, p);
  }

  lemma {:induction false} GoneStaysGone(s: Rows, cs: seq<Command>, p: ProfileId)
    requires Gone(s, p)
    ensures p !in Run(s, cs).profiles
    decreases |cs|
  {
    if cs != [] {
      StepKeepsGone(s, cs[0], p);
      GoneStaysGone(Step(s, cs[0]), cs[1..], p);
    }
  }

  /** A deleted profile never comes back, by an old enrollment or otherwise. */
  lemma DeletedProfileNeverReturns(s: Rows, owner: OwnerId, p: ProfileId, cs: seq<Command>)
    requires Sound(s) && p in s.profiles && DeleteProfile(s, owner, p).Done?
    ensures p !in Run(DeleteProfile(s, owner, p).rows, cs).profiles
  {
    GoneStaysGone(DeleteProfile(s, owner, p).rows, cs, p);
  }

  /** What deletion leaves of the open enrollments: exactly those opened for another profile id. */
  lemma DeletionLeavesOtherProfiles(s: Rows, owner: OwnerId, p: ProfileId, k: EnrollmentId)
    requires p in s.profiles && DeleteProfile(s, owner, p).Done?
    ensures k in DeleteProfile(s, owner, p).rows.enrollments <==> k in s.enrollments && s.enrollments[k].profile != p
  {
  }
}
