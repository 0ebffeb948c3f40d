/** When exactly each enrollment command is accepted, read off the rows before it, and what it then writes. */
module EnrollmentAnswers {
  import opened Core
  import opened Enrollment
  import opened EnrollmentRuns

  /** The person can be enrolled: theirs and active. */
  predicate Enrollable(s: Rows, owner: OwnerId, person: PersonId) {
    owner in s.activeOwners && person in s.speakers && s.speakers[person].owner == owner && s.speakers[person].active
  }

  /** p is the person's voice. */
  predicate HasVoice(s: Rows, owner: OwnerId, person: PersonId, p: ProfileId) {
    p in s.profiles && s.profiles[p].owner == owner && s.profiles[p].person == person
  }

  lemma VoiceFound(s: Rows, owner: OwnerId, person: PersonId)
    requires Sound(s)
    ensures forall p :: HasVoice(s, owner, person, p) <==> CurrentVoice(s, owner, person) == Some(p)
  {
    forall p ensures HasVoice(s, owner, person, p) <==> CurrentVoice(s, owner, person) == Some(p) {
      if HasVoice(s, owner, person, p) { assert IsVoiceOf(s, owner, person, p); }
    }
  }

  /** An enrollment is opened exactly for a person who can be enrolled, for the person's present voice or none if one is named
      as none; a repeated operation is answered exactly for the same request. */
  lemma OpeningAcceptedExactlyWhen(s: Rows, owner: OwnerId, request: Request, generated: ProfileId, now: real, outcome: Outcome<Enrollment>)
    requires Sound(s) && outcome == CreateEnrollment(s, owner, request, generated, now)
    ensures var id := EnrollmentId(owner, request.operation);
            var voiceless := forall p :: !HasVoice(s, owner, request.person, p);
            && (outcome.Done? <==>
                  && Enrollable(s, owner, request.person)
                  && if id in s.enrollments then s.enrollments[id].request == request
                     else && (request.profile.Some? ==> HasVoice(s, owner, request.person, request.profile.value))
                          && (voiceless ==> generated !in s.issued))
            && (outcome.Done? && id in s.enrollments ==> outcome.rows == s && outcome.view == s.enrollments[id])
            && (outcome.Done? && id !in s.enrollments ==>
                  var e := outcome.view;
                  && outcome.rows == s.(enrollments := s.enrollments[id := e], issued := s.issued + {e.profile})
                  && (if voiceless then e.profile == generated && e.target == 0
                      else HasVoice(s, owner, request.person, e.profile) && e.target == s.profiles[e.profile].revision)
                  && e == Enrollment(request.person, e.profile, request, e.target, map[], Collecting, now + 1800.0, None))
  {
    VoiceFound(s, owner, request.person);
  }

  predicate Open(e: Enrollment, now: real) {
    e.state == Collecting && now <= e.expiresAt
  }

  /** A sample is taken exactly by an open enrollment with room, when its identity is that of every sample there; its id again
      is answered exactly for the same sample. */
  lemma SampleAcceptedExactlyWhen(s: Rows, owner: OwnerId, id: EnrollmentId, key: SampleId, sample: Sample, now: real)
    ensures var outcome := AddSample(s, owner, id, key, sample, now);
            && (outcome.Done? <==>
                  && owner in s.activeOwners && id in s.enrollments && id.owner == owner && Open(s.enrollments[id], now)
                  && var samples := s.enrollments[id].samples;
                     if key in samples then samples[key] == sample
                     else |samples| < 3 && forall k | k in samples :: samples[k].identity == sample.identity)
            && (outcome.Done? ==>
                  && outcome.view == s.enrollments[id].(samples := s.enrollments[id].samples[key := sample])
                  && outcome.rows == s.(enrollments := s.enrollments[id := outcome.view]))
  {
    if id in s.enrollments {
      assert s.enrollments[id := s.enrollments[id]] == s.enrollments;
      var samples := s.enrollments[id].samples;
      if key in samples && samples[key] == sample { assert samples[key := sample] == samples; }
    }
  }

  /** The evaluation is of these samples and fits them all. */
  predicate Fits(samples: map<SampleId, Sample>, evaluation: Evaluation) {
    && |samples| == 3 && evaluation.evidence == samples
    && forall k | k in samples :: samples[k].identity == evaluation.template.identity == evaluation.trial.identity
  }

  predicate Plays(recording: Option<Recording>, evaluation: Evaluation) {
    && recording.Some? && recording.value.digest == evaluation.recording
    && recording.value.bytes % 2 == 0 && 48000 <= recording.value.bytes <= 960000
  }

  /** A completion is a first one exactly with a recording that plays, of an open enrollment of a person who can be enrolled,
      with three samples that the evaluation fits, when the person has no other voice and the profile has not moved. */
  lemma CompletionAcceptedExactlyWhen(
    s: Rows, owner: OwnerId, id: EnrollmentId, recording: Option<Recording>, evaluation: Evaluation, now: real)
    requires Sound(s)
    ensures Completes(s, owner, id, recording, evaluation, now) <==>
              && Plays(recording, evaluation) && id in s.enrollments && id.owner == owner
              && var e := s.enrollments[id];
                 && Open(e, now) && Enrollable(s, owner, e.person) && Fits(e.samples, evaluation)
                 && (forall p :: HasVoice(s, owner, e.person, p) ==> p == e.profile)
                 && e.target == (if e.profile in s.profiles then s.profiles[e.profile].revision else 0)
  {
    if id in s.enrollments {
      VoiceFound(s, owner, s.enrollments[id].person);
      var current := CurrentVoice(s, owner, s.enrollments[id].person);
      if current.Some? { assert HasVoice(s, owner, s.enrollments[id].person, current.value); }
    }
  }

  /** Completing a ready enrollment is answered exactly with a recording that plays, while its profile is the owner's and still
      this enrollment's, and never writes. */
  lemma RepeatAnsweredExactlyWhen(
    s: Rows, owner: OwnerId, id: EnrollmentId, recording: Option<Recording>, evaluation: Evaluation, now: real)
    requires id in s.enrollments && s.enrollments[id].state == Ready
    ensures var (outcome, p) := (Complete(s, owner, id, recording, evaluation, now), s.enrollments[id].profile);
            && (outcome.Done? <==>
                  && Plays(recording, evaluation) && owner in s.activeOwners && id.owner == owner
                  && p in s.profiles && s.profiles[p].owner == owner && s.profiles[p].enrollment == Some(id))
            && (outcome.Done? ==> outcome.rows == s && outcome.view == s.profiles[p])
  {
  }

  /** What a first completion writes: the profile, one revision on, its recording, this enrollment, and the erased evidence of
      the profile's earlier ones. */
  lemma CompletionWrites(s: Rows, owner: OwnerId, id: EnrollmentId, recording: Option<Recording>, evaluation: Evaluation, now: real, u: Rows)
    requires Sound(s) && Completes(s, owner, id, recording, evaluation, now)
    requires u == Complete(s, owner, id, recording, evaluation, now).rows
    ensures var e := s.enrollments[id];
            && u.profiles == s.profiles[e.profile := Profile(owner, e.person, e.request.displayName, e.target + 1, Some(id), evaluation.template)]
            && u.recordings == s.recordings[e.profile := evaluation.recording]
            && (forall k :: k in u.enrollments <==> k in s.enrollments)
            && (forall k | k in s.enrollments :: u.enrollments[k] ==
                  if k == id then e.(state := Ready, evaluation := Some(evaluation))
                  else if s.enrollments[k].profile == e.profile && s.enrollments[k].state == Ready then s.enrollments[k].(samples := map[])
                  else s.enrollments[k])
            && u.activeOwners == s.activeOwners && u.speakers == s.speakers && u.issued == s.issued
            && Complete(s, owner, id, recording, evaluation, now).view == u.profiles[e.profile]
  {
    assert EnrollmentSound(s, id);
  }

  /** Reading and cancelling are accepted exactly for an own enrollment; reading expires what is overdue, cancelling ends what
      is not ready, and both then drop the samples. */
  lemma ViewMeans(s: Rows, owner: OwnerId, id: EnrollmentId, now: real)
    ensures var outcome := View(s, owner, id, now);
            && (outcome.Done? <==> owner in s.activeOwners && id in s.enrollments && id.owner == owner)
            && (outcome.Done? ==>
                  var e := s.enrollments[id];
                  && outcome.view == (if e.state == Collecting && e.expiresAt < now then e.(state := Expired, samples := map[]) else e)
                  && outcome.rows == s.(enrollments := s.enrollments[id := outcome.view]))
  {
  }

  lemma CancelMeans(s: Rows, owner: OwnerId, id: EnrollmentId)
    ensures var outcome := Cancel(s, owner, id);
            && (outcome.Done? <==> owner in s.activeOwners && id in s.enrollments && id.owner == owner)
            && (outcome.Done? ==>
                  var e := s.enrollments[id];
                  && outcome.view == (if e.state == Ready then e else e.(state := Cancelled, samples := map[]))
                  && outcome.rows == s.(enrollments := s.enrollments[id := outcome.view]))
  {
  }

  /** The sweep expires exactly what is overdue, of every owner. */
  lemma ExpiryMeans(s: Rows, now: real, k: EnrollmentId)
    requires k in s.enrollments
    ensures var (e, u) := (s.enrollments[k], ExpireAll(s, now));
            && u == s.(enrollments := u.enrollments) && u.enrollments.Keys == s.enrollments.Keys
            && u.enrollments[k] == if e.state == Collecting && e.expiresAt < now then e.(state := Expired, samples := map[]) else e
  {
  }

  /** Deleting is accepted exactly for an own profile, or an absent one without effect; profile, recording and the profile's
      enrollments go. */
  lemma DeletionAcceptedExactlyWhen(s: Rows, owner: OwnerId, p: ProfileId)
    ensures var outcome := DeleteProfile(s, owner, p);
            && (outcome.Done? <==> owner in s.activeOwners && (p in s.profiles ==> s.profiles[p].owner == owner))
            && (outcome.Done? && p !in s.profiles ==> outcome.rows == s)
            && (outcome.Done? && p in s.profiles ==>
                  var u := outcome.rows;
                  && u == s.(profiles := s.profiles - {p}, recordings := s.recordings - {p}, enrollments := u.enrollments)
                  && (forall k :: k in u.enrollments <==> k in s.enrollments && s.enrollments[k].profile != p)
                  && (forall k | k in u.enrollments :: u.enrollments[k] == s.enrollments[k]))
  {
  }

  /** Forgetting a person takes exactly that person's profiles, their recordings and the person's enrollments. */
  lemma ForgettingMeans(s: Rows, person: PersonId)
    ensures var u := ForgetPerson(s, person);
            && u == s.(profiles := u.profiles, recordings := u.recordings, enrollments := u.enrollments)
            && (forall p :: p in u.profiles <==> p in s.profiles && s.profiles[p].person != person)
            && (forall p | p in u.profiles :: u.profiles[p] == s.profiles[p])
            && (forall p :: p in u.recordings <==> p in s.recordings && !(p in s.profiles && s.profiles[p].person == person))
            && (forall p | p in u.recordings :: u.recordings[p] == s.recordings[p])
            && (forall k :: k in u.enrollments <==> k in s.enrollments && s.enrollments[k].person != person)
            && (forall k | k in u.enrollments :: u.enrollments[k] == s.enrollments[k])
  {
  }

  /** A discovery gives a person without a voice one at revision 1, under an id never given out. */
  lemma DiscoveryAcceptedExactlyWhen(s: Rows, owner: OwnerId, person: PersonId, generated: ProfileId, template: Sample)
    requires Sound(s)
    ensures var outcome := DiscoverVoice(s, owner, person, generated, template);
            && (outcome.Done? <==> generated !in s.issued && forall p :: !HasVoice(s, owner, person, p))
            && (outcome.Done? ==>
                  outcome.rows == s.(profiles := s.profiles[generated := Profile(owner, person, 0, 1, None, template)],
                                     issued := s.issued + {generated}))
  {
    VoiceFound(s, owner, person);
    if CurrentVoice(s, owner, person).Some? { assert HasVoice(s, owner, person, CurrentVoice(s, owner, person).value); }
  }
}
