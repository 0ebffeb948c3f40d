/** The enrollment service over its tables: each method is one transaction that checks before it writes. */
module EnrollmentStore {
  import opened Core
  import E = Enrollment
  import R = EnrollmentRuns

  class Store {
    var activeOwners: set<E.OwnerId>
    var speakers: map<E.PersonId, E.Speaker>
    var profiles: map<E.ProfileId, E.Profile>
    var recordings: map<E.ProfileId, E.Tag>
    var enrollments: map<E.EnrollmentId, E.Enrollment>
    var issued: set<E.ProfileId>

    function Rows(): E.Rows
      reads this
    {
      E.Rows(activeOwners, speakers, profiles, recordings, enrollments, issued)
    }

    constructor ()
      ensures Rows() == E.EMPTY && R.Sound(Rows())
    {
      activeOwners, speakers, profiles, recordings, enrollments, issued := {}, map[], map[], map[], map[], {};
    }

    /** SELECT ... WHERE owner_id = owner AND person_id = person: one row at most, by the table's unique key. */
    method FindCurrent(owner: E.OwnerId, person: E.PersonId) returns (found: Option<E.ProfileId>)
      requires R.OneVoiceEach(Rows())
      ensures found == E.CurrentVoice(Rows(), owner, person)
    {
      var keys := profiles.Keys;
      while keys != {}
        invariant keys <= profiles.Keys
        invariant forall p | p in profiles && p !in keys :: !E.IsVoiceOf(Rows(), owner, person, p)
        decreases |keys|
      {
        var p := AnyOf(keys);
        if profiles[p].owner == owner && profiles[p].person == person {
          assert E.IsVoiceOf(Rows(), owner, person, p);
          return Some(p);
        }
        keys := keys - {p};
      }
      found := None;
      assert forall p :: E.IsVoiceOf(Rows(), owner, person, p) ==> p in profiles;
    }

    method Compatible(samples: map<E.SampleId, E.Sample>, sample: E.Sample) returns (yes: bool)
      ensures yes == E.CompatibleWithAll(samples, sample)
    {
      var keys := samples.Keys;
      while keys != {}
        invariant keys <= samples.Keys
        invariant forall k | k in samples && k !in keys :: samples[k].identity == sample.identity
        decreases |keys|
      {
        var k := AnyOf(keys);
        if samples[k].identity != sample.identity { return false; }
        keys := keys - {k};
      }
      yes := true;
    }

    method CreateEnrollment(owner: E.OwnerId, request: E.Request, generated: E.ProfileId, now: real)
      returns (answer: Result<E.Enrollment, E.Refusal>)
      requires R.Sound(Rows())
      modifies this
      ensures var outcome := E.CreateEnrollment(old(Rows()), owner, request, generated, now);
              Rows() == E.After(old(Rows()), outcome) && answer == E.Answer(outcome)
    {
      var id := E.EnrollmentId(owner, request.operation);
      var missing := E.SpeakerRefusal(Rows(), owner, request.person);
      if missing.Some? { return Err(missing.value); }
      if id in enrollments {
        if enrollments[id].request != request { return Err(E.OperationReused); }
        return Ok(enrollments[id]);
      }
      var original := FindCurrent(owner, request.person);
      if request.profile.Some? && original != request.profile { return Err(E.NotCurrentVoice); }
      var profile, target := generated, 0;
      if original.Some? {
        profile, target := original.value, profiles[original.value].revision;
      } else if generated in issued {
        return Err(E.IdIssued);
      }
      var e := E.Enrollment(request.person, profile, request, target, map[], E.Collecting, now + 1800.0, None);
      enrollments := enrollments[id := e];
      issued := issued + {profile};
      answer := Ok(e);
    }

    method View(owner: E.OwnerId, id: E.EnrollmentId, now: real) returns (answer: Result<E.Enrollment, E.Refusal>)
      modifies this`enrollments
      ensures var outcome := E.View(old(Rows()), owner, id, now);
              Rows() == E.After(old(Rows()), outcome) && answer == E.Answer(outcome)
    {
      if owner !in activeOwners { return Err(E.OwnerNotActive); }
      if id !in enrollments || id.owner != owner { return Err(E.EnrollmentNotFound); }
      var e := enrollments[id];
      if e.state == E.Collecting && e.expiresAt < now {
        e := e.(state := E.Expired, samples := map[]);
      }
      enrollments := enrollments[id := e];
      answer := Ok(e);
    }

    method Cancel(owner: E.OwnerId, id: E.EnrollmentId) returns (answer: Result<E.Enrollment, E.Refusal>)
      modifies this`enrollments
      ensures var outcome := E.Cancel(old(Rows()), owner, id);
              Rows() == E.After(old(Rows()), outcome) && answer == E.Answer(outcome)
    {
      if owner !in activeOwners { return Err(E.OwnerNotActive); }
      if id !in enrollments || id.owner != owner { return Err(E.EnrollmentNotFound); }
      var e := enrollments[id];
      if e.state != E.Ready {
        e := e.(state := E.Cancelled, samples := map[]);
      }
      enrollments := enrollments[id := e];
      answer := Ok(e);
    }

    /** UPDATE ... WHERE state = 'collecting' AND expires_at < now, row by row. */
    method ExpireAll(now: real)
      modifies this`enrollments
      ensures Rows() == E.ExpireAll(old(Rows()), now)
    {
      ghost var all := enrollments;
      var keys := enrollments.Keys;
      while keys != {}
        invariant enrollments.Keys == all.Keys && keys <= all.Keys
        invariant forall k | k in keys :: enrollments[k] == all[k]
        invariant forall k | k in all && k !in keys :: enrollments[k] == E.ExpiredBy(all[k], now)
        decreases |keys|
      {
        var k := AnyOf(keys);
        keys := keys - {k};
        if enrollments[k].state == E.Collecting && enrollments[k].expiresAt < now {
          enrollments := enrollments[k := enrollments[k].(state := E.Expired, samples := map[])];
        }
      }
      assert enrollments == E.ExpireAll(old(Rows()), now).enrollments;
    }

    method AddSample(owner: E.OwnerId, id: E.EnrollmentId, key: E.SampleId, sample: E.Sample, now: real)
      returns (answer: Result<E.Enrollment, E.Refusal>)
      modifies this`enrollments
      ensures var outcome := E.AddSample(old(Rows()), owner, id, key, sample, now);
              Rows() == E.After(old(Rows()), outcome) && answer == E.Answer(outcome)
    {
      if owner !in activeOwners { return Err(E.OwnerNotActive); }
      if id !in enrollments || id.owner != owner { return Err(E.EnrollmentNotFound); }
      var e := enrollments[id];
      if !E.IsCollecting(e, now) { return Err(E.NotCollecting); }
      if key in e.samples {
        if e.samples[key] != sample { return Err(E.SampleReused); }
      } else {
        if |e.samples| >= 3 { return Err(E.SamplesFull); }
        var fits := Compatible(e.samples, sample);
        if !fits { return Err(E.Incompatible); }
        e := e.(samples := e.samples[key := sample]);
        enrollments := enrollments[id := e];
      }
      answer := Ok(e);
    }

    /** Replacing a profile erases the samples of its other completed enrollments; then this one is ready. */
    method FinishEnrollment(id: E.EnrollmentId, ready: E.Enrollment)
      requires id in enrollments
      modifies this`enrollments
      ensures enrollments == E.Superseded(old(enrollments), ready.profile)[id := ready]
    {
      ghost var all := enrollments;
      var keys := enrollments.Keys;
      while keys != {}
        invariant enrollments.Keys == all.Keys && keys <= all.Keys
        invariant forall k | k in keys :: enrollments[k] == all[k]
        invariant forall k | k in all && k !in keys && k != id :: enrollments[k] == E.WithoutEvidence(all[k], ready.profile)
        decreases |keys|
      {
        var k := AnyOf(keys);
        keys := keys - {k};
        if k != id && enrollments[k].profile == ready.profile && enrollments[k].state == E.Ready {
          enrollments := enrollments[k := enrollments[k].(samples := map[])];
        }
      }
      enrollments := enrollments[id := ready];
    }

    method CheckCompletion(owner: E.OwnerId, e: E.Enrollment, evaluation: E.Evaluation, now: real) returns (refusal: Option<E.Refusal>)
      requires R.Sound(Rows())
      ensures refusal == E.CompletionRefusal(Rows(), owner, e, evaluation, now)
    {
      if !E.IsCollecting(e, now) { return Some(E.NotCollecting); }
      var missing := E.SpeakerRefusal(Rows(), owner, e.person);
      if missing.Some? { return missing; }
      if |e.samples| != 3 { return Some(E.ThreeSamplesRequired); }
      if e.samples != evaluation.evidence { return Some(E.EvidenceChanged); }
      var template := Compatible(e.samples, evaluation.template);
      var trial := Compatible(e.samples, evaluation.trial);
      if !template || !trial { return Some(E.Incompatible); }
      var current := FindCurrent(owner, e.person);
      if (current.Some? && current.value != e.profile) || E.RevisionOf(Rows(), e.profile) != e.target {
        return Some(E.ProfileChanged);
      }
      refusal := None;
    }

    /** Writes profile, recording and both kinds of enrollment. */
    method WriteCompletion(owner: E.OwnerId, id: E.EnrollmentId, evaluation: E.Evaluation, pcm: E.Tag) returns (p: E.Profile)
      requires id in enrollments && enrollments[id].state != E.Ready
      modifies this`profiles, this`recordings, this`enrollments
      ensures Rows() == E.Completed(old(Rows()), owner, id, evaluation, pcm)
      ensures enrollments[id].profile in profiles && p == profiles[enrollments[id].profile]
    {
      var e := enrollments[id];
      p := if e.profile in profiles then profiles[e.profile]
           else E.Profile(owner, e.person, e.request.displayName, 0, None, evaluation.template);
      p := p.(displayName := e.request.displayName, template := evaluation.template,
              revision := p.revision + 1, enrollment := Some(id));
      profiles := profiles[e.profile := p];
      recordings := recordings[e.profile := pcm];
      FinishEnrollment(id, e.(state := E.Ready, evaluation := Some(evaluation)));
    }

    method Complete(owner: E.OwnerId, id: E.EnrollmentId, recording: Option<E.Recording>, evaluation: E.Evaluation, now: real)
      returns (answer: Result<E.Profile, E.Refusal>)
      requires R.Sound(Rows())
      modifies this
      ensures var outcome := E.Complete(old(Rows()), owner, id, recording, evaluation, now);
              Rows() == E.After(old(Rows()), outcome) && answer == E.Answer(outcome)
    {
      if recording.None? { return Err(E.InvalidRecording); }
      if recording.value.bytes % 2 != 0 || !(48000 <= recording.value.bytes <= 960000) { return Err(E.RecordingLength); }
      if recording.value.digest != evaluation.recording { return Err(E.RecordingMismatch); }
      if owner !in activeOwners { return Err(E.OwnerNotActive); }
      if id !in enrollments || id.owner != owner { return Err(E.EnrollmentNotFound); }
      var e := enrollments[id];
      if e.state == E.Ready {
        if e.profile !in profiles || profiles[e.profile].owner != owner { return Err(E.ProfileNotFound); }
        if profiles[e.profile].enrollment != Some(id) { return Err(E.EnrollmentReplaced); }
        return Ok(profiles[e.profile]);
      }
      var refusal := CheckCompletion(owner, e, evaluation, now);
      if refusal.Some? { return Err(refusal.value); }
      var p := WriteCompletion(owner, id, evaluation, recording.value.digest);
      answer := Ok(p);
    }

    method DeleteProfile(owner: E.OwnerId, profile: E.ProfileId) returns (answer: Result<(), E.Refusal>)
      modifies this
      ensures var outcome := E.DeleteProfile(old(Rows()), owner, profile);
              Rows() == E.After(old(Rows()), outcome) && answer == E.Answer(outcome)
    {
      if owner !in activeOwners { return Err(E.OwnerNotActive); }
      if profile in profiles && profiles[profile].owner != owner { return Err(E.ProfileNotFound); }
      if profile in profiles {
        profiles := profiles - {profile};
        recordings := recordings - {profile};
        DeleteEnrollments(profile);
      }
      answer := Ok(());
    }

    /** A deleted profile's enrollments go one by one. */
    method DeleteEnrollments(profile: E.ProfileId)
      modifies this`enrollments
      ensures enrollments == old(enrollments) - (set k | k in old(enrollments) && old(enrollments)[k].profile == profile)
    {
      ghost var all := enrollments;
      var keys := enrollments.Keys;
      while keys != {}
        invariant keys <= enrollments.Keys <= all.Keys
        invariant forall k | k in all && k !in keys :: k in enrollments <==> all[k].profile != profile
        invariant forall k | k in enrollments :: enrollments[k] == all[k]
        decreases |keys|
      {
        var k := AnyOf(keys);
        keys := keys - {k};
        if enrollments[k].profile == profile {
          enrollments := enrollments - {k};
        }
      }
    }
  }
}
