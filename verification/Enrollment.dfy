/**
 * Voice enrollment: opening an operation against a person's current profile revision, collecting three samples,
 * completing once, and deleting. Digests and base64 payloads stand for what they digest.
 */
module Enrollment {
  import opened Core

  type OwnerId = int
  type PersonId = int
  type ProfileId = int
  type SampleId = int
  type Tag = int

  /** (owner, operation id): the enrollment id is their digest. */
  datatype EnrollmentId = EnrollmentId(owner: OwnerId, operation: Tag)

  /** What _compatible compares. */
  datatype Identity = Identity(model: Tag, weights: Tag, preprocessing: Tag, dimensions: nat)
  datatype Sample = Sample(identity: Identity, content: Tag)
  datatype Evaluation = Evaluation(template: Sample, trial: Sample, evidence: map<SampleId, Sample>, recording: Tag)
  /** A decoded reference recording: its byte length and its digest. */
  datatype Recording = Recording(bytes: nat, digest: Tag)

  datatype State = Collecting | Ready | Expired | Cancelled
  datatype Request = Request(operation: Tag, person: PersonId, profile: Option<ProfileId>, displayName: Tag)
  datatype Enrollment = Enrollment(
    person: PersonId, profile: ProfileId, request: Request, target: nat, samples: map<SampleId, Sample>,
    state: State, expiresAt: real, evaluation: Option<Evaluation>)
  datatype Profile = Profile(
    owner: OwnerId, person: PersonId, displayName: Tag, revision: nat, enrollment: Option<EnrollmentId>, template: Sample)
  datatype Speaker = Speaker(owner: OwnerId, active: bool)

  /** issued holds every profile id ever generated: a generated id is one not yet used. */
  datatype Rows = Rows(
    activeOwners: set<OwnerId>, speakers: map<PersonId, Speaker>, profiles: map<ProfileId, Profile>,
    recordings: map<ProfileId, Tag>, enrollments: map<EnrollmentId, Enrollment>, issued: set<ProfileId>)

  datatype Refusal =
    | OwnerNotActive | SpeakerNotFound | SpeakerInactive | OperationReused | NotCurrentVoice | EnrollmentNotFound
    | NotCollecting | SampleReused | SamplesFull | Incompatible | InvalidRecording | RecordingLength | RecordingMismatch
    | ProfileNotFound | EnrollmentReplaced | ThreeSamplesRequired | EvidenceChanged | ProfileChanged | IdIssued

  datatype Outcome<+V> = Done(rows: Rows, view: V) | Refused(why: Refusal)

  function After<V>(s: Rows, outcome: Outcome<V>): Rows {
    if outcome.Done? then outcome.rows else s
  }

  function Answer<V>(outcome: Outcome<V>): Result<V, Refusal> {
    if outcome.Done? then Ok(outcome.view) else Err(outcome.why)
  }

  function SpeakerRefusal(s: Rows, owner: OwnerId, person: PersonId): Option<Refusal> {
    if owner !in s.activeOwners then Some(OwnerNotActive)
    else if person !in s.speakers || s.speakers[person].owner != owner then Some(SpeakerNotFound)
    else if !s.speakers[person].active then Some(SpeakerInactive)
    else None
  }

  predicate IsVoiceOf(s: Rows, owner: OwnerId, person: PersonId, p: ProfileId) {
    p in s.profiles && s.profiles[p].owner == owner && s.profiles[p].person == person
  }

  /** The person's one profile. */
  ghost function CurrentVoice(s: Rows, owner: OwnerId, person: PersonId): (found: Option<ProfileId>)
    ensures found.Some? ==> IsVoiceOf(s, owner, person, found.value)
    ensures found.None? ==> forall p :: !IsVoiceOf(s, owner, person, p)
  {
    if exists p :: IsVoiceOf(s, owner, person, p) then
      var p :| IsVoiceOf(s, owner, person, p);
      Some(p)
    else None
  }

  ghost function CreateEnrollment(s: Rows, owner: OwnerId, request: Request, generated: ProfileId, now: real): Outcome<Enrollment> {
    var id := EnrollmentId(owner, request.operation);
    var missing := SpeakerRefusal(s, owner, request.person);
    if missing.Some? then Refused(missing.value)
    else if id in s.enrollments then
      if s.enrollments[id].request != request then Refused(OperationReused) else Done(s, s.enrollments[id])
    else
      var original := CurrentVoice(s, owner, request.person);
      if request.profile.Some? && original != request.profile then Refused(NotCurrentVoice)
      else if original.None? && generated in s.issued then Refused(IdIssued)
      else
        var profile := if original.Some? then original.value else generated;
        var target := if original.Some? then s.profiles[original.value].revision else 0;
        var e := Enrollment(request.person, profile, request, target, map[], Collecting, now + 1800.0, None);
        Done(s.(enrollments := s.enrollments[id := e], issued := s.issued + {profile}), e)
  }

  predicate Owns(s: Rows, owner: OwnerId, id: EnrollmentId) {
    id in s.enrollments && id.owner == owner
  }

  predicate IsCollecting(e: Enrollment, now: real) {
    e.state == Collecting && e.expiresAt >= now
  }

  /** enrollment(): reading an overdue operation expires it. */
  function View(s: Rows, owner: OwnerId, id: EnrollmentId, now: real): Outcome<Enrollment> {
    if owner !in s.activeOwners then Refused(OwnerNotActive)
    else if !Owns(s, owner, id) then Refused(EnrollmentNotFound)
    else
      var e := s.enrollments[id];
      var seen := ExpiredBy(e, now);
      Done(s.(enrollments := s.enrollments[id := seen]), seen)
  }

  function Cancel(s: Rows, owner: OwnerId, id: EnrollmentId): Outcome<Enrollment> {
    if owner !in s.activeOwners then Refused(OwnerNotActive)
    else if !Owns(s, owner, id) then Refused(EnrollmentNotFound)
    else
      var e := s.enrollments[id];
      var seen := if e.state != Ready then e.(state := Cancelled, samples := map[]) else e;
      Done(s.(enrollments := s.enrollments[id := seen]), seen)
  }

  function ExpiredBy(e: Enrollment, now: real): Enrollment {
    if e.state == Collecting && e.expiresAt < now then e.(state := Expired, samples := map[]) else e
  }

  /** expire_enrollments, over every owner. */
  ghost function ExpireAll(s: Rows, now: real): Rows {
    s.(enrollments := Mapped(s.enrollments, (id, e: Enrollment) => ExpiredBy(e, now)))
  }

  predicate CompatibleWithAll(samples: map<SampleId, Sample>, sample: Sample) {
    forall k | k in samples :: samples[k].identity == sample.identity
  }

  function AddSample(s: Rows, owner: OwnerId, id: EnrollmentId, key: SampleId, sample: Sample, now: real): Outcome<Enrollment> {
    if owner !in s.activeOwners then Refused(OwnerNotActive)
    else if !Owns(s, owner, id) then Refused(EnrollmentNotFound)
    else
      var e := s.enrollments[id];
      if !IsCollecting(e, now) then Refused(NotCollecting)
      else if key in e.samples then
        if e.samples[key] != sample then Refused(SampleReused) else Done(s, e)
      else if |e.samples| >= 3 then Refused(SamplesFull)
      else if !CompatibleWithAll(e.samples, sample) then Refused(Incompatible)
      else
        var seen := e.(samples := e.samples[key := sample]);
        Done(s.(enrollments := s.enrollments[id := seen]), seen)
  }

  function RecordingRefusal(recording: Option<Recording>, evaluation: Evaluation): Option<Refusal> {
    if recording.None? then Some(InvalidRecording)
    else if recording.value.bytes % 2 != 0 || !(48000 <= recording.value.bytes <= 960000) then Some(RecordingLength)
    else if recording.value.digest != evaluation.recording then Some(RecordingMismatch)
    else None
  }

  function RevisionOf(s: Rows, p: ProfileId): nat {
    if p in s.profiles then s.profiles[p].revision else 0
  }

  ghost function CompletionRefusal(s: Rows, owner: OwnerId, e: Enrollment, evaluation: Evaluation, now: real): Option<Refusal> {
    if !IsCollecting(e, now) then Some(NotCollecting)
    else if SpeakerRefusal(s, owner, e.person).Some? then SpeakerRefusal(s, owner, e.person)
    else if |e.samples| != 3 then Some(ThreeSamplesRequired)
    else if e.samples != evaluation.evidence then Some(EvidenceChanged)
    else if !CompatibleWithAll(e.samples, evaluation.template) || !CompatibleWithAll(e.samples, evaluation.trial) then Some(Incompatible)
    else
      var current := CurrentVoice(s, owner, e.person);
      if (current.Some? && current.value != e.profile) || RevisionOf(s, e.profile) != e.target then Some(ProfileChanged)
      else None
  }

  /** Every completed enrollment of the profile loses its samples. */
  ghost function Superseded(enrollments: map<EnrollmentId, Enrollment>, p: ProfileId): map<EnrollmentId, Enrollment> {
    Mapped(enrollments, (k, e: Enrollment) => WithoutEvidence(e, p))
  }

  function WithoutEvidence(e: Enrollment, p: ProfileId): Enrollment {
    if e.profile == p && e.state == Ready then e.(samples := map[]) else e
  }

  /** The rows of a first completion. */
  ghost function Completed(s: Rows, owner: OwnerId, id: EnrollmentId, evaluation: Evaluation, pcm: Tag): Rows
    requires id in s.enrollments
  {
    var e := s.enrollments[id];
    var p := e.profile;
    var (o, person) := if p in s.profiles then (s.profiles[p].owner, s.profiles[p].person) else (owner, e.person);
    s.(profiles := s.profiles[p := Profile(o, person, e.request.displayName, RevisionOf(s, p) + 1, Some(id), evaluation.template)],
       recordings := s.recordings[p := pcm],
       enrollments := Superseded(s.enrollments, p)[id := e.(state := Ready, evaluation := Some(evaluation))])
  }

  ghost function Complete(
    s: Rows, owner: OwnerId, id: EnrollmentId, recording: Option<Recording>, evaluation: Evaluation, now: real): Outcome<Profile>
  {
    var unusable := RecordingRefusal(recording, evaluation);
    if unusable.Some? then Refused(unusable.value)
    else if owner !in s.activeOwners then Refused(OwnerNotActive)
    else if !Owns(s, owner, id) then Refused(EnrollmentNotFound)
    else
      var e := s.enrollments[id];
      if e.state == Ready then
        if e.profile !in s.profiles || s.profiles[e.profile].owner != owner then Refused(ProfileNotFound)
        else if s.profiles[e.profile].enrollment != Some(id) then Refused(EnrollmentReplaced)
        else Done(s, s.profiles[e.profile])
      else
        var refusal := CompletionRefusal(s, owner, e, evaluation, now);
        if refusal.Some? then Refused(refusal.value)
        else
          var next := Completed(s, owner, id, evaluation, recording.value.digest);
          Done(next, next.profiles[e.profile])
  }

  /** A completion changes nothing, or it is the first one of an enrollment that nothing refuses. */
  lemma CompleteEffect(
    s: Rows, owner: OwnerId, id: EnrollmentId, recording: Option<Recording>, evaluation: Evaluation, now: real)
    ensures var u := After(s, Complete(s, owner, id, recording, evaluation, now));
            u == s ||
            (Owns(s, owner, id) && recording.Some? && CompletionRefusal(s, owner, s.enrollments[id], evaluation, now).None?
             && u == Completed(s, owner, id, evaluation, recording.value.digest))
  {
  }

  /** Rows other than those of this profile; deleting a profile takes its recording and its enrollments along. */
  function WithoutProfile(s: Rows, p: ProfileId): Rows {
    s.(profiles := s.profiles - {p}, recordings := s.recordings - {p},
       enrollments := s.enrollments - (set k | k in s.enrollments && s.enrollments[k].profile == p))
  }

  function DeleteProfile(s: Rows, owner: OwnerId, p: ProfileId): Outcome<()> {
    if owner !in s.activeOwners then Refused(OwnerNotActive)
    else if p in s.profiles && s.profiles[p].owner != owner then Refused(ProfileNotFound)
    else if p in s.profiles then Done(WithoutProfile(s, p), ())
    else Done(s, ())
  }

  /** Archiving a person: every profile, recording and enrollment of the person goes. */
  function ForgetPerson(s: Rows, person: PersonId): Rows {
    var gone := set p | p in s.profiles && s.profiles[p].person == person;
    s.(profiles := s.profiles - gone, recordings := s.recordings - gone,
       enrollments := s.enrollments - (set k | k in s.enrollments && s.enrollments[k].person == person))
  }

  /** A discovered candidate's first profile, under a generated id. */
  ghost function DiscoverVoice(s: Rows, owner: OwnerId, person: PersonId, generated: ProfileId, template: Sample): Outcome<()> {
    if generated in s.issued then Refused(IdIssued)
    else if CurrentVoice(s, owner, person).Some? then Refused(NotCurrentVoice)
    else Done(s.(profiles := s.profiles[generated := Profile(owner, person, 0, 1, None, template)],
                 issued := s.issued + {generated}), ())
  }

  datatype Command =
    | CmdCreate(owner: OwnerId, request: Request, generated: ProfileId, now: real)
    | CmdView(owner: OwnerId, id: EnrollmentId, now: real)
    | CmdCancel(owner: OwnerId, id: EnrollmentId)
    | CmdExpire(now: real)
    | CmdSample(owner: OwnerId, id: EnrollmentId, key: SampleId, sample: Sample, now: real)
    | CmdComplete(owner: OwnerId, id: EnrollmentId, recording: Option<Recording>, evaluation: Evaluation, now: real)
    | CmdDelete(owner: OwnerId, profile: ProfileId)
    | CmdForget(person: PersonId)
    | CmdDiscover(owner: OwnerId, person: PersonId, generated: ProfileId, sample: Sample)
    | CmdWorld(owners: set<OwnerId>, speakers: map<PersonId, Speaker>)

  ghost function Step(s: Rows, c: Command): Rows {
    match c
    case CmdCreate(owner, request, generated, now) => After(s, CreateEnrollment(s, owner, request, generated, now))
    case CmdView(owner, id, now) => After(s, View(s, owner, id, now))
    case CmdCancel(owner, id) => After(s, Cancel(s, owner, id))
    case CmdExpire(now) => ExpireAll(s, now)
    case CmdSample(owner, id, key, sample, now) => After(s, AddSample(s, owner, id, key, sample, now))
    case CmdComplete(owner, id, recording, evaluation, now) => After(s, Complete(s, owner, id, recording, evaluation, now))
    case CmdDelete(owner, profile) => After(s, DeleteProfile(s, owner, profile))
    case CmdForget(person) => ForgetPerson(s, person)
    case CmdDiscover(owner, person, generated, sample) => After(s, DiscoverVoice(s, owner, person, generated, sample))
    case CmdWorld(owners, speakers) => s.(activeOwners := owners, speakers := speakers)
  }

  ghost function Run(s: Rows, cs: seq<Command>): Rows
    decreases |cs|
  {
    if cs == [] then s else Run(Step(s, cs[0]), cs[1..])
  }

  const EMPTY := Rows({}, map[], map[], map[], map[], {})
}
