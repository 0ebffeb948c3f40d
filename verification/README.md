# Verification of the system-data authority

A Dafny model of the write authority behind the store of owners, persons, personas, smart homes, teams, companions and
audit facts, and proofs of what every run of its commands keeps. Each component has

- a specification: the rows as a value and, for every command, the function from rows to rows and an answer (a refusal
  leaves the rows as they were; the one exception is an approval conflict, which commits the stale mark and then refuses);
- runs: the theorems, over all inputs and all runs of the specification;
- answers: for each command, on the rows and the request alone, when exactly it is accepted and what it then leaves;
- a store: a class whose methods check and write in place, in the order of the source, each proved to do what the
  specification says.

| component | specification | theorems | class |
|---|---|---|---|
| candidates, evidence, personal memory, deletion | `People` | `PeopleRuns`, `PeoplePool`, `PeopleEvidence`, `PeopleMemory`, `PeopleDeletion`, `PeopleDecisions`, `PeopleEffects`, `PeopleAnswers`, `PeopleVoice`, `PeoplePromotion` | `PeopleStore` |
| voice enrollment | `Enrollment` | `EnrollmentRuns`, `EnrollmentReturns`, `EnrollmentAnswers` | `EnrollmentStore` |
| persona history | `Persona` | `PersonaRuns`, `PersonaHistory`, `PersonaVersions`, `PersonaAnswers` | `PersonaStore` |
| smart-home registry | `SmartHome` over `Listing` and `Ordering` | `SmartHomeRows`, `SmartHomeReload`, `SmartHomeRuns`, `SmartHomeAnswers` | `SmartHomeStore` |
| teams | `Teams` | `TeamsRuns`, `TeamsAnswers` | `TeamsStore` |
| companion lifecycle, default pointer | `Workspace` | `Workspace`, `WorkspaceAnswers` | `WorkspaceStore` |
| audit outbox and dispatchers | `Outbox` | `OutboxRuns` | `OutboxStore` |
| keyset pages, roster cursor | `Paging`, `Cursor` | the same | |
| person photo | `PersonFaces` | the same, `PersonFaceRaces` | `PersonFaces.Store` |

The `Answers` modules treat every command alike; the table below lists those of their lemmas that combine several functions
or rest on an invariant.

`dafny verify dfyconfig.toml` checks the whole project.

## Conventions and assumptions

- Identifiers, digests and opaque documents are compared for equality only, so they are integer tags; where the source
  orders strings, integers stand for them in the same order. A digest is injective, so what it digests stands for it: the
  snapshot payload for its revision, an edit request for its fingerprint, a genome for its hash, a captured interval's
  audio for its tag. A generated identifier is an argument; one that is taken makes the insert fail.
- The clock is a function from the number of the reading to the time, so one command may read several times; runs have
  nondecreasing readings.
- The SDK is an assumption: its limits are arbitrary numbers; genome authoring, evolution validation, name trimming,
  registry validity and team resolution are function parameters; companion lifecycle moves only from active to
  retiring to archived to active, and only active companions may be the default. The registry verdict parameter also
  stands for the tables' foreign and unique keys other than the primary ones.
- ORDER BY is computed by repeated selection (`Ordering`); a table read is characterised by rank, not by that algorithm.
- Personal realms are keyed by person, as the schema's unique key allows one per person.
- Filtering a table is written as subtraction of keys, and a change of every row as the recursive `Core.Mapped`.

## Where the code and its claims differ

- The bulk runtime projection never looks at the owner's status. It agrees with the per-person call exactly when the owner
  is active or the person's rows do not allow the use (`PeopleDecisions.DecisionsAgreeExactly`,
  `PeopleDecisions.ArchivedOwnerStillListed`).
- A deleted profile id never comes back, but the person's voice may: an older enrollment opened before the person had any
  voice carries its own generated profile id and still completes. `EnrollmentReturns.CompletesAfterDeletionExactlyWhen` says
  when, `EnrollmentReturns.OldEnrollmentGivesThePersonANewVoice` gives a run from nothing.
- The current persona version does not only rise: create_genome takes any unused version, and an approval takes the version
  its proposal came with. `PersonaVersions.VersionFallsExactlyWhen` says when it falls; without create_genome it never does
  (`PersonaHistory.VersionsIncrease`).
- Putting away an already archived companion succeeds without effect, where retirement refuses it
  (`Workspace.PutAwayIsRetireThenArchive` gives the exact condition).
- An exception delivered after the commit of a photo replacement but before its `try` is left, such as a cancellation,
  deletes the object the committed row names (`PersonFaces.RaisingIsConsistentExactlyWhen`), unless another change has
  replaced it by then (`PersonFaceRaces.RowsStayNamedExactlyWhen`).
- A created area is answered last but reloads last only if no existing area has a higher order
  (`SmartHomeRows.CreatedAreaReloadsLast`).
- A registry read whose queries see different instants can raise instead of answering: exactly when a scene that has
  an action at the second was not there at the first (`SmartHomeRuns.ReadFailsExactlyWhen`), so only across the
  creation of that scene (`SmartHomeRuns.FailedReadsCrossACreation`); `SmartHomeRuns.TornReadMissesAScene` is such a run.
- A cursor that no server issued is not always refused. An accepted one is issued exactly when it is canonical and spells
  the time as the server does (`Cursor.DecodedIsIssuedExactlyWhen`); every issued cursor has a never-issued double
  (`Cursor.OwnPaddingIsAccepted`), and letters alone do not make the difference (`Cursor.SpareBitsAreAccepted`).
- The retry delay is nondecreasing exactly for a base that is not negative or a maximum that makes it constant
  (`Outbox.DelayIsMonotone`).

## Model

| member | source | states |
|---|---|---|
| `PeoplePool.PoolNeverExceedsCap` | eidolon_data/services/persons.py:102-110 | for every nondecreasing clock and every run of all commands, at every instant from the run's end on, each owner has at most MAX_CANDIDATE_PERSONS active, undeleted, unretained, unexpired candidates |
| `PeoplePool.ExpiredStaysOut` | eidolon_data/services/voiceprints.py:287-320 | a candidate once expired never re-enters a pool or a snapshot and is never established, by evidence, update, restore or promotion, in any later run |
| `PeoplePool.StepKeepsCap` | eidolon_data/services/persons.py:138-155 | every single command keeps every owner's pool within the cap up to the end of its own clock readings; reactivation does not bypass the check |
| `PeopleMemory.MemoryOnlyForLivePersons` | eidolon_data/services/persons.py:510-518 | in every reachable state an active realm belongs to an undeleted, active, established person of the same owner, and an inactive person's provisional permissions are all off |
| `PeopleMemory.SilenceLasts` | eidolon_data/services/persons.py:308-322 | once silenced, a realm is never active again in any run without restore_memory for that very person: no promotion, update, restore or preparation revives it |
| `PeopleMemory.StepKeepsSilence` | eidolon_data/services/persons.py:480-508 | only restore_memory for the person itself can end the silence; every other command keeps it |
| `PeopleMemory.WhatSilences` | eidolon_data/services/persons.py:450-478 | suspension, making inactive, archive, restore and owner archive each leave the realm silenced |
| `PeopleDeletion.PendingIsArchivedAndDeleting` | eidolon_data/services/persons.py:228-281 | in every reachable state a deletion is pending exactly when the archived person row and its deleting realm both exist |
| `PeopleDeletion.DeletingIsNeverUndone` | eidolon_data/services/persons.py:217-219 | from a pending deletion every run leads to the same pending deletion or to its completion, with person and realm gone |
| `PeopleDeletion.RetriesAnswerTheSameReceipt` | eidolon_data/services/persons.py:232-244 | after any run an accepted retry answers the receipt of the first request, at most completed since; a retry of a completed one changes nothing |
| `PeopleDeletion.CompletionErases` | eidolon_data/services/persons.py:270-280 | completing a pending deletion is accepted and removes the person, the realm and every receipt and profile of the person; every other person, realm, receipt, profile, deletion receipt and owner stays |
| `PeopleDeletion.IdentityNeverReturns` | eidolon_data/services/persons.py:53-58 | after a deletion was requested the person id is never created again and no discovery ever adds it, in any run |
| `PeopleEvidence.EvidenceIsIndependent` | eidolon_data/services/voiceprints.py:186-246 | in every reachable state any two receipts of an owner differ in (session, turn) and in audio, and their intervals are disjoint within one session, input and generation |
| `PeopleEvidence.AcceptedSamplesFit` | eidolon_data/services/voiceprints.py:262-323 | in every reachable state the accepted samples of one stream total at most its latest end minus its earliest start |
| `PeopleEvidence.TotalIsUnion` | eidolon_data/services/voiceprints.py:186-246 | independent receipts of one stream share no sample: their lengths add up to the size of the union of their intervals |
| `PeopleEvidence.OnlyEvidencePromotes` | eidolon_data/services/voiceprints.py:325-361 | a candidate becomes established only by an accepted evidence turn whose promotion test succeeded |
| `PeopleEvidence.PromotionRestsOnIndependentEvidence` | eidolon_data/services/voiceprints.py:325-361 | every promotion in every run rests on pairwise independent receipts of one profile revision: at least min_turns of them, not older than allowed, reaching the required speech |
| `PeoplePromotion.TurnPromotesExactlyWhen` | eidolon_data/services/voiceprints.py:325-361 | after an accepted turn the candidate is established if and only if a policy is set, the turn itself counts, and the receipts of that profile revision that count, this one included, are enough in number and speech; the row, realm and receipt written are described in full |
| `PeoplePromotion.TurnPromotesByTheTable` | eidolon_data/services/voiceprints.py:343-351 | while the clock stands still this is a count over the receipts in the table afterwards |
| `PeopleVoice.SnapshotShowsExactly` | eidolon_data/services/voiceprints.py:126-161 | the snapshot shows exactly the profiles of persons who are active, not archived, recognisable and, as candidates, fresh, without their activity time |
| `PeopleVoice.EvidenceAcceptedExactlyWhen` | eidolon_data/services/voiceprints.py:248-323 | a turn is taken if and only if its person can be heard, it has no receipt, and it is timely, judged against the present snapshot, new in audio and interval, and within the receipt limit; a turn with a receipt is answered if and only if the request is the same; the answer counts the receipts alike |
| `PeopleVoice.NewDiscoveryExactlyWhen` | eidolon_data/services/voiceprints.py:163-246 | a new voice is taken in if and only if the request fits the policy in force, resembles nobody in the present snapshot, is new in audio and interval, and pool and snapshot have room; candidate, realm, receipt and profile are described in full |
| `PeopleVoice.RediscoveryExactlyWhen` | eidolon_data/services/voiceprints.py:172-185 | the same discovery again is answered without effect if and only if its candidate can still be heard and keeps its profile |
| `PeopleDecisions.DecisionsAgreeExactly` | eidolon_data/services/persons.py:324-386 | in every reachable state the bulk projection lists a person exactly when the per-person access call grants, if and only if the owner is active or the person's rows do not allow the use: another owner's, withheld now, or without permission |
| `PeopleDecisions.ArchivedOwnerStillListed` | eidolon_data/services/persons.py:324-338 | a concrete run in which the bulk projection still lists a realm of an archived owner that the access call refuses |
| `PeopleDecisions.SweepIsInvisible` | eidolon_data/services/voiceprints.py:102-161 | whichever expired candidates a sweep retains, no owner's later recognition snapshot differs |
| `PeopleDecisions.SweepKeepsProjection` | eidolon_data/services/voiceprints.py:121-124 | nor does it change what the bulk projection lists |
| `PeopleEffects.OwnersAreIsolated` | eidolon_data/services/persons.py:38-48 | in any run of other owners' commands an owner's persons, realms, deletion receipts, voice receipts, voice profiles and owner row stay exactly as they were |
| `PeopleEffects.RunKeepsProfilesOwned` | eidolon_data/services/voiceprints.py:413-417 | in every run a voice profile's person exists and has the profile's owner |
| `PeopleEffects.CreateIsRepeatable` | eidolon_data/services/persons.py:50-76 | the same creation again answers the same row and changes nothing, whatever id is generated |
| `PeopleEffects.ArchiveThenRestore` | eidolon_data/services/persons.py:177-226 | restoring an archived person gives back the same row, inactive and two revisions on, with voice profiles gone, the realm off and no other row touched |
| `PeopleEffects.SuspendThenRestoreMemory` | eidolon_data/services/persons.py:450-508 | a suspended memory comes back as the same realm, live, with provisional permissions off |
| `PeopleEffects.UpdateWritesTheRequest` | eidolon_data/services/persons.py:138-155 | an update writes exactly the requested fields and the next revision, and takes the memory down exactly when it makes the person inactive |
| `PeopleRuns.RunKeepsSound` | eidolon_data/services/persons.py:28-36 | every run keeps the row invariant of persons, realms and receipts on which the claims above rest |
| `PeopleAnswers.CreationAcceptedExactlyWhen` | eidolon_data/services/persons.py:50-100 | when a person is created, read off the rows: a new id everywhere and, for a candidate, room in the pool; a repeat is answered for the same data only; the first row and realm in full |
| `PeopleAnswers.UpdateAcceptedExactlyWhen` | eidolon_data/services/persons.py:138-155 | when an update is accepted: at its revision, and bringing a live candidate back needs activity time and, while fresh, room in the pool |
| `PeopleAnswers.DeletionAcceptedExactlyWhen` | eidolon_data/services/persons.py:228-281 | in every sound state when a deletion is requested, repeated or completed, by the revisions a caller may name |
| `PeopleAnswers.PolicyAcceptedExactlyWhen` | eidolon_data/services/persons.py:340-386 | when the provisional policy is read or written, what is written, and that a session sees nothing of a person not usable now |
| `People.DiscoverEffect` | eidolon_data/services/voiceprints.py:163-246 | a discovery changes nothing, or it is a new turn with new audio and a new interval for an identity no table knows, and writes person, realm, receipt and profile together |
| `People.EvidenceEffect` | eidolon_data/services/voiceprints.py:248-323 | evidence changes nothing, or it is a new turn with new audio and a new interval for a candidate the current snapshot still shows |
| `PeopleStore.Store.Create` | eidolon_data/services/persons.py:50-76 | commits person and realm or refuses in the source's order, answering the row |
| `PeopleStore.Store.Update` | eidolon_data/services/persons.py:138-155 | commits the requested fields with the compare-and-swap, the pool check on reactivation and the deactivation |
| `PeopleStore.Store.RetireCandidate` | eidolon_data/services/persons.py:157-170 | retires a candidate once; a retry changes nothing |
| `PeopleStore.Store.Archive` | eidolon_data/services/persons.py:177-203 | archives the person, its memory and its voice profiles together |
| `PeopleStore.Store.Restore` | eidolon_data/services/persons.py:205-226 | undeletes into the inactive state unless identity is missing or an erasure is pending |
| `PeopleStore.Store.PermanentDelete` | eidolon_data/services/persons.py:228-281 | requests or completes the two-phase deletion, or answers the retry |
| `PeopleStore.Store.SetMemoryDefaults` | eidolon_data/services/persons.py:283-306 | changes the owner's memory defaults by compare-and-swap |
| `PeopleStore.Store.ProvisionalMemoryPolicy` | eidolon_data/services/persons.py:340-386 | writes or reads the provisional policy and withholds it from a session for a person not usable now |
| `PeopleStore.Store.MemoryRealm` | eidolon_data/services/persons.py:388-416 | answers the live realm of an active established person, or creates it when asked |
| `PeopleStore.Store.SuspendMemory` | eidolon_data/services/persons.py:450-478 | suspends the realm and moves the person's revision, or changes nothing when already suspended |
| `PeopleStore.Store.RestoreMemory` | eidolon_data/services/persons.py:480-508 | makes an inactive realm of an active established person live again |
| `PeopleStore.Store.SweepExpired` | eidolon_data/services/voiceprints.py:102-124 | retains exactly the selected expired candidates, one by one |
| `PeopleStore.Store.RecognitionCandidates` | eidolon_data/services/voiceprints.py:102-161 | the answer after the sweep is the snapshot the tables gave without it, or the refusal of a snapshot over its limit |
| `PeopleStore.Store.ReadEntries` | eidolon_data/services/voiceprints.py:126-161 | collects exactly the profiles of recognisable persons with their rows |
| `PeopleStore.Store.OverlapsAccepted` | eidolon_data/services/voiceprints.py:214-222 | is true exactly when an accepted receipt of the session overlaps the captured interval |
| `PeopleStore.Store.CheckDiscovery` | eidolon_data/services/voiceprints.py:199-238 | the first refusal of a new discovery, in order, or none |
| `PeopleStore.Store.DiscoverCandidate` | eidolon_data/services/voiceprints.py:163-246 | replays a known turn, refuses, or commits candidate, realm, receipt and profile together |
| `PeopleStore.Store.CountEligible` | eidolon_data/services/voiceprints.py:334-350 | count and total speech of the eligible receipts, with the clock read for each one |
| `PeopleStore.Store.CheckEvidence` | eidolon_data/services/voiceprints.py:281-312 | the first refusal of a new evidence turn, in order, or none |
| `PeopleStore.Store.RecordEvidence` | eidolon_data/services/voiceprints.py:248-323 | replays a known turn, refuses, or commits receipt, activity time and perhaps promotion; answers independent turns |
| `PeopleStore.Store.RecordNewTurn` | eidolon_data/services/voiceprints.py:281-323 | the part of it that handles a turn without a receipt |
| `PeopleStore.Store.AcceptEvidence` | eidolon_data/services/voiceprints.py:313-323 | appends the receipt, moves the activity time forward only, and promotes when due |
| `PeopleStore.Store.PromoteCandidate` | eidolon_data/services/voiceprints.py:325-361 | establishes the row and prepares its realm exactly when the eligible turns and speech suffice |
| `PeopleStore.Store.PreparePromotedMemory` | eidolon_data/services/persons.py:308-322 | activates the realm only if the defaults ask for it, it came from defaults and was never blocked |
| `EnrollmentRuns.AtMostOneCompletionPerRevision` | eidolon_data/services/voiceprints.py:520-596 | after one enrollment completes, no enrollment of the same profile and target revision ever completes, whatever happens in between |
| `EnrollmentRuns.CompletionMovesOneRevision` | eidolon_data/services/voiceprints.py:543-567 | a completion uses three mutually compatible samples that fit template and trial, and moves exactly its profile from the target revision to the next one |
| `EnrollmentRuns.CompletionKeepsTheEvaluatedRecording` | eidolon_data/services/voiceprints.py:568-592 | the stored recording is the evaluated one, superseded evidence of the profile is erased, every other recording and enrollment is untouched |
| `EnrollmentRuns.CompletedEnrollmentsNeverRewrite` | eidolon_data/services/voiceprints.py:533-537 | after any run a completed enrollment is still ready, so completing it again rewrites neither template nor recording and answers only its own profile, or its profile was deleted with it |
| `EnrollmentRuns.DeletedProfileNeverReturns` | eidolon_data/services/voiceprints.py:390-411 | a deleted profile id is never present again in any run |
| `EnrollmentReturns.CompletesAfterDeletionExactlyWhen` | eidolon_data/services/voiceprints.py:520-557 | after a person's profile was deleted an enrollment of that person completes if and only if it was opened for another profile id before the person had any voice and is otherwise ready to complete |
| `EnrollmentReturns.LaterCompletionsWereOpen` | eidolon_data/services/voiceprints.py:390-411 | however much later, an enrollment that existed when the person's profile was deleted completes only if it was then collecting, for another profile id, from before the person had any voice |
| `EnrollmentReturns.OldEnrollmentGivesThePersonANewVoice` | eidolon_data/services/voiceprints.py:432-460 | so per person the claim that a deleted profile never returns fails, in a run from nothing: two enrollments opened before the person had a voice, the first completed and its profile deleted, the second still completes |
| `EnrollmentRuns.RunKeepsSound` | eidolon_data/services/voiceprints.py:635-640 | every run keeps one profile per person, compatible samples of at most three, and enrollments tied to their profile's person |
| `EnrollmentAnswers.OpeningAcceptedExactlyWhen` | eidolon_data/services/voiceprints.py:432-460 | when an enrollment is opened: for an active person, against the present voice and its revision or a fresh id at revision 0; a repeated operation is answered for the same request only |
| `EnrollmentAnswers.CompletionAcceptedExactlyWhen` | eidolon_data/services/voiceprints.py:520-557 | when a first completion happens, read off rows and request: recording, three fitting samples, no other voice of the person, the profile still at the revision opened against |
| `EnrollmentAnswers.CompletionWrites` | eidolon_data/services/voiceprints.py:558-596 | every row a first completion leaves |
| `Enrollment.CompleteEffect` | eidolon_data/services/voiceprints.py:520-596 | a completion changes nothing or is the first one of an unrefused enrollment |
| `EnrollmentStore.Store.FindCurrent` | eidolon_data/services/voiceprints.py:446-447 | answers the person's one profile, or none exactly when there is none |
| `EnrollmentStore.Store.Compatible` | eidolon_data/services/voiceprints.py:635-640 | true exactly when every stored sample has the identity of the given one |
| `EnrollmentStore.Store.CreateEnrollment` | eidolon_data/services/voiceprints.py:432-460 | opens an enrollment against the current revision, or answers the replay of the same operation |
| `EnrollmentStore.Store.View` | eidolon_data/services/voiceprints.py:469-474 | reads the enrollment, expiring it when overdue |
| `EnrollmentStore.Store.Cancel` | eidolon_data/services/voiceprints.py:476-481 | cancels anything not yet ready and drops its samples |
| `EnrollmentStore.Store.ExpireAll` | eidolon_data/services/voiceprints.py:419-430 | expires exactly the overdue collecting enrollments |
| `EnrollmentStore.Store.AddSample` | eidolon_data/services/voiceprints.py:493-509 | adds a compatible sample up to three; a repeated id must carry the same audio |
| `EnrollmentStore.Store.CheckCompletion` | eidolon_data/services/voiceprints.py:538-557 | the first refusal of a completion, in order, or none |
| `EnrollmentStore.Store.WriteCompletion` | eidolon_data/services/voiceprints.py:558-592 | writes profile, recording and enrollments of a completion |
| `EnrollmentStore.Store.FinishEnrollment` | eidolon_data/services/voiceprints.py:577-592 | erases the evidence of superseded enrollments and marks this one ready |
| `EnrollmentStore.Store.Complete` | eidolon_data/services/voiceprints.py:520-596 | refuses, answers the repeat, or commits the completion |
| `EnrollmentStore.Store.DeleteProfile` | eidolon_data/services/voiceprints.py:390-411 | deletes the profile, its recording and its enrollments, or changes nothing |
| `EnrollmentStore.Store.DeleteEnrollments` | eidolon_data/services/voiceprints.py:397-407 | removes exactly the profile's enrollments |
| `PersonaRuns.PointerNeverReturns` | eidolon_data/services/persona_service.py:721-782 | in every run, create_genome included, a genome the pointer has left is never current again |
| `PersonaRuns.CurrentIsCommitted` | eidolon_data/services/persona_service.py:700-704 | in every reachable state the current-genome pointer is at a committed genome of its own companion |
| `PersonaRuns.AtMostOneApprovalPerBase` | eidolon_data/services/persona_service.py:402-502 | after one approval on a base every other proposal on it is refused and committed as stale, in every run |
| `PersonaRuns.StaleEditIsRefused` | eidolon_data/services/persona_service.py:90-96 | an edit written against a genome since left is refused without effect unless it was applied already |
| `PersonaRuns.EditReplayIsExact` | eidolon_data/services/persona_service.py:68-85 | re-sending an accepted edit after any run answers the identical snapshot and changes nothing |
| `PersonaRuns.OperationIdIsTaken` | eidolon_data/services/persona_service.py:71-76 | reusing the operation id with other content conflicts for ever |
| `PersonaRuns.EditIsRecorded` | eidolon_data/services/persona_service.py:151-160 | an accepted edit leaves a receipt from which its answer is rebuilt |
| `PersonaRuns.EditAppliesOnce` | eidolon_data/services/persona_service.py:127-175 | a first application appends at most one genome, on the expected base, moves revisions exactly by what changed, and answers the new state |
| `PersonaRuns.EditMeansItsAction` | eidolon_data/services/persona_service.py:103-126 | rename changes only the name, restore brings back everything else, authoring gives the SDK's text; the pointer moves exactly when it must |
| `PersonaRuns.RestoreIsIdempotent` | eidolon_data/services/persona_service.py:224-227 | restoring the same chapter twice is restoring it once |
| `PersonaRuns.RestoreMeansItsTarget` | eidolon_data/services/persona_service.py:202-239 | a restored chapter is the target's text under the present name, on top of the current genome, and nothing when already current |
| `PersonaRuns.ApprovalActivatesTheProposal` | eidolon_data/services/persona_service.py:443-495 | an approval commits exactly the proposed text on exactly its current base and touches no other genome |
| `PersonaRuns.RunExtends` | eidolon_data/services/persona_service.py:604-646 | in every run genome content is never rewritten, receipts are kept, and pointers move only to genomes not committed before |
| `PersonaAnswers.ProposalWritesTheRequest` | eidolon_data/services/persona_service.py:363-399 | an accepted proposal adds exactly one row, with the requested id and text, the current genome as its base, open, one version above all of the companion's; no other row or pointer changes |
| `PersonaAnswers.ApprovalBringsTheProposedText` | eidolon_data/services/persona_service.py:331-502 | propose, then any run, then an accepted approval of that id: the text that was proposed is current |
| `PersonaAnswers.ApprovalAcceptedExactlyWhen` | eidolon_data/services/persona_service.py:402-502 | when an approval is accepted, and when instead the proposal is committed as stale |
| `PersonaAnswers.EditAcceptedExactlyWhen` | eidolon_data/services/persona_service.py:52-175 | when an edit is accepted: recorded with this content, or new, on the current genome and preferences, and feasible |
| `PersonaAnswers.RenameAcceptedExactlyWhen` | eidolon_data/services/persona_service.py:177-200 | when a companion is renamed, and that a genome is appended exactly when one of the two names differs |
| `PersonaAnswers.RestoreAcceptedExactlyWhen` | eidolon_data/services/persona_service.py:202-239 | when a chapter is restored, and the one row it appends |
| `PersonaHistory.HistoryIsTheBaseChain` | eidolon_data/services/persona_service.py:721-782 | in runs without create_genome the base chain from the current genome, reversed, is exactly the commit history and holds every committed genome |
| `PersonaHistory.VersionsIncrease` | eidolon_data/services/persona_service.py:721-742 | in such runs the current version never falls and rises whenever the pointer moves |
| `PersonaVersions.VersionFallsExactlyWhen` | eidolon_data/services/persona_service.py:241-277 | in every reachable state a command lowers a companion's current version if and only if it is an accepted create_genome of a lower committed version or an accepted approval of a proposal of lower version |
| `PersonaVersions.ReachableHasCurrent` | eidolon_data/services/persona_service.py:700-704 | in every reachable state every companion has a current genome, one of its own |
| `PersonaVersions.CreationLowersTheVersion` | eidolon_data/services/persona_service.py:241-277 | the first does happen, in a run from nothing: version 5 to version 3 |
| `PersonaVersions.ApprovalLowersTheVersion` | eidolon_data/services/persona_service.py:443-495 | and so does the second, by a proposal that create_genome put in |
| `PersonaHistory.WalkEndsAtTheFirst` | eidolon_data/services/persona_service.py:568-574 | on a linear history the walk from any genome ends at the first |
| `PersonaHistory.ResetRestoresTheFirst` | eidolon_data/services/persona_service.py:558-591 | a reset appends the first genome's text under the present name unless it is current already, and a second reset changes nothing |
| `PersonaStore.Store.HighestVersion` | eidolon_data/services/persona_service.py:726-730 | the highest version of the companion's genomes, 0 without any |
| `PersonaStore.Store.Append` | eidolon_data/services/persona_service.py:721-782 | a new committed genome on the current one with the next version, and the pointer and revision moved |
| `PersonaStore.Store.ApplyEdit` | eidolon_data/services/persona_service.py:103-160 | writes name, genome, preferences and receipt of an unrefused edit in that order |
| `PersonaStore.Store.Edit` | eidolon_data/services/persona_service.py:52-175 | commits the edit, answers the replay or refuses without effect |
| `PersonaStore.Store.Rename` | eidolon_data/services/persona_service.py:177-200 | renames companion and genome together or changes nothing |
| `PersonaStore.Store.RestoreFrom` | eidolon_data/services/persona_service.py:224-239 | appends the copy unless the target or a restore of it is current |
| `PersonaStore.Store.RestoreChapter` | eidolon_data/services/persona_service.py:202-239 | restores a committed chapter of the same companion, or refuses; rollback_to_genome is this with an owner |
| `PersonaStore.Store.WalkToOrigin` | eidolon_data/services/persona_service.py:568-574 | the visited-set loop terminates on any base graph, a cyclic one included, at the origin |
| `PersonaStore.Store.ResetToOrigin` | eidolon_data/services/persona_service.py:558-591 | restores from the origin the walk finds |
| `PersonaStore.Store.CreateGenome` | eidolon_data/services/persona_service.py:241-302 | adds the given row with any unused version and any base of the same companion, and moves the pointer if committed |
| `PersonaStore.Store.CreateEvolutionProposal` | eidolon_data/services/persona_service.py:331-400 | adds a proposal on the current genome with the next version |
| `PersonaStore.Store.ApproveEvolution` | eidolon_data/services/persona_service.py:402-502 | approves by compare-and-swap; a conflict is committed as stale and refused |
| `PersonaStore.Store.RejectEvolution` | eidolon_data/services/persona_service.py:504-542 | rejects a proposal still open |
| `PersonaStore.Store.Provision` | eidolon_data/services/owner_workspace.py:1034-1075 | a new companion with its first committed genome |
| `SmartHomeReload.RowsRefineTheProposal` | eidolon_data/services/smarthome.py:113-300 | after every accepted command the rows reload as the answered registry: devices and scenes with their actions as sequences, areas and placements as multisets |
| `SmartHomeReload.ChangeAdvances` | eidolon_data/services/smarthome.py:350-381 | an accepted command moves the home by exactly one revision and one fact and keeps positions distinct |
| `SmartHomeAnswers.AcceptedCommandsAreCarriedOut` | eidolon_data/services/smarthome.py:113-300 | after every accepted command both the answer and the reloaded rows hold exactly the request's area, device, scene or placement under its key, or the key is gone, and every other entry of all four lists as before; created devices and scenes are last, updated ones in their place |
| `SmartHomeAnswers.CommandAcceptedExactlyWhen` | eidolon_data/services/smarthome.py:350-381 | a command is accepted if and only if it names the current revision, nothing listed in the home stands in its way, and the registry it would produce passes |
| `SmartHomeAnswers.RequestAcceptedExactlyWhen` | eidolon_data/services/smarthome.py:350-381 | a request is accepted for an existing owner exactly as its command is by that owner's home, an unwritten home being empty at revision 0 |
| `SmartHomeReload.SampleReadsBack` | eidolon_data/services/smarthome.py:401-448 | a loaded sample reads back as the sample, its positions being the enumeration |
| `SmartHomeRows.CreatedAreaReloadsLast` | eidolon_data/repositories/smarthome.py:45-49 | a created area reloads at the end, where the answer puts it, if and only if no existing area has a higher order |
| `SmartHomeRows.ActionRowsReadBack` | eidolon_data/services/smarthome.py:578-590 | action rows at positions 0, 1, ... read back as the scene's actions in order |
| `SmartHomeRows.SceneUpdated` | eidolon_data/services/smarthome.py:232-247 | replacing a scene's actions whole changes that scene only, in place |
| `SmartHomeRows.DeviceCreated` | eidolon_data/services/smarthome.py:157-172 | a device at the next position reloads after all others |
| `SmartHomeRows.DeviceUpdated` | eidolon_data/services/smarthome.py:174-189 | an updated device keeps its place |
| `SmartHomeRows.DeviceDeleted` | eidolon_data/services/smarthome.py:191-211 | deleting one leaves the others in order |
| `SmartHomeRows.SceneCreated` | eidolon_data/services/smarthome.py:215-230 | a scene at the next position reloads after all others, with its actions |
| `SmartHomeRows.SceneDeleted` | eidolon_data/services/smarthome.py:249-259 | deleting a scene leaves the others and their actions in order |
| `SmartHomeRows.PlacementSet` | eidolon_data/services/smarthome.py:263-289 | setting a placement replaces that device's and no other |
| `SmartHomeRuns.OptimisticWritesAreSound` | eidolon_data/repositories/smarthome.py:25-39 | under any interleaving, if a read took its label first and a write carrying it is then accepted, every row read was exactly the state at that revision, and the read did answer |
| `SmartHomeRuns.LabelIsNeverNewer` | eidolon_data/repositories/smarthome.py:25-39 | without such a write the label is never newer than any table read, and the read is exact when the revision has not moved |
| `SmartHomeRuns.UnmovedReadIsExact` | eidolon_data/repositories/smarthome.py:25-39 | a read during which the revision stood still is exact and never misses a scene |
| `SmartHomeRuns.ReadFailsExactlyWhen` | eidolon_data/repositories/smarthome.py:66-81 | in any run a read that takes its label first raises if and only if some scene that has an action when the actions are queried was not there when the scenes were queried |
| `SmartHomeRuns.FailedReadsCrossACreation` | eidolon_data/repositories/smarthome.py:66-81 | so a read raises only across an accepted scene creation or sample load between its two queries |
| `SmartHomeRuns.NewScenesWereAdded` | eidolon_data/services/smarthome.py:215-230 | a scene that appears between two instants of a run was added by an accepted creation or sample load between them |
| `SmartHomeRuns.TornReadMissesAScene` | eidolon_data/repositories/smarthome.py:66-81 | such a run from an empty database: a device is created, and a scene driving it between the two queries |
| `SmartHomeRuns.OneWinnerPerRevision` | eidolon_data/services/smarthome.py:501-528 | once a write naming a revision is accepted, every later one naming it is refused with the newer current revision |
| `SmartHomeRuns.FactsAreEveryRevision` | eidolon_data/services/smarthome.py:366-381 | in every run a home's audit facts are exactly revisions 1 to current in order |
| `SmartHomeRuns.RunAdvances` | eidolon_data/services/smarthome.py:501-528 | in every run revisions never fall, an unchanged revision means an unchanged home, and facts are only appended |
| `Listing.NextPosition` | eidolon_data/services/smarthome.py:494-498 | one past the highest position in use, 0 for an empty table |
| `Listing.Query` | eidolon_data/repositories/smarthome.py:45-81 | the keys in ORDER BY order |
| `SmartHomeStore.EmptyLists` | eidolon_data/repositories/smarthome.py:65-65 | an empty action list for every scene read |
| `SmartHomeStore.AppendActions` | eidolon_data/repositories/smarthome.py:65-81 | the appending loop gives every scene its actions in position order, or stops at an action whose scene was not read |
| `SmartHomeStore.GroupActions` | eidolon_data/repositories/smarthome.py:65-81 | the dict of action lists, absent exactly when an action's scene was not read |
| `SmartHomeStore.LoadScenes` | eidolon_data/repositories/smarthome.py:57-81 | the scenes by position with their actions |
| `SmartHomeStore.LoadRegistry` | eidolon_data/repositories/smarthome.py:42-117 | answers the registry of the five tables read, or fails exactly when an action's scene is missing |
| `SmartHomeStore.PopulateSample` | eidolon_data/services/smarthome.py:401-448 | the rows of a sample, table by table |
| `SmartHomeStore.Store.Begin` | eidolon_data/services/smarthome.py:350-381 | refuses a bad, unknown or stale revision before the registry is read, else answers rows and registry |
| `SmartHomeStore.Store.CreateArea` | eidolon_data/services/smarthome.py:113-125 | adds the area at the next position; refusals, answer and every home afterwards as specified |
| `SmartHomeStore.Store.UpdateArea` | eidolon_data/services/smarthome.py:127-136 | changes name and order, keeping the position; refusals, answer and every home afterwards as specified |
| `SmartHomeStore.Store.DeleteArea` | eidolon_data/services/smarthome.py:138-153 | deletes an unused area, refuses one in use; refusals, answer and every home afterwards as specified |
| `SmartHomeStore.Store.CreateDevice` | eidolon_data/services/smarthome.py:157-172 | adds the device at the next position; refusals, answer and every home afterwards as specified |
| `SmartHomeStore.Store.UpdateDevice` | eidolon_data/services/smarthome.py:174-189 | changes the columns, keeping the position; refusals, answer and every home afterwards as specified |
| `SmartHomeStore.Store.DeleteDevice` | eidolon_data/services/smarthome.py:191-211 | deletes a device no scene drives; refusals, answer and every home afterwards as specified |
| `SmartHomeStore.Store.CreateScene` | eidolon_data/services/smarthome.py:215-230 | adds the scene and its action rows; refusals, answer and every home afterwards as specified |
| `SmartHomeStore.Store.UpdateScene` | eidolon_data/services/smarthome.py:232-247 | replaces the scene and its actions whole; refusals, answer and every home afterwards as specified |
| `SmartHomeStore.Store.DeleteScene` | eidolon_data/services/smarthome.py:249-259 | deletes the scene and its actions; refusals, answer and every home afterwards as specified |
| `SmartHomeStore.Store.SetPlacement` | eidolon_data/services/smarthome.py:263-289 | sets the device's placement; refusals, answer and every home afterwards as specified |
| `SmartHomeStore.Store.ClearPlacement` | eidolon_data/services/smarthome.py:291-300 | clears an existing placement; refusals, answer and every home afterwards as specified |
| `SmartHomeStore.Store.LoadSample` | eidolon_data/services/smarthome.py:331-346 | fills an empty home with the sample, refuses any other |
| `SmartHomeStore.Store.InitializeOwnerHome` | eidolon_data/services/smarthome.py:384-398 | onboarding without reading the home is the same as loading the sample at revision 0 |
| `SmartHomeStore.Store.FillHomes` | eidolon_data/services/smarthome.py:320-329 | each listed owner gets the sample home, nobody else changes |
| `SmartHomeStore.Store.InitializeDefaultHomes` | eidolon_data/services/smarthome.py:304-329 | every active owner without a home gets the packaged one; homes ever written stay as they are |
| `TeamsRuns.RunsAreExclusive` | eidolon_data/services/teams.py:171-226 | in every reachable state active is s exactly when (owner, s) is the team's one open start, deleted teams have none, starts pin saved revisions, and saved revisions are exactly 1 to current |
| `TeamsRuns.RunExtends` | eidolon_data/services/teams.py:32-99 | in every run saved revisions are never rewritten, closed is permanent, and a selection is set at most once and only while open |
| `TeamsRuns.RetriedSaveAnswersAgain` | eidolon_data/services/teams.py:48-61 | the retry of an accepted save answers its result after any run, if the team is not deleted and the owner active |
| `TeamsRuns.OneWinnerPerRevision` | eidolon_data/services/teams.py:48-61 | of saves naming one revision with different content at most one is ever accepted |
| `TeamsRuns.SavedIsRecorded` | eidolon_data/services/teams.py:77-98 | an accepted save is recorded as exactly the next revision of the expected one |
| `TeamsRuns.SaveAppendsOneRevision` | eidolon_data/services/teams.py:77-98 | a save writes one new revision and the current pointer and nothing else; get then answers it |
| `TeamsAnswers.SaveAcceptedExactlyWhen` | eidolon_data/services/teams.py:16-99 | a save is accepted if and only if it names the team's present revision and all members are the owner's active companions, or it repeats what was saved next |
| `TeamsAnswers.GetAnswersTheLastSave` | eidolon_data/services/teams.py:101-129 | a team is read if and only if it is there, and the answer is the last revision saved |
| `TeamsRuns.ReservationPins` | eidolon_data/services/teams.py:171-226 | a reservation makes the session the open run, pinned to the named revision and answered with its content |
| `TeamsRuns.OpenRunExcludes` | eidolon_data/services/teams.py:184-205 | while a run is open no other session starts, the team is not deleted, and asking again answers the same without effect |
| `TeamsRuns.ReservationIsExclusive` | eidolon_data/services/teams.py:171-226 | all of that from a reservation until its run is closed, whatever else happens in between |
| `TeamsAnswers.ReservationAcceptedExactlyWhen` | eidolon_data/services/teams.py:171-226 | a new session is accepted if and only if the owner is active and the team on that host, undeleted, idle and at exactly the expected revision; the open run if and only if it names its pinned revision; nothing else, and a refusal changes nothing |
| `TeamsRuns.ClosingFreesTheTeam` | eidolon_data/services/teams.py:228-266 | closing ends exactly this run; closing again changes at most the terminal status |
| `TeamsRuns.ClosedRunsStayClosed` | eidolon_data/services/teams.py:206-211 | a closed run never starts again and gains no selection |
| `TeamsRuns.DeletedTeamsStayDeleted` | eidolon_data/services/teams.py:268-287 | a deleted team stays deleted and accepts no save and no start |
| `TeamsRuns.FirstSelectionWins` | eidolon_data/services/teams.py:316-350 | the first accepted selection is what every later snapshot of the run shows |
| `TeamsAnswers.ClosingAcceptedExactlyWhen` | eidolon_data/services/teams.py:228-266 | a close is accepted if and only if it is for a start of that team on that host, with evidence of its own closing or none |
| `TeamsAnswers.DeletionAcceptedExactlyWhen` | eidolon_data/services/teams.py:268-287 | a team is deleted if and only if it has no open run and is at the expected revision, and is only marked |
| `TeamsAnswers.SnapshotAcceptedExactlyWhen` | eidolon_data/services/teams.py:316-350 | when a start is read and when a selection is taken; only the first selection is ever written |
| `TeamsStore.Store.AllAvailable` | eidolon_data/services/teams.py:62-76 | true exactly when every member is an active companion of the owner |
| `TeamsStore.Store.Save` | eidolon_data/services/teams.py:16-99 | answers the replay, refuses, or commits the next revision |
| `TeamsStore.Store.Get` | eidolon_data/services/teams.py:101-129 | the current revision of an undeleted team on its host |
| `TeamsStore.Store.ReserveStart` | eidolon_data/services/teams.py:171-226 | reserves by guarded update and rolls back on every later refusal |
| `TeamsStore.Store.ConfirmClosed` | eidolon_data/services/teams.py:228-266 | closes the start and frees the team if it was its active run |
| `TeamsStore.Store.Delete` | eidolon_data/services/teams.py:268-287 | deletes an idle team at the expected revision |
| `TeamsStore.Store.StartSnapshot` | eidolon_data/services/teams.py:316-350 | reads the start, or accepts a selection that resolves, keeping the first |
| `Workspace.DefaultCanAlwaysAnswer` | eidolon_data/repositories/companions.py:63-83 | over every run a set default names an owned, active, non-guard companion, so the default query answers exactly when one is set |
| `Workspace.OnlyTheseClearTheDefault` | eidolon_data/services/owner_workspace.py:225-249 | a default is cleared exactly by archiving its active owner or by a forced deletion of the default itself |
| `Workspace.ArchiveNeverMeetsTheDefault` | eidolon_data/services/owner_workspace.py:598-633 | the default refusal inside _archive is unreachable, and archiving succeeds exactly from retiring at the named revision |
| `Workspace.PutAwayIsRetireThenArchive` | eidolon_data/services/owner_workspace.py:635-685 | putting away equals retire then archive and is refused exactly when retirement is, if and only if the companion is not already archived |
| `Workspace.PutAwayLeaves` | eidolon_data/services/owner_workspace.py:504-633 | the companion archived, the default moved to the named replacement if it was the default, every other companion untouched |
| `Workspace.RetiringIgnoresTheCallersRevision` | eidolon_data/services/owner_workspace.py:520-521 | a retiring companion is put away whatever revision the caller read |
| `WorkspaceAnswers.RetirementAcceptedExactlyWhen` | eidolon_data/services/owner_workspace.py:465-567 | when a companion retires: at its revision, and as the default only with a stand-in that can answer; the rows afterwards |
| `WorkspaceAnswers.DefaultNotReplaced` | eidolon_data/services/owner_workspace.py:1196-1237 | which of the three refusals meets the retirement of a default, if and only if nobody could stand in, nobody was named, or the one named cannot |
| `WorkspaceAnswers.ArchivingAcceptedExactlyWhen` | eidolon_data/services/owner_workspace.py:569-633 | when a companion is archived, in every sound state |
| `WorkspaceAnswers.PuttingAwayAcceptedExactlyWhen` | eidolon_data/services/owner_workspace.py:635-685 | when a companion is put away, and the rows that leaves |
| `Workspace.RunKeepsSound` | eidolon_data/services/owner_workspace.py:1034-1041 | every command keeps the default invariant |
| `WorkspaceStore.Store.EligibleReplacement` | eidolon_data/services/owner_workspace.py:1196-1237 | nobody else, nobody named, the named one, or ineligible, in that order |
| `WorkspaceStore.Store.Retire` | eidolon_data/services/owner_workspace.py:504-567 | moves the default before the companion stops answering |
| `WorkspaceStore.Store.Archive` | eidolon_data/services/owner_workspace.py:598-633 | archives from retiring only |
| `WorkspaceStore.Store.BeginRetirement` | eidolon_data/services/owner_workspace.py:465-502 | retirement of an owned companion |
| `WorkspaceStore.Store.ArchiveCompanion` | eidolon_data/services/owner_workspace.py:569-596 | archiving of an owned companion |
| `WorkspaceStore.Store.PutAway` | eidolon_data/services/owner_workspace.py:635-685 | both halves in one transaction |
| `WorkspaceStore.Store.Restore` | eidolon_data/services/owner_workspace.py:687-720 | an archived companion becomes active, and nothing else changes |
| `WorkspaceStore.Store.SetDefault` | eidolon_data/services/owner_workspace.py:722-770 | points the default at an active non-guard companion, tolerant of a stale revision only when already so |
| `WorkspaceStore.Store.Provision` | eidolon_data/services/owner_workspace.py:1010-1044 | a new companion, becoming the default when there is none and it is no guard |
| `WorkspaceStore.Store.ArchiveActive` | eidolon_data/services/owner_workspace.py:236-247 | archives exactly the owner's active companions |
| `WorkspaceStore.Store.ArchiveOwner` | eidolon_data/services/owner_workspace.py:225-254 | archives the owner and its active companions and clears the default |
| `WorkspaceStore.Store.DeleteCompanion` | eidolon_data/services/companion.py:38-108 | deletes an owned companion, a default one only when forced, clearing the pointer |
| `WorkspaceStore.Store.DefaultFor` | eidolon_data/repositories/companions.py:63-83 | the companion the default is set to, if it can answer |
| `OutboxRuns.DeliveredOnlyIfAcknowledged` | eidolon_data/audit/dispatcher.py:32-72 | under any interleaving of dispatchers, enqueues, purges and stops an event is published or gone only if the transport acknowledged it; until then its row stays |
| `OutboxRuns.PublishedRowsAreFinal` | eidolon_data/audit/outbox.py:180-219 | a published row is never rescheduled, altered or unpublished |
| `OutboxRuns.SettlingMeans` | eidolon_data/audit/dispatcher.py:45-72 | each fetched event ends published if acknowledged and otherwise one attempt and one delay further on; every other row is untouched |
| `OutboxRuns.SettledIsItsSteps` | eidolon_data/audit/dispatcher.py:45-72 | what follows a fetch is the dispatcher's three further steps |
| `OutboxRuns.DispatchIsItsSteps` | eidolon_data/audit/dispatcher.py:32-44 | and its fetch is the first step, so claims about interleaved runs cover dispatch_once |
| `OutboxRuns.BatchSize` | eidolon_data/audit/outbox.py:163-178 | a batch holds as many due events as there are up to the limit |
| `OutboxRuns.BatchIsTheOldest` | eidolon_data/audit/outbox.py:163-178 | a batch is strictly increasing in sequence, and every due event left out has a higher sequence than all of it |
| `OutboxRuns.InTheBatchExactlyWhen` | eidolon_data/audit/outbox.py:163-178 | an event is in the batch if and only if it is due and fewer older events are due than the limit |
| `OutboxRuns.NoneOvertakes` | eidolon_data/audit/dispatcher.py:32-72 | when a dispatch publishes an event, every older due one was fetched with it and is published too or one failed attempt further |
| `OutboxRuns.EnqueuedIsLast` | eidolon_data/audit/outbox.py:88-100 | a new event is due at once behind exactly the events due already; a known id changes nothing |
| `OutboxRuns.AcknowledgedDispatch` | eidolon_data/audit/dispatcher.py:63-72 | a dispatch with everything acknowledged publishes exactly its batch and fails nothing, whatever its three clock readings |
| `OutboxRuns.DrainTakesABatchARound` | eidolon_data/audit/dispatcher.py:32-72 | k fully acknowledged rounds take k batches off the due events |
| `OutboxRuns.DrainsInCeilingRounds` | eidolon_data/audit/dispatcher.py:32-72 | n due events are drained exactly from ceil(n / batch) rounds on, when nothing else falls due in between |
| `Outbox.DelayIsMonotone` | eidolon_data/audit/dispatcher.py:75-83 | the delay never exceeds the maximum, and never shrinks with the attempt count if and only if the base is not negative or the delay is constant |
| `Outbox.DelayDoubles` | eidolon_data/audit/dispatcher.py:75-83 | the delay is the base at first, doubles with each of sixteen attempts and stays, never above the maximum |
| `Outbox.RunFollows` | eidolon_data/audit/outbox.py:180-229 | the invariant of every interleaved step behind these claims |
| `OutboxStore.Repository.PendingBatch` | eidolon_data/audit/outbox.py:163-178 | the first due rows in sequence order and their highest attempt count |
| `OutboxStore.Repository.MostAttempts` | eidolon_data/audit/outbox.py:163-178 | the highest attempt count of a batch, 0 for none |
| `OutboxStore.Repository.MarkPublished` | eidolon_data/audit/outbox.py:180-196 | publishes exactly the named rows not yet published |
| `OutboxStore.Repository.MarkFailed` | eidolon_data/audit/outbox.py:198-219 | reschedules exactly the named rows not yet published |
| `OutboxStore.Repository.Settle` | eidolon_data/audit/dispatcher.py:45-72 | publishes the acknowledged and reschedules the missing, or reschedules all when the transport raised |
| `OutboxStore.Repository.DispatchOnce` | eidolon_data/audit/dispatcher.py:32-72 | one dispatch: the table it leaves and the count it answers |
| `Paging.Page` | eidolon_data/repositories/companions.py:33-61 | the first rows beyond the cursor in key order, and a next cursor exactly when rows remain |
| `Paging.Select` | eidolon_data/repositories/companions.py:53-61 | the query: rows beyond the cursor, in order, up to the limit |
| `Paging.WalksAreExact` | eidolon_data/api/companion_authority.py:389-413 | following cursors from the start answers every row present throughout exactly once, in order, despite inserts and deletions between pages |
| `Paging.TrailIsOrdered` | eidolon_data/services/teams.py:131-169 | the pages read so far hold strictly increasing keys, so no row twice |
| `Paging.WalkIsComplete` | eidolon_data/audit/outbox.py:105-144 | a walk answers every row that was there at every fetch |
| `Paging.TrailAnswersRowsOfItsTables` | eidolon_data/services/teams.py:293-313 | no page answers a row that was never there |
| `Paging.CursorsRunOut` | eidolon_data/api/companion_authority.py:389-413 | any chain of pages that all still point on has at most n / limit pages over n rows ever present, so following cursors cannot go on for ever |
| `Paging.TrailIsFull` | eidolon_data/repositories/companions.py:53-61 | every page that points on is full: n such pages hold n times the limit |
| `Paging.Follow` | eidolon_data/api/companion_authority.py:389-413 | a client following cursors while others write stops, and what it was answered is a walk from the start to a page that points nowhere |
| `Paging.DescendingWalksFall` | eidolon_data/audit/outbox.py:122-133 | the newest-first pages of starts and outbox rows hold strictly falling ids, across pages too |
| `Cursor.CursorRoundTrips` | eidolon_data/api/companion_authority.py:226-244 | a cursor decodes to the key it was made of exactly when the companion id is not empty, and is refused otherwise |
| `Cursor.PaddingIsRecomputed` | eidolon_data/api/companion_authority.py:226-239 | the padding stripped is exactly what the length makes one put back |
| `Cursor.Decodes64` | eidolon_data/api/companion_authority.py:226-239 | the library's forgiving decoding inverts encoding for every byte string |
| `Cursor.EncodesAsTheStandard` | eidolon_data/api/companion_authority.py:226-228 | the encoding is that of RFC 4648: its test vectors and its URL-safe letters |
| `Cursor.CursorsAreDistinct` | eidolon_data/api/companion_authority.py:226-228 | different keys have different cursors |
| `Cursor.EncodingsAreCanonical` | eidolon_data/api/companion_authority.py:226-228 | every stripped encoding is canonical: URL-safe letters only, not one over whole groups, no spare bit set in the last letter |
| `Cursor.CanonicalReencodes` | eidolon_data/api/companion_authority.py:226-239 | every canonical string is readable and is the stripped encoding of the bytes read, so these are exactly the encodings |
| `Cursor.DecodedIsIssuedExactlyWhen` | eidolon_data/api/companion_authority.py:231-244 | an accepted cursor is one the server issues if and only if it is canonical and spells the time as the server does, and then it was issued for the key it decodes to |
| `Cursor.AcceptedLikeItsCanonicalForm` | eidolon_data/api/companion_authority.py:231-244 | every accepted cursor decodes as one canonical cursor does, which is itself exactly when it is canonical |
| `Cursor.OwnPaddingIsAccepted` | eidolon_data/api/companion_authority.py:231-244 | any issued cursor with one "=" more is accepted for the same key and was issued for none |
| `Cursor.SpareBitsAreAccepted` | eidolon_data/api/companion_authority.py:231-244 | so is, with URL-safe letters alone, a cursor whose last letter has spare bits set, for every key whose bytes are one over groups of three |
| `Cursor.RefusedExactlyWhen` | eidolon_data/api/companion_authority.py:231-239 | any string at all is unreadable base64 exactly when it is not ASCII or, padded to length, its data characters leave a group open and no padding completes one, the padding inside it included |
| `Cursor.LettersRefusedExactlyWhen` | eidolon_data/api/companion_authority.py:231-239 | of the cursors made of base64 letters alone exactly those one letter longer than whole groups are refused |
| `Cursor.ForeignCharactersAreSkipped` | eidolon_data/api/companion_authority.py:231-239 | characters outside the alphabet never change the bytes read from a padded cursor |
| `PersonFaces.StoppingAnywhereIsConsistent` | eidolon_data/services/person_faces.py:66-97 | stopping after any step leaves every committed row naming an object that exists, with the old row or the new one |
| `PersonFaces.FailingBeforeCommitChangesNothing` | eidolon_data/services/person_faces.py:90-93 | an exception before the commit leaves no new object and no new row |
| `PersonFaces.CompletionLeavesTheCurrentObject` | eidolon_data/services/person_faces.py:94-97 | a completed change leaves exactly the current object for its slot and touches no other |
| `PersonFaces.RaisingIsConsistentExactlyWhen` | eidolon_data/services/person_faces.py:90-93 | an exception leaves rows naming their objects if and only if it does not fall between commit and leaving the try of a replacement |
| `PersonFaces.RunsKeepRowsNamed` | eidolon_data/services/person_faces.py:66-97 | over any run of changes one after another, however each ends outside that gap, every row names its object |
| `PersonFaceRaces.RowsStayNamedExactlyWhen` | eidolon_data/services/person_faces.py:66-97 | over every interleaving of changes in flight, exceptions and process stops: rows name existing objects throughout if and only if no change that failed behind its commit deletes its photo while its row still has it |
| `PersonFaceRaces.InterleavedChangesKeepRowsNamed` | eidolon_data/services/person_faces.py:66-97 | so every interleaving is safe when no exception falls between the commit of a photo and leaving the try |
| `PersonFaceRaces.SettledObjectsAreTheNamedOnes` | eidolon_data/services/person_faces.py:66-97 | when interleaved changes end without a stop or an exception behind a commit, the stored objects are exactly those the rows name |
| `PersonFaceRaces.AloneIsTheChange` | eidolon_data/services/person_faces.py:66-97 | with nothing in between the interleaved steps are the change as described, for every way it ends |
| `PersonFaces.Store.Change` | eidolon_data/services/person_faces.py:66-97 | the change step by step, ending as told: rows and objects as specified |

## Left out

- HTTP handlers, authentication, request models, settings, the command line, migrations, SQLite pragmas and the benchmark: plumbing without a hard property.
- Owner hard deletion and re-creation of the same owner id: it resets revisions and cascades, so the compare-and-swap and fact-sequence claims are for runs without it.
- Audit facts of persons, personas, teams and companions: written beside the rows and never read back by these commands; the registry's facts are modelled because their numbering is claimed. A collision of caller-supplied fact ids, which would roll a command back, is therefore not a refusal of the model.
- PeopleStore.Store.Archive: leaves out the removal of the person's photo, which deletes the object before the commit.
- PeopleStore.Store.SweepExpired: does not fix which expired candidates the query selects; any selection without repetition is covered.
- People and enrollment are two models over the same profile table: in `People` a completed enrollment appears as a profile write, in `Enrollment` the persons appear as a table of owners and activity that may change at any time.
- EnrollmentStore.Store.CreateEnrollment: assumes the invariant of one profile per person, the table's unique key, when it looks the profile up.
- PersonaRuns.RunExtends: runs are without deletion of a companion (`companion.py`), which removes its genomes and receipts; so are all claims over persona runs.
- PersonaStore.Store.CreateGenome: takes the genome text as given; building the default one is the SDK's.
- Persona provenance (origin and base inside the genome document) is compared by no command and not modelled.
- SmartHomeStore.Store.InitializeDefaultHomes: runs its owners one after another without other writers in between; interleaved writers are covered by `SmartHomeRuns`.
- Listing.Query: ranks are integer pairs, as every ORDER BY modelled here has at most two columns.
- Outbox.RunFollows: identifies what was acknowledged by event id, as the source does, so a row written anew under a purged event id counts as acknowledged with it.
- OutboxRuns.DrainsInCeilingRounds: is for rounds between which nothing else falls due and nothing is enqueued.
- Cursor.CursorRoundTrips: creation time formatting and UTF-8 validity are assumed to round-trip.
- Paging.Page: the rows' other columns ride along with their keys and are not modelled.
- PersonFaces.Store.Change: assumes the object store's own put and delete either happen or do not, and that deleting the new object does not itself fail.
- Owner profile, display name and the other settings: of create_owner and update_owner only the memory defaults are modelled (`People.UpdateOwner`), a creation with settings as a creation and an update.
- Workspace provisioning and onboarding replays, guard bindings, companion and owner faces, artwork and default realms: only easy claims.
- Log reporting, the maintenance loops and the transport, which is an arbitrary acknowledged set or a failure.
