/**
 * Photo changes in flight at once. Transactions exclude each other, but what a change deletes it deletes afterwards, when
 * others may have begun, committed or failed; and the process may stop at any time.
 */
module PersonFaceRaces {
  import opened Core
  import opened PersonFaces

  type JobId = int

  /** A change that passed its checks: the key its row had then, how far it came, whether an exception was raised in its try. */
  datatype Job = Job(request: Request, previous: Option<Key>, stage: Stage, raised: bool)

  /** writer is the change whose transaction is open. */
  datatype System = System(world: World, jobs: map<JobId, Job>, writer: Option<JobId>)

  datatype Event =
    | Starts(id: JobId, request: Request)
    | Proceeds(id: JobId)
    | Fails(id: JobId)
    | Crashes
    | Others(people: map<PersonId, Person>)

  function Idle(w: World): System {
    System(w, map[], None)
  }

  /** Its transaction is open. */
  predicate Writing(j: Job) {
    !j.raised && (j.stage == Checked || j.stage == Stored)
  }

  function Started(s: System, id: JobId, r: Request): System {
    if s.writer.Some? || id in s.jobs || CheckRefusal(s.world, r).Some? then s
    else s.(jobs := s.jobs[id := Job(r, FaceOf(s.world, r.person).key, Checked, false)], writer := Some(id))
  }

  /** The next step of a change: after an exception, deleting the new object; otherwise put, commit, leave the try, delete the
      previous object. */
  function Next(s: System, id: JobId): System
    requires id in s.jobs
  {
    var (w, j) := (s.world, s.jobs[id]);
    var r := j.request;
    if j.raised then System(w.(objects := Without(w.objects, NewKey(r))), s.jobs - {id}, s.writer)
    else match j.stage
      case Checked => System(w.(objects := WithNew(w, r)), s.jobs[id := j.(stage := Stored)], s.writer)
      case Stored => System(w.(faces := w.faces[r.person := Face(r.expected + 1, NewKey(r))]), s.jobs[id := j.(stage := Committed)], None)
      case Committed => s.(jobs := s.jobs[id := j.(stage := LeftTry)])
      case _ => System(w.(objects := Without(w.objects, j.previous)), s.jobs - {id}, s.writer)
  }

  /** An exception: before the commit it rolls back, in the try it leads to deleting the new object, later it ends the change. */
  function Failed(s: System, id: JobId): System
    requires id in s.jobs
  {
    var j := s.jobs[id];
    if j.raised || j.stage == LeftTry || j.stage == Finished then s.(jobs := s.jobs - {id})
    else System(s.world, s.jobs[id := j.(raised := true)], if Writing(j) then None else s.writer)
  }

  function Step(s: System, e: Event): System {
    match e
    case Starts(id, r) => Started(s, id, r)
    case Proceeds(id) => if id in s.jobs then Next(s, id) else s
    case Fails(id) => if id in s.jobs then Failed(s, id) else s
    case Crashes => Idle(s.world)
    case Others(people) => if s.writer.Some? then s else s.(world := s.world.(people := people))
  }

  function Run(s: System, es: seq<Event>): System
    decreases |es|
  {
    if es == [] then s else Run(Step(s, es[0]), es[1..])
  }

  // ----- The invariant ----------------------------------------------------------

  ghost predicate Named(w: World, key: Key) {
    exists person :: person in w.faces && w.faces[person].key == Some(key)
  }

  /** The row is as the open transaction read it; the new key is in no row and in no other change. */
  ghost predicate WriterSound(s: System, id: JobId)
    requires id in s.jobs
  {
    var j := s.jobs[id];
    && s.writer == Some(id) && FaceOf(s.world, j.request.person) == Face(j.request.expected, j.previous)
    && (j.request.photo ==>
          && !Named(s.world, j.request.key) && (j.stage == Stored ==> j.request.key in s.world.objects)
          && forall k | k in s.jobs && k != id :: s.jobs[k].previous != Some(j.request.key) && s.jobs[k].request.key != j.request.key)
  }

  /** What the change may still delete is in no row, except that an exception behind the commit may catch its own key there. */
  ghost predicate JobSound(s: System, id: JobId)
    requires id in s.jobs
  {
    var j := s.jobs[id];
    && j.stage != Finished
    && (Writing(j) ==> WriterSound(s, id))
    && (!j.raised && !Writing(j) && j.previous.Some? ==> !Named(s.world, j.previous.value))
    && (j.raised && j.stage != Committed && j.request.photo ==> !Named(s.world, j.request.key))
    && (forall person | person in s.world.faces && NewKey(j.request).Some? ::
          s.world.faces[person].key == NewKey(j.request) ==> person == j.request.person)
  }

  ghost predicate Inv(s: System) {
    && Sound(s.world)
    && (s.writer.Some? ==> s.writer.value in s.jobs && Writing(s.jobs[s.writer.value]))
    && forall id | id in s.jobs :: JobSound(s, id)
  }

  /** A generated key is in no row, no object and no change. */
  ghost predicate Fresh(s: System, e: Event) {
    e.Starts? ==>
      FreshKey(s.world, e.request.key)
      && forall id | id in s.jobs :: s.jobs[id].previous != Some(e.request.key) && s.jobs[id].request.key != e.request.key
  }

  /** An exception behind its commit makes a photo change delete the object that its row still names. */
  predicate Harmful(s: System, e: Event) {
    e.Proceeds? && e.id in s.jobs
    && var j := s.jobs[e.id];
       j.raised && j.stage == Committed && j.request.photo && FaceOf(s.world, j.request.person).key == Some(j.request.key)
  }

  lemma StartKeepsInv(s: System, id: JobId, r: Request)
    requires Inv(s) && Fresh(s, Starts(id, r))
    ensures Inv(Started(s, id, r))
  {
    var u := Started(s, id, r);
    forall k | k in u.jobs ensures JobSound(u, k) {
      if k in s.jobs { assert JobSound(s, k); }
    }
  }

  lemma PutKeepsInv(s: System, id: JobId)
    requires Inv(s) && id in s.jobs && !s.jobs[id].raised && s.jobs[id].stage == Checked
    ensures Inv(Next(s, id))
  {
    var u := Next(s, id);
    assert JobSound(s, id);
    forall k | k in u.jobs ensures JobSound(u, k) { assert JobSound(s, k); }
  }

  lemma CommitKeepsInv(s: System, id: JobId)
    requires Inv(s) && id in s.jobs && !s.jobs[id].raised && s.jobs[id].stage == Stored
    ensures Inv(Next(s, id))
  {
    var (u, r) := (Next(s, id), s.jobs[id].request);
    assert JobSound(s, id);
    forall key | Named(u.world, key) ensures NewKey(r) == Some(key) || (Named(s.world, key) && s.jobs[id].previous != Some(key)) {
      var person :| person in u.world.faces && u.world.faces[person].key == Some(key);
      if person != r.person { assert s.world.faces[person].key == Some(key); }
    }
    forall k | k in u.jobs ensures JobSound(u, k) { assert JobSound(s, k); }
  }

  lemma LeaveKeepsInv(s: System, id: JobId)
    requires Inv(s) && id in s.jobs && !s.jobs[id].raised && s.jobs[id].stage == Committed
    ensures Inv(Next(s, id))
  {
    var u := Next(s, id);
    forall k | k in u.jobs ensures JobSound(u, k) { assert JobSound(s, k); }
  }

  /** Deleting an object that no row names and no open transaction is about to name. */
  lemma DeletionKeepsInv(s: System, id: JobId, key: Option<Key>)
    requires Inv(s) && id in s.jobs && !Writing(s.jobs[id])
    requires key.Some? ==> !Named(s.world, key.value) && (s.jobs[id].previous == key || s.jobs[id].request.key == key.value)
    ensures Inv(System(s.world.(objects := Without(s.world.objects, key)), s.jobs - {id}, s.writer))
  {
    var u := System(s.world.(objects := Without(s.world.objects, key)), s.jobs - {id}, s.writer);
    assert s.writer != Some(id);
    forall person | person in u.world.faces && u.world.faces[person].key.Some? ensures u.world.faces[person].key.value in u.world.objects {
      assert Named(s.world, u.world.faces[person].key.value);
    }
    forall k | k in u.jobs ensures JobSound(u, k) { assert JobSound(s, k); }
  }

  lemma ProceedKeepsInv(s: System, id: JobId)
    requires Inv(s) && id in s.jobs && !Harmful(s, Proceeds(id))
    ensures Inv(Next(s, id))
  {
    var j := s.jobs[id];
    assert JobSound(s, id);
    if j.raised {
      DeletionKeepsInv(s, id, NewKey(j.request));
    } else {
      match j.stage
      case Checked => PutKeepsInv(s, id);
      case Stored => CommitKeepsInv(s, id);
      case Committed => LeaveKeepsInv(s, id);
      case _ => DeletionKeepsInv(s, id, j.previous);
    }
  }

  lemma FailureKeepsInv(s: System, id: JobId)
    requires Inv(s) && id in s.jobs
    ensures Inv(Failed(s, id))
  {
    var u := Failed(s, id);
    assert JobSound(s, id);
    forall k | k in u.jobs ensures JobSound(u, k) { assert JobSound(s, k); }
  }

  lemma StepKeepsInv(s: System, e: Event)
    requires Inv(s) && Fresh(s, e) && !Harmful(s, e)
    ensures Inv(Step(s, e))
  {
    match e
    case Starts(id, r) => StartKeepsInv(s, id, r);
    case Proceeds(id) => if id in s.jobs { ProceedKeepsInv(s, id); }
    case Fails(id) => if id in s.jobs { FailureKeepsInv(s, id); }
    case Crashes =>
    case Others(people) =>
      forall k | k in s.jobs ensures JobSound(Step(s, e), k) { assert JobSound(s, k); }
  }

  lemma HarmBreaks(s: System, e: Event)
    requires Harmful(s, e)
    ensures !AllNamed(Step(s, e).world)
  {
    var r := s.jobs[e.id].request;
    assert Step(s, e).world.faces[r.person].key == Some(r.key);
  }

  // ----- Runs -------------------------------------------------------------------

  ghost predicate AllFresh(s: System, es: seq<Event>)
    decreases |es|
  {
    es == [] || (Fresh(s, es[0]) && AllFresh(Step(s, es[0]), es[1..]))
  }

  /** At every moment of the run every committed row names an object that exists. */
  ghost predicate AlwaysNamed(s: System, es: seq<Event>)
    decreases |es|
  {
    AllNamed(s.world) && (es == [] || AlwaysNamed(Step(s, es[0]), es[1..]))
  }

  ghost predicate NoneHarmful(s: System, es: seq<Event>)
    decreases |es|
  {
    es == [] || (!Harmful(s, es[0]) && NoneHarmful(Step(s, es[0]), es[1..]))
  }

  /** However changes interleave, fail and crash: rows name existing objects throughout exactly when no change that failed
      behind its commit gets to delete its photo while its row still has it. */
  lemma {:induction false} RowsStayNamedExactlyWhen(s: System, es: seq<Event>)
    requires Inv(s) && AllFresh(s, es)
    ensures AlwaysNamed(s, es) <==> NoneHarmful(s, es)
    decreases |es|
  {
    if es != [] {
      if Harmful(s, es[0]) {
        HarmBreaks(s, es[0]);
      } else {
        StepKeepsInv(s, es[0]);
        RowsStayNamedExactlyWhen(Step(s, es[0]), es[1..]);
      }
    }
  }

  /** No exception falls between the commit of a photo and leaving the try. */
  ghost predicate NoneInTheGap(s: System, es: seq<Event>)
    decreases |es|
  {
    es == [] ||
    (!(es[0].Fails? && es[0].id in s.jobs && !s.jobs[es[0].id].raised && s.jobs[es[0].id].stage == Committed && s.jobs[es[0].id].request.photo)
     && NoneInTheGap(Step(s, es[0]), es[1..]))
  }

  ghost predicate NoneCaught(s: System) {
    forall id | id in s.jobs :: !(s.jobs[id].raised && s.jobs[id].stage == Committed && s.jobs[id].request.photo)
  }

  lemma {:induction false} NoGapNoHarm(s: System, es: seq<Event>)
    requires NoneCaught(s) && NoneInTheGap(s, es)
    ensures NoneHarmful(s, es)
    decreases |es|
  {
    if es != [] { NoGapNoHarm(Step(s, es[0]), es[1..]); }
  }

  /** So outside that gap every interleaving is safe. */
  lemma InterleavedChangesKeepRowsNamed(w: World, es: seq<Event>)
    requires Sound(w) && AllFresh(Idle(w), es) && NoneInTheGap(Idle(w), es)
    ensures AlwaysNamed(Idle(w), es)
  {
    NoGapNoHarm(Idle(w), es);
    RowsStayNamedExactlyWhen(Idle(w), es);
  }

  // ----- No object is left behind -----------------------------------------------

  /** An object the change will still put in a row or delete. */
  predicate Holds(j: Job, key: Key) {
    if j.raised || j.stage == Stored then NewKey(j.request) == Some(key)
    else (j.stage == Committed || j.stage == LeftTry) && j.previous == Some(key)
  }

  ghost predicate Held(s: System, key: Key) {
    exists id :: id in s.jobs && Holds(s.jobs[id], key)
  }

  /** Every object is in a row or in the hands of a change that is still running. */
  ghost predicate NoStrays(s: System) {
    && (forall id | id in s.jobs && s.jobs[id].raised :: s.jobs[id].stage == Checked || s.jobs[id].stage == Stored)
    && forall key | key in s.world.objects :: Named(s.world, key) || Held(s, key)
  }

  /** The process does not stop, and exceptions come before the commit. */
  predicate Tidy(s: System, e: Event) {
    !e.Crashes? && (e.Fails? && e.id in s.jobs ==> Writing(s.jobs[e.id]))
  }

  lemma ProceedLeavesNoStrays(s: System, id: JobId)
    requires Inv(s) && NoStrays(s) && id in s.jobs
    ensures NoStrays(Next(s, id))
  {
    var (u, j) := (Next(s, id), s.jobs[id]);
    assert JobSound(s, id);
    forall key | key in u.world.objects ensures Named(u.world, key) || Held(u, key) {
      if Named(s.world, key) {
        var person :| person in s.world.faces && s.world.faces[person].key == Some(key);
        if !j.raised && j.stage == Stored && person == j.request.person {
          assert Holds(u.jobs[id], key);
        } else {
          assert u.world.faces[person].key == Some(key);
        }
      } else if key in s.world.objects {
        var k :| k in s.jobs && Holds(s.jobs[k], key);
        if k != id {
          assert Holds(u.jobs[k], key);
        } else if !j.raised && j.stage == Stored {
          assert u.world.faces[j.request.person].key == Some(key);
        } else {
          assert Holds(u.jobs[id], key);
        }
      } else {
        assert Holds(u.jobs[id], key);
      }
    }
  }

  lemma StepLeavesNoStrays(s: System, e: Event)
    requires Inv(s) && NoStrays(s) && Tidy(s, e)
    ensures NoStrays(Step(s, e))
  {
    var u := Step(s, e);
    if e.Proceeds? {
      if e.id in s.jobs { ProceedLeavesNoStrays(s, e.id); }
    } else {
      forall key | key in u.world.objects ensures Named(u.world, key) || Held(u, key) {
        if Named(s.world, key) {
          var person :| person in s.world.faces && s.world.faces[person].key == Some(key);
          assert u.world.faces[person].key == Some(key);
        } else {
          var k :| k in s.jobs && Holds(s.jobs[k], key);
          assert Holds(u.jobs[k], key);
        }
      }
    }
  }

  ghost predicate AllTidy(s: System, es: seq<Event>)
    decreases |es|
  {
    es == [] || (Tidy(s, es[0]) && AllTidy(Step(s, es[0]), es[1..]))
  }

  lemma {:induction false} TidyRunsLeaveNoStrays(s: System, es: seq<Event>)
    requires Inv(s) && NoStrays(s) && AllFresh(s, es) && AllTidy(s, es)
    ensures Inv(Run(s, es)) && NoStrays(Run(s, es))
    decreases |es|
  {
    if es != [] {
      StepKeepsInv(s, es[0]);
      StepLeavesNoStrays(s, es[0]);
      TidyRunsLeaveNoStrays(Step(s, es[0]), es[1..]);
    }
  }

  /** When changes interleave undisturbed and all have ended, the objects are exactly those the rows name. */
  lemma SettledObjectsAreTheNamedOnes(w: World, es: seq<Event>, key: Key)
    requires Sound(w) && (forall k | k in w.objects :: Named(w, k))
    requires AllFresh(Idle(w), es) && AllTidy(Idle(w), es) && Run(Idle(w), es).jobs == map[]
    ensures key in Run(Idle(w), es).world.objects <==> Named(Run(Idle(w), es).world, key)
  {
    TidyRunsLeaveNoStrays(Idle(w), es);
  }

  // ----- A change alone ---------------------------------------------------------

  function Depth(stage: Stage): nat {
    match stage
    case Checked => 0
    case Stored => 1
    case Committed => 2
    case LeftTry => 3
    case Finished => 4
  }

  function Steps(id: JobId, n: nat): seq<Event> {
    if n == 0 then [] else [Proceeds(id)] + Steps(id, n - 1)
  }

  /** The events of one change that ends like this, with nothing in between. */
  function Script(id: JobId, r: Request, fate: Fate): seq<Event> {
    match fate
    case Completes => [Starts(id, r)] + Steps(id, 4)
    case Stops(stage) => [Starts(id, r)] + Steps(id, Depth(stage)) + [Crashes]
    case Raises(stage) => [Starts(id, r)] + Steps(id, Depth(stage)) + [Fails(id), Proceeds(id)]
  }

  lemma {:induction false} RunSplits(s: System, first: seq<Event>, second: seq<Event>)
    ensures Run(s, first + second) == Run(Run(s, first), second)
    decreases |first|
  {
    if first == [] {
      assert first + second == second;
    } else {
      RunSplits(Step(s, first[0]), first[1..], second);
      assert (first + second)[1..] == first[1..] + second;
    }
  }

  /** Where a change alone is after as many steps. */
  function Reached(w: World, id: JobId, r: Request, stage: Stage): System {
    var j := Job(r, FaceOf(w, r.person).key, stage, false);
    if stage == Finished then Idle(At(w, r, Finished))
    else System(At(w, r, stage), map[id := j], if Writing(j) then Some(id) else None)
  }

  lemma OneStepReaches(w: World, id: JobId, r: Request, stage: Stage, next: Stage)
    requires CheckRefusal(w, r).None? && Depth(next) == Depth(stage) + 1
    ensures Step(Reached(w, id, r, stage), Proceeds(id)) == Reached(w, id, r, next)
  {
    assert map[id := Job(r, FaceOf(w, r.person).key, stage, false)] - {id} == map[];
  }

  lemma {:induction false} StepsReach(w: World, id: JobId, r: Request, from: Stage, stage: Stage)
    requires CheckRefusal(w, r).None? && Depth(from) <= Depth(stage)
    ensures Run(Reached(w, id, r, from), Steps(id, Depth(stage) - Depth(from))) == Reached(w, id, r, stage)
    decreases Depth(stage) - Depth(from)
  {
    if from != stage {
      var next := match from case Checked => Stored case Stored => Committed case Committed => LeftTry case _ => Finished;
      OneStepReaches(w, id, r, from, next);
      StepsReach(w, id, r, next, stage);
      assert Steps(id, Depth(stage) - Depth(from))[1..] == Steps(id, Depth(stage) - Depth(next));
    }
  }

  /** With nothing in between the interleaved steps are the change as it was described, whatever its end. */
  lemma AloneIsTheChange(w: World, id: JobId, r: Request, fate: Fate)
    requires CheckRefusal(w, r).None?
    ensures Run(Idle(w), Script(id, r, fate)) == Idle(Outcome(w, r, fate))
  {
    var start := Step(Idle(w), Starts(id, r));
    var stage := if fate.Completes? then Finished else fate.stage;
    assert start == Reached(w, id, r, Checked);
    StepsReach(w, id, r, Checked, stage);
    var way := Steps(id, Depth(stage));
    assert ([Starts(id, r)] + way)[1..] == way;
    assert Run(Idle(w), [Starts(id, r)] + way) == Reached(w, id, r, stage);
    match fate
    case Completes =>
    case Stops(_) =>
      RunSplits(Idle(w), [Starts(id, r)] + way, [Crashes]);
      assert Run(Reached(w, id, r, stage), [Crashes]) == Step(Reached(w, id, r, stage), Crashes);
    case Raises(_) =>
      RunSplits(Idle(w), [Starts(id, r)] + way, [Fails(id), Proceeds(id)]);
      AloneFails(w, id, r, stage);
  }

  lemma AloneFails(w: World, id: JobId, r: Request, stage: Stage)
    requires CheckRefusal(w, r).None?
    ensures Run(Reached(w, id, r, stage), [Fails(id), Proceeds(id)]) == Idle(Outcome(w, r, Raises(stage)))
  {
    var s := Reached(w, id, r, stage);
    var u := Step(s, Fails(id));
    assert [Fails(id), Proceeds(id)][1..] == [Proceeds(id)] && [Proceeds(id)][1..] == [];
    assert Run(s, [Fails(id), Proceeds(id)]) == Run(u, [Proceeds(id)]) == Run(Step(u, Proceeds(id)), []);
    if stage != Finished {
      assert s.jobs - {id} == map[] && u.jobs - {id} == map[];
    }
  }
}
