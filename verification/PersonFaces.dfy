/**
 * The person-photo slot: a row naming an object, and an object store beside the database. A change runs in steps; the
 * process may stop after any of them, and an exception may be raised at any of them.
 */
module PersonFaces {
  import opened Core

  type OwnerId = int
  type PersonId = int
  type Key = int

  datatype Person = Person(owner: OwnerId, active: bool)
  datatype Face = Face(revision: int, key: Option<Key>)

  /** The committed rows and the stored objects. */
  datatype World = World(people: map<PersonId, Person>, faces: map<PersonId, Face>, objects: set<Key>)

  /** key is the generated name of the new object; a deletion carries no photo. */
  datatype Request = Request(owner: OwnerId, person: PersonId, expected: int, photo: bool, key: Key)

  datatype Refusal = PersonNotFound | PersonInactive | FaceChanged

  function FaceOf(w: World, person: PersonId): Face {
    if person in w.faces then w.faces[person] else Face(0, None)
  }

  function CheckRefusal(w: World, r: Request): Option<Refusal> {
    if r.person !in w.people || w.people[r.person].owner != r.owner then Some(PersonNotFound)
    else if r.photo && !w.people[r.person].active then Some(PersonInactive)
    else if FaceOf(w, r.person).revision != r.expected then Some(FaceChanged)
    else None
  }

  /** How far a change that passed its checks has come. */
  datatype Stage = Checked | Stored | Committed | LeftTry | Finished

  function NewKey(r: Request): Option<Key> {
    if r.photo then Some(r.key) else None
  }

  function WithNew(w: World, r: Request): set<Key> {
    if r.photo then w.objects + {r.key} else w.objects
  }

  function Without(objects: set<Key>, key: Option<Key>): set<Key> {
    if key.Some? then objects - {key.value} else objects
  }

  /** What is durable at a stage: until the commit only the object store changes. */
  function At(w: World, r: Request, stage: Stage): World {
    var changed := w.faces[r.person := Face(FaceOf(w, r.person).revision + 1, NewKey(r))];
    match stage
    case Checked => w
    case Stored => w.(objects := WithNew(w, r))
    case Committed => World(w.people, changed, WithNew(w, r))
    case LeftTry => World(w.people, changed, WithNew(w, r))
    case Finished => World(w.people, changed, Without(WithNew(w, r), FaceOf(w, r.person).key))
  }

  /** How a change ends: the process stops at a stage, an exception is raised at one, or it completes. */
  datatype Fate = Stops(stage: Stage) | Raises(stage: Stage) | Completes

  /** An exception inside the try deletes the new object; a later one does not. */
  function Outcome(w: World, r: Request, fate: Fate): World {
    match fate
    case Stops(stage) => At(w, r, stage)
    case Raises(stage) =>
      var reached := At(w, r, stage);
      if stage == LeftTry || stage == Finished then reached else reached.(objects := Without(reached.objects, NewKey(r)))
    case Completes => At(w, r, Finished)
  }

  /** Every committed row names an object that exists. */
  ghost predicate AllNamed(w: World) {
    forall person | person in w.faces && w.faces[person].key.Some? :: w.faces[person].key.value in w.objects
  }

  /** No two rows share an object. */
  ghost predicate Unshared(w: World) {
    forall a, b | a in w.faces && b in w.faces && a != b && w.faces[a].key.Some? :: w.faces[a].key != w.faces[b].key
  }

  ghost predicate Sound(w: World) {
    AllNamed(w) && Unshared(w)
  }

  /** A generated key is in no row and no object. */
  predicate FreshKey(w: World, key: Key) {
    key !in w.objects && forall person | person in w.faces :: w.faces[person].key != Some(key)
  }

  /** A change is admitted exactly for the owner's person, active if a photo comes, at the revision of the slot, 0 when empty. */
  lemma ChangeAdmittedExactlyWhen(w: World, r: Request)
    ensures CheckRefusal(w, r).None? <==>
              && r.person in w.people && w.people[r.person].owner == r.owner && (r.photo ==> w.people[r.person].active)
              && r.expected == if r.person in w.faces then w.faces[r.person].revision else 0
  {
  }

  /** Stopping after any step leaves every committed row naming an object that exists. */
  lemma StoppingAnywhereIsConsistent(w: World, r: Request, stage: Stage)
    requires Sound(w) && FreshKey(w, r.key) && CheckRefusal(w, r).None?
    ensures Sound(Outcome(w, r, Stops(stage)))
    ensures Outcome(w, r, Stops(stage)).faces == w.faces || Outcome(w, r, Stops(stage)).faces == At(w, r, Finished).faces
  {
  }

  /** A change that fails before its commit leaves no new object and no new row. */
  lemma FailingBeforeCommitChangesNothing(w: World, r: Request, stage: Stage)
    requires FreshKey(w, r.key) && CheckRefusal(w, r).None? && (stage == Checked || stage == Stored)
    ensures Outcome(w, r, Raises(stage)) == w
  {
  }

  /** A completed change leaves exactly the current object for its slot: the new one and not the old one, and every
      other object as it was. */
  lemma CompletionLeavesTheCurrentObject(w: World, r: Request)
    requires Sound(w) && FreshKey(w, r.key) && CheckRefusal(w, r).None?
    ensures var u := Outcome(w, r, Completes);
            && Sound(u) && FaceOf(u, r.person) == Face(r.expected + 1, NewKey(r))
            && (forall key :: key in u.objects <==> NewKey(r) == Some(key) || (key in w.objects && FaceOf(w, r.person).key != Some(key)))
            && (forall person | person != r.person :: FaceOf(u, person) == FaceOf(w, person))
  {
  }

  /** Where raising is safe, exactly: an exception that arrives after the commit but before the try is left, such as a
      cancellation, deletes the object the committed row now names. */
  lemma RaisingIsConsistentExactlyWhen(w: World, r: Request, stage: Stage)
    requires Sound(w) && FreshKey(w, r.key) && CheckRefusal(w, r).None?
    ensures AllNamed(Outcome(w, r, Raises(stage))) <==> !(stage == Committed && r.photo)
  {
    var u := Outcome(w, r, Raises(stage));
    if stage == Committed && r.photo {
      assert u.faces[r.person].key == Some(r.key);
    }
  }

  datatype Attempt = Attempt(request: Request, fate: Fate)

  /** Keys are generated, and no exception falls into the gap between commit and leaving the try. */
  ghost predicate Ordinary(w: World, a: Attempt) {
    FreshKey(w, a.request.key) && !(a.fate == Raises(Committed) && a.request.photo)
  }

  function Step(w: World, a: Attempt): World {
    if CheckRefusal(w, a.request).Some? then w else Outcome(w, a.request, a.fate)
  }

  lemma StepKeepsSound(w: World, a: Attempt)
    requires Sound(w) && Ordinary(w, a)
    ensures Sound(Step(w, a))
  {
  }

  ghost predicate AllOrdinary(w: World, attempts: seq<Attempt>)
    decreases |attempts|
  {
    attempts == [] || (Ordinary(w, attempts[0]) && AllOrdinary(Step(w, attempts[0]), attempts[1..]))
  }

  function Run(w: World, attempts: seq<Attempt>): World
    decreases |attempts|
  {
    if attempts == [] then w else Run(Step(w, attempts[0]), attempts[1..])
  }

  /** Over any run of changes, however each one ends, every committed row names its object. */
  lemma {:induction false} RunsKeepRowsNamed(w: World, attempts: seq<Attempt>)
    requires Sound(w) && AllOrdinary(w, attempts)
    ensures Sound(Run(w, attempts))
    decreases |attempts|
  {
    if attempts != [] {
      StepKeepsSound(w, attempts[0]);
      RunsKeepRowsNamed(Step(w, attempts[0]), attempts[1..]);
    }
  }

  // ----- The change itself ----------------------------------------------------

  /** The rows and objects, the row's write pending until its commit. */
  class Store {
    var people: map<PersonId, Person>
    var faces: map<PersonId, Face>
    var objects: set<Key>

    function Rows(): World
      reads this
    {
      World(people, faces, objects)
    }

    constructor ()
      ensures Rows() == World(map[], map[], {}) && Sound(Rows())
    {
      people, faces, objects := map[], map[], {};
    }

    /** except BaseException: the new object goes, and the exception on. */
    method Abandon(key: Option<Key>)
      modifies this`objects
      ensures objects == Without(old(objects), key)
    {
      if key.Some? {
        objects := objects - {key.value};
      }
    }

    /** _change, ending as fate says; true when it returned its result. */
    method Change(r: Request, fate: Fate) returns (answer: Result<bool, Refusal>)
      modifies this`faces, this`objects
      ensures var refusal := CheckRefusal(old(Rows()), r);
              if refusal.Some? then Rows() == old(Rows()) && answer == Err(refusal.value)
              else Rows() == Outcome(old(Rows()), r, fate) && answer == Ok(fate == Completes)
    {
      if r.person !in people || people[r.person].owner != r.owner { return Err(PersonNotFound); }
      if r.photo && !people[r.person].active { return Err(PersonInactive); }
      var row := FaceOf(Rows(), r.person);
      if row.revision != r.expected { return Err(FaceChanged); }
      if fate == Stops(Checked) || fate == Raises(Checked) {
        if fate.Raises? { Abandon(NewKey(r)); }
        return Ok(false);
      }
      var old_key := row.key;
      if r.photo {
        objects := objects + {r.key};
      }
      if fate == Stops(Stored) || fate == Raises(Stored) {
        if fate.Raises? { Abandon(NewKey(r)); }
        return Ok(false);
      }
      row := row.(key := NewKey(r));
      row := row.(revision := row.revision + 1);
      faces := faces[r.person := row];
      if fate == Stops(Committed) || fate == Raises(Committed) {
        if fate.Raises? { Abandon(NewKey(r)); }
        return Ok(false);
      }
      if fate == Stops(LeftTry) || fate == Raises(LeftTry) { return Ok(false); }
      Abandon(old_key);
      answer := Ok(fate == Completes);
    }
  }
}
