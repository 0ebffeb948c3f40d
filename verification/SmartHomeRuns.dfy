/** Any interleaving of writers, and a reader whose label and tables are read at different instants. */
module SmartHomeRuns {
  import opened Core
  import opened Ordering
  import opened Listing
  import opened SmartHome
  import opened SmartHomeRows
  import opened SmartHomeReload

  datatype Event =
    | Ask(request: Request, accepts: Registry -> bool)
    | NewOwner(owner: OwnerId, active: bool)

  ghost function Step(db: Database, e: Event): Database
    requires AllSound(db)
  {
    match e
    case Ask(request, accepts) => After(db, request.owner, Serve(db, accepts, request))
    case NewOwner(owner, active) => db.(owners := db.owners[owner := active])
  }

  lemma HomeSound(db: Database, owner: OwnerId)
    requires AllSound(db)
    ensures Sound(HomeOf(db, owner))
  {
  }

  /** One event leaves a home alone or moves it by exactly one revision and one fact. */
  ghost predicate Advances(h: Home, u: Home) {
    u == h || (u.revision == h.revision + 1 && |u.facts| == |h.facts| + 1 && u.facts[..|h.facts|] == h.facts)
  }

  lemma StepAdvances(db: Database, e: Event, owner: OwnerId)
    requires AllSound(db)
    ensures AllSound(Step(db, e)) && Advances(HomeOf(db, owner), HomeOf(Step(db, e), owner))
  {
    if e.Ask? {
      var r := e.request;
      HomeSound(db, r.owner);
      var outcome := Serve(db, e.accepts, r);
      if outcome.Done? {
        ChangeAdvances(HomeOf(db, r.owner), e.accepts, r.expected, r.command, outcome);
      }
    }
  }

  ghost function Run(db: Database, es: seq<Event>): (u: Database)
    requires AllSound(db)
    ensures AllSound(u)
    decreases |es|
  {
    if es == [] then db
    else
      StepAdvances(db, es[0], 0);
      Run(Step(db, es[0]), es[1..])
  }

  lemma {:induction false} RunAdvances(db: Database, es: seq<Event>, owner: OwnerId)
    requires AllSound(db)
    ensures var (h, u) := (HomeOf(db, owner), HomeOf(Run(db, es), owner));
            && u.revision >= h.revision && (u.revision == h.revision ==> u == h)
            && |u.facts| >= |h.facts| && u.facts[..|h.facts|] == h.facts
    decreases |es|
  {
    if es != [] {
      var t := Step(db, es[0]);
      StepAdvances(db, es[0], owner);
      RunAdvances(t, es[1..], owner);
      var (h, m, u) := (HomeOf(db, owner), HomeOf(t, owner), HomeOf(Run(t, es[1..]), owner));
      assert u.facts[..|h.facts|] == u.facts[..|m.facts|][..|h.facts|];
    }
  }

  lemma {:induction false} RunSplits(db: Database, first: seq<Event>, second: seq<Event>)
    requires AllSound(db)
    ensures Run(db, first + second) == Run(Run(db, first), second)
    decreases |first|
  {
    if first == [] {
      assert first + second == second;
    } else {
      StepAdvances(db, first[0], 0);
      RunSplits(Step(db, first[0]), first[1..], second);
      assert (first + second)[1..] == first[1..] + second;
    }
  }

  const NO_DATA := Database(map[], map[])

  /** The audit facts of every home are exactly revisions 1, 2, ..., current, in that order. */
  lemma FactsAreEveryRevision(es: seq<Event>, owner: OwnerId)
    ensures var h := HomeOf(Run(NO_DATA, es), owner);
            |h.facts| == h.revision && forall i | 0 <= i < |h.facts| :: h.facts[i].revision == i + 1
  {
    HomeSound(Run(NO_DATA, es), owner);
  }

  // ----- Reading while others write -------------------------------------------

  /** The owner's home after the first i events. */
  ghost function HomeAt(db: Database, es: seq<Event>, owner: OwnerId, i: nat): Home
    requires AllSound(db) && i <= |es|
  {
    HomeOf(Run(db, es[..i]), owner)
  }

  lemma LaterHome(db: Database, es: seq<Event>, owner: OwnerId, i: nat, j: nat)
    requires AllSound(db) && i <= j <= |es|
    ensures var (h, u) := (HomeAt(db, es, owner, i), HomeAt(db, es, owner, j));
            Sound(h) && Sound(u) && h.revision <= u.revision && (h.revision == u.revision ==> h == u)
  {
    assert es[..j] == es[..i] + es[i..j];
    RunSplits(db, es[..i], es[i..j]);
    RunAdvances(Run(db, es[..i]), es[i..j], owner);
    HomeSound(Run(db, es[..i]), owner);
    HomeSound(Run(db, es[..j]), owner);
  }

  /** When each query of one read ran. */
  datatype Instants = Instants(revision: nat, areas: nat, devices: nat, scenes: nat, actions: nat, placements: nat)

  /** The label is read first, each table at some later instant up to now. */
  predicate LabelFirst(t: Instants, now: nat) {
    && t.revision <= t.areas <= now && t.revision <= t.devices <= now && t.revision <= t.scenes <= now
    && t.revision <= t.actions <= now && t.revision <= t.placements <= now
  }

  /** The rows a racing read sees: each table as it was at its own instant. */
  ghost function Seen(db: Database, es: seq<Event>, owner: OwnerId, t: Instants): Tables
    requires AllSound(db) && LabelFirst(t, |es|)
  {
    Tables(HomeAt(db, es, owner, t.areas).tables.areas, HomeAt(db, es, owner, t.devices).tables.devices,
           HomeAt(db, es, owner, t.scenes).tables.scenes, HomeAt(db, es, owner, t.actions).tables.actions,
           HomeAt(db, es, owner, t.placements).tables.placements)
  }

  /** The label is never newer than any table it labels; and if no write fell in between, the read is exact. */
  lemma LabelIsNeverNewer(db: Database, es: seq<Event>, owner: OwnerId, t: Instants)
    requires AllSound(db) && LabelFirst(t, |es|)
    ensures var stamp := HomeAt(db, es, owner, t.revision).revision;
            && stamp <= HomeAt(db, es, owner, t.areas).revision && stamp <= HomeAt(db, es, owner, t.devices).revision
            && stamp <= HomeAt(db, es, owner, t.scenes).revision && stamp <= HomeAt(db, es, owner, t.actions).revision
            && stamp <= HomeAt(db, es, owner, t.placements).revision
            && Positioned(Seen(db, es, owner, t))
            && (HomeAt(db, es, owner, |es|).revision == stamp ==> Seen(db, es, owner, t) == HomeAt(db, es, owner, t.revision).tables)
  {
    LaterHome(db, es, owner, t.revision, t.areas);
    LaterHome(db, es, owner, t.revision, t.devices);
    LaterHome(db, es, owner, t.revision, t.scenes);
    LaterHome(db, es, owner, t.revision, t.actions);
    LaterHome(db, es, owner, t.revision, t.placements);
    LaterHome(db, es, owner, t.areas, |es|);
    LaterHome(db, es, owner, t.devices, |es|);
    LaterHome(db, es, owner, t.scenes, |es|);
    LaterHome(db, es, owner, t.actions, |es|);
    LaterHome(db, es, owner, t.placements, |es|);
  }

  lemma AcceptedAtItsRevision(db: Database, owner: OwnerId, expected: int, accepts: Registry -> bool, c: Command)
    requires AllSound(db) && Serve(db, accepts, Request(owner, expected, c)).Done?
    ensures HomeOf(db, owner).revision == expected
  {
  }

  /** A read during which the revision did not move is exact, and answers. */
  lemma UnmovedReadIsExact(db: Database, es: seq<Event>, owner: OwnerId, t: Instants)
    requires AllSound(db) && LabelFirst(t, |es|)
    requires HomeOf(Run(db, es), owner).revision == HomeAt(db, es, owner, t.revision).revision
    ensures var (read, seen, now) := (HomeAt(db, es, owner, t.revision), Seen(db, es, owner, t), HomeOf(Run(db, es), owner));
            seen == now.tables == read.tables && Positioned(seen) && ActionsHaveScenes(seen)
  {
    assert es[..|es|] == es;
    LabelIsNeverNewer(db, es, owner, t);
    LaterHome(db, es, owner, t.revision, |es|);
  }

  /** If a write carrying the label is then accepted, every row the reader saw was exactly the state at that revision,
      which is the state the write was applied to. */
  lemma OptimisticWritesAreSound(
    db: Database, es: seq<Event>, owner: OwnerId, t: Instants, stamp: int, accepts: Registry -> bool, c: Command)
    requires AllSound(db) && LabelFirst(t, |es|) && stamp == HomeAt(db, es, owner, t.revision).revision
    requires Serve(Run(db, es), accepts, Request(owner, stamp, c)).Done?
    ensures var (read, seen, now) := (HomeAt(db, es, owner, t.revision), Seen(db, es, owner, t), HomeOf(Run(db, es), owner));
            now.revision == stamp && seen == now.tables == read.tables && Positioned(seen) && ActionsHaveScenes(seen)
  {
    AcceptedAtItsRevision(Run(db, es), owner, stamp, accepts, c);
    UnmovedReadIsExact(db, es, owner, t);
  }

  /** One winner per revision: once a write is accepted, no later write naming the same revision is. */
  lemma OneWinnerPerRevision(
    db: Database, owner: OwnerId, expected: int, c: Command, accepts: Registry -> bool, es: seq<Event>,
    c': Command, accepts': Registry -> bool)
    requires AllSound(db) && Serve(db, accepts, Request(owner, expected, c)).Done?
    ensures var u := Step(db, Ask(Request(owner, expected, c), accepts));
            AllSound(u)
            && var current := HomeOf(Run(u, es), owner).revision;
               var again := Serve(Run(u, es), accepts', Request(owner, expected, c'));
               current > expected && (owner in Run(u, es).owners ==> again == Refused(Conflict(current))) && again.Refused?
  {
    var e := Ask(Request(owner, expected, c), accepts);
    HomeSound(db, owner);
    StepAdvances(db, e, owner);
    DoneMeans(HomeOf(db, owner), accepts, expected, c);
    RunAdvances(Step(db, e), es, owner);
  }

  // ----- When a racing read raises instead of answering -------------------------

  predicate HasAction(h: Home, scene: SceneId) {
    exists k | k in h.tables.actions :: k.scene == scene
  }

  /** Some scene that has an action in one state of a home is not there in another. */
  ghost predicate Misses(acted: Home, listed: Home) {
    exists scene :: HasAction(acted, scene) && scene !in listed.tables.scenes
  }

  /** A read fails exactly when some scene that has an action at the instant of the actions query is not there at the
      instant of the scenes query. */
  lemma ReadFailsExactlyWhen(db: Database, es: seq<Event>, owner: OwnerId, t: Instants)
    requires AllSound(db) && LabelFirst(t, |es|)
    ensures !ActionsHaveScenes(Seen(db, es, owner, t)) <==> Misses(HomeAt(db, es, owner, t.actions), HomeAt(db, es, owner, t.scenes))
  {
    var (listed, acted, seen) := (HomeAt(db, es, owner, t.scenes), HomeAt(db, es, owner, t.actions), Seen(db, es, owner, t));
    if !ActionsHaveScenes(seen) {
      var k :| k in seen.actions && k.scene !in seen.scenes;
      assert HasAction(acted, k.scene) && k.scene !in listed.tables.scenes;
    }
    if Misses(acted, listed) {
      var scene :| HasAction(acted, scene) && scene !in listed.tables.scenes;
      var k :| k in acted.tables.actions && k.scene == scene;
      assert k in seen.actions && k.scene !in seen.scenes;
    }
  }

  /** The event adds the scene to the owner's home: it is created, or comes with a sample. */
  predicate Adds(e: Event, owner: OwnerId, scene: SceneId) {
    e.Ask? && e.request.owner == owner
    && ((e.request.command.CreateScene? && e.request.command.scene.id == scene)
        || (e.request.command.LoadSample? && scene in SceneRows(e.request.command.sample.scenes)))
  }

  lemma WriteAddsScenes(t: Tables, c: Command, revision: int, scene: SceneId)
    requires Ready(t, revision, c) && scene !in t.scenes && scene in Write(t, c).scenes
    ensures (c.CreateScene? && c.scene.id == scene) || (c.LoadSample? && scene in SceneRows(c.sample.scenes))
  {
  }

  lemma StepAddsScenes(db: Database, e: Event, owner: OwnerId, scene: SceneId)
    requires AllSound(db) && scene !in HomeOf(db, owner).tables.scenes && scene in HomeOf(Step(db, e), owner).tables.scenes
    ensures Adds(e, owner, scene)
  {
    assert e.Ask? && e.request.owner == owner;
    var (r, h) := (e.request, HomeOf(db, owner));
    HomeSound(db, owner);
    DoneMeans(h, e.accepts, r.expected, r.command);
    WriteAddsScenes(h.tables, r.command, r.expected, scene);
  }

  lemma LastStep(db: Database, es: seq<Event>, j: nat)
    requires AllSound(db) && 0 < j <= |es|
    ensures Run(db, es[..j]) == Step(Run(db, es[..j - 1]), es[j - 1])
  {
    var (before, e) := (Run(db, es[..j - 1]), es[j - 1]);
    assert es[..j] == es[..j - 1] + [e];
    RunSplits(db, es[..j - 1], [e]);
    StepAdvances(before, e, 0);
    assert [e][1..] == [];
    assert Run(before, [e]) == Run(Step(before, e), []);
  }

  /** Event m is an accepted creation or sample that brings the scene. */
  ghost predicate AddedAt(db: Database, es: seq<Event>, owner: OwnerId, m: nat, scene: SceneId)
    requires AllSound(db) && m < |es|
  {
    Adds(es[m], owner, scene)
    && scene !in HomeAt(db, es, owner, m).tables.scenes && scene in HomeAt(db, es, owner, m + 1).tables.scenes
  }

  /** A scene that is there later and was not there before was added in between. */
  lemma {:induction false} NewScenesWereAdded(db: Database, es: seq<Event>, owner: OwnerId, i: nat, j: nat, scene: SceneId)
    requires AllSound(db) && i <= j <= |es|
    requires scene !in HomeAt(db, es, owner, i).tables.scenes && scene in HomeAt(db, es, owner, j).tables.scenes
    ensures exists m :: i <= m < j && AddedAt(db, es, owner, m, scene)
    decreases j
  {
    if i < j {
      LastStep(db, es, j);
      if scene in HomeAt(db, es, owner, j - 1).tables.scenes {
        NewScenesWereAdded(db, es, owner, i, j - 1, scene);
      } else {
        StepAddsScenes(Run(db, es[..j - 1]), es[j - 1], owner, scene);
        assert AddedAt(db, es, owner, j - 1, scene);
      }
    }
  }

  /** So in the order in which the tables are queried a read fails only across an event that adds a scene. */
  lemma FailedReadsCrossACreation(db: Database, es: seq<Event>, owner: OwnerId, t: Instants)
    requires AllSound(db) && LabelFirst(t, |es|) && t.scenes <= t.actions
    requires !ActionsHaveScenes(Seen(db, es, owner, t))
    ensures exists scene, m :: t.scenes <= m < t.actions && AddedAt(db, es, owner, m, scene)
  {
    ReadFailsExactlyWhen(db, es, owner, t);
    var (listed, acted) := (HomeAt(db, es, owner, t.scenes), HomeAt(db, es, owner, t.actions));
    var scene :| HasAction(acted, scene) && scene !in listed.tables.scenes;
    HomeSound(Run(db, es[..t.actions]), owner);
    assert scene in acted.tables.scenes;
    NewScenesWereAdded(db, es, owner, t.scenes, t.actions, scene);
  }

  const LAMP := Device(3, 0, None, 0)
  const EVENING := Scene(7, 0, 0, [Action(3, 0)])

  function Home1(accepts: Registry -> bool): seq<Event> {
    [NewOwner(1, true), Ask(Request(1, 0, CreateDevice(LAMP)), accepts), Ask(Request(1, 1, CreateScene(EVENING)), accepts)]
  }

  lemma LampIsReady(t: Tables)
    requires t == Write(NO_ROWS, CreateDevice(LAMP))
    ensures Ready(NO_ROWS, 0, CreateDevice(LAMP)) && Proposal(Load(0, NO_ROWS), 1, CreateDevice(LAMP)) == Registry(1, [], [LAMP], [], [])
    ensures Positioned(t) && ActionsHaveScenes(t) && Load(1, t) == Registry(1, [], [LAMP], [], [])
    ensures t.scenes == map[] && t.actions == map[]
  {
    EmptyHomeLoadsEmpty();
    ChangeReadsBack(NO_ROWS, 0, CreateDevice(LAMP));
    var loaded := Load(1, t);
    assert |multiset(loaded.areas)| == |loaded.areas| && |multiset(loaded.placements)| == |loaded.placements|;
  }

  lemma EveningFits(t: Tables, r: Registry)
    requires r == Registry(1, [], [LAMP], [], []) && t.scenes == map[]
    ensures CommandRefusal(t, r, CreateScene(EVENING)).None? && !Duplicates(t, CreateScene(EVENING))
    ensures Proposal(r, 2, CreateScene(EVENING)) == Registry(2, [], [LAMP], [EVENING], [])
  {
  }

  lemma EveningWrites(t: Tables)
    ensures ActionKey(7, 0) in Write(t, CreateScene(EVENING)).actions
  {
    ActionRowsAreAt(7, EVENING.actions);
  }

  lemma EveningIsReady(t: Tables)
    requires t == Write(NO_ROWS, CreateDevice(LAMP))
    ensures Ready(t, 1, CreateScene(EVENING)) && Proposal(Load(1, t), 2, CreateScene(EVENING)) == Registry(2, [], [LAMP], [EVENING], [])
    ensures ActionKey(7, 0) in Write(t, CreateScene(EVENING)).actions
  {
    LampIsReady(t);
    EveningFits(t, Load(1, t));
    EveningWrites(t);
  }

  /** It does happen: a home with one lamp, a scene that drives it created between the two queries. */
  lemma TornReadMissesAScene(accepts: Registry -> bool)
    requires accepts(Registry(1, [], [LAMP], [], [])) && accepts(Registry(2, [], [LAMP], [EVENING], []))
    ensures !ActionsHaveScenes(Seen(NO_DATA, Home1(accepts), 1, Instants(2, 2, 2, 2, 3, 3)))
  {
    var (es, t) := (Home1(accepts), Write(NO_ROWS, CreateDevice(LAMP)));
    var (d0, d1) := (Step(NO_DATA, es[0]), Step(Step(NO_DATA, es[0]), es[1]));
    LampIsReady(t);
    EveningIsReady(t);
    LastStep(NO_DATA, es, 1);
    LastStep(NO_DATA, es, 2);
    LastStep(NO_DATA, es, 3);
    assert Run(NO_DATA, es[..0]) == NO_DATA;
    DoneMeans(NEW_HOME, accepts, 0, CreateDevice(LAMP));
    assert HomeOf(d1, 1) == Applied(NEW_HOME, 0, CreateDevice(LAMP)).home;
    StepAdvances(d0, es[1], 1);
    DoneMeans(HomeOf(d1, 1), accepts, 1, CreateScene(EVENING));
    assert HomeAt(NO_DATA, es, 1, 3) == Applied(HomeOf(d1, 1), 1, CreateScene(EVENING)).home;
    assert ActionKey(7, 0) in HomeAt(NO_DATA, es, 1, 3).tables.actions;
    assert 7 !in HomeAt(NO_DATA, es, 1, 2).tables.scenes;
  }
}
