/** After every accepted change the rows reload as the answered registry, and the home stays sound. */
module SmartHomeReload {
  import opened Core
  import opened Ordering
  import opened Listing
  import opened SmartHome
  import opened SmartHomeRows

  // ----- Samples --------------------------------------------------------------

  ghost predicate Has<T>(s: seq<T>, key: T -> int, k: int) {
    exists i :: 0 <= i < |s| && key(s[i]) == k
  }

  lemma HasGrows<T>(s: seq<T>, key: T -> int, n: nat)
    requires |s| == n + 1 && DistinctKeys(s, key)
    ensures DistinctKeys(s[..n], key) && !Has(s[..n], key, key(s[n])) && Has(s, key, key(s[n]))
    ensures forall k | Has(s[..n], key, k) :: Has(s, key, k)
    ensures s == s[..n] + [s[n]]
  {
    forall k | Has(s[..n], key, k) ensures Has(s, key, k) {
      var i :| 0 <= i < n && key(s[..n][i]) == k;
      assert key(s[i]) == k;
    }
  }

  lemma {:induction false} AreaRowsAt(areas: seq<Area>)
    requires DistinctKeys(areas, AreaKey)
    ensures Distinct(AreaPositions(AreaRows(areas)))
    ensures forall k | k in AreaRows(areas) :: AreaRows(areas)[k].position < |areas| && Has(areas, AreaKey, k)
  {
    if areas != [] {
      var n := |areas| - 1;
      HasGrows(areas, AreaKey, n);
      AreaRowsAt(areas[..n]);
      MappedUpdate(AreaRows(areas[..n]), AreaPosition, areas[n].id, RowOfArea(areas[n], n));
    }
  }

  lemma {:induction false} AreaRowsRepresent(areas: seq<Area>)
    requires DistinctKeys(areas, AreaKey)
    ensures Represents(AreaRows(areas), AREAS, AreaKey, areas)
  {
    if areas != [] {
      var n := |areas| - 1;
      HasGrows(areas, AreaKey, n);
      AreaRowsAt(areas[..n]);
      AreaRowsRepresent(areas[..n]);
      AppendRepresents(AreaRows(areas[..n]), AREAS, AreaKey, areas[..n], areas[n].id, RowOfArea(areas[n], n));
    }
  }

  lemma SampleAreas(areas: seq<Area>)
    requires DistinctKeys(areas, AreaKey)
    ensures Distinct(AreaPositions(AreaRows(areas))) && multiset(ReadAreas(AreaRows(areas))) == multiset(areas)
  {
    AreaRowsRepresent(areas);
    AreaRowsAt(areas);
    AreasSortable(AreaRows(areas));
    ReadsUpToOrder(AreaRows(areas), AREAS, AreaKey, areas);
  }

  lemma {:induction false} DeviceRowsAt(devices: seq<Device>)
    requires DistinctKeys(devices, DeviceKey)
    ensures Distinct(DevicePositions(DeviceRows(devices)))
    ensures forall k | k in DeviceRows(devices) :: DeviceRows(devices)[k].position < |devices| && Has(devices, DeviceKey, k)
  {
    if devices != [] {
      var n := |devices| - 1;
      HasGrows(devices, DeviceKey, n);
      DeviceRowsAt(devices[..n]);
      MappedUpdate(DeviceRows(devices[..n]), DevicePosition, devices[n].id, RowOfDevice(devices[n], n));
    }
  }

  lemma {:induction false} SampleDevices(devices: seq<Device>)
    requires DistinctKeys(devices, DeviceKey)
    ensures Distinct(DevicePositions(DeviceRows(devices))) && ReadDevices(DeviceRows(devices)) == devices
  {
    DeviceRowsAt(devices);
    if devices == [] {
      NothingToRead(DEVICES);
    } else {
      var n := |devices| - 1;
      var init, last := devices[..n], devices[n];
      var rows, row := DeviceRows(init), RowOfDevice(last, n);
      HasGrows(devices, DeviceKey, n);
      DeviceRowsAt(init);
      SampleDevices(init);
      DevicesSortable(rows);
      assert forall id | id in rows :: Before(DEVICES.rank(id, rows[id]), DEVICES.rank(last.id, row));
      ReadAppend(rows, DEVICES, DEVICES, last.id, row);
      assert DeviceRows(devices) == rows[last.id := row];
    }
  }

  lemma {:induction false} SceneRowsAt(scenes: seq<Scene>)
    requires DistinctKeys(scenes, SceneKey)
    ensures Distinct(ScenePositions(SceneRows(scenes)))
    ensures forall k | k in SceneRows(scenes) :: SceneRows(scenes)[k].position < |scenes| && Has(scenes, SceneKey, k)
    ensures forall k | k in AllActionRows(scenes) :: k.scene in SceneRows(scenes)
  {
    if scenes != [] {
      var n := |scenes| - 1;
      HasGrows(scenes, SceneKey, n);
      SceneRowsAt(scenes[..n]);
      ActionRowsAreAt(scenes[n].id, scenes[n].actions);
      MappedUpdate(SceneRows(scenes[..n]), ScenePosition, scenes[n].id, RowOfScene(scenes[n], n));
    }
  }

  lemma {:induction false} SampleScenes(scenes: seq<Scene>)
    requires DistinctKeys(scenes, SceneKey)
    ensures Distinct(ScenePositions(SceneRows(scenes))) && ReadScenes(SceneRows(scenes), AllActionRows(scenes)) == scenes
  {
    SceneRowsAt(scenes);
    if scenes == [] {
      NothingToRead(Scenes(map[]));
    } else {
      var n := |scenes| - 1;
      var init, last := scenes[..n], scenes[n];
      var (before, after) := (AllActionRows(init), AllActionRows(scenes));
      HasGrows(scenes, SceneKey, n);
      SceneRowsAt(init);
      SampleScenes(init);
      ActionsWritten(before, last.id, last.actions);
      ScenesSortable(SceneRows(init), before);
      ReadAppend(SceneRows(init), Scenes(before), Scenes(after), last.id, RowOfScene(last, n));
    }
  }

  lemma {:induction false} PlacementRowsRepresent(placements: seq<Placement>)
    requires DistinctKeys(placements, PlacementKey)
    ensures Represents(PlacementRows(placements), PLACEMENTS, PlacementKey, placements)
    ensures forall k | k in PlacementRows(placements) :: Has(placements, PlacementKey, k)
  {
    if placements != [] {
      var n := |placements| - 1;
      HasGrows(placements, PlacementKey, n);
      PlacementRowsRepresent(placements[..n]);
      AppendRepresents(PlacementRows(placements[..n]), PLACEMENTS, PlacementKey, placements[..n], placements[n].device, placements[n].area);
    }
  }

  lemma SamplePlacements(placements: seq<Placement>)
    requires DistinctKeys(placements, PlacementKey)
    ensures multiset(ReadPlacements(PlacementRows(placements))) == multiset(placements)
  {
    PlacementRowsRepresent(placements);
    PlacementsSortable(PlacementRows(placements));
    ReadsUpToOrder(PlacementRows(placements), PLACEMENTS, PlacementKey, placements);
  }

  /** What was read as empty is empty. */
  lemma EmptyReading(t: Tables)
    requires Positioned(t) && ActionsHaveScenes(t)
    requires ReadAreas(t.areas) == [] && ReadDevices(t.devices) == [] && ReadScenes(t.scenes, t.actions) == [] && ReadPlacements(t.placements) == []
    ensures t == NO_ROWS
  {
    AreasSortable(t.areas);
    DevicesSortable(t.devices);
    ScenesSortable(t.scenes, t.actions);
    PlacementsSortable(t.placements);
    NothingRead(t.areas, AREAS);
    NothingRead(t.devices, DEVICES);
    NothingRead(t.scenes, Scenes(t.actions));
    NothingRead(t.placements, PLACEMENTS);
  }

  lemma NothingRead<K(!new), V, T>(table: map<K, V>, r: Reader<K, V, T>)
    requires Sortable(table, r) && ReadAll(table, r) == []
    ensures table == map[]
  {
    var keys := Keys(table, r);
    assert keys == [];
    assert forall k :: k in table <==> k in Ranks(table, r);
    assert forall k :: k in Ranks(table, r) <==> k in keys;
  }

  lemma EmptyHomeLoadsEmpty()
    ensures Positioned(NO_ROWS) && Load(0, NO_ROWS) == Registry(0, [], [], [], [])
  {
    AreasSortable(map[]);
    DevicesSortable(map[]);
    ScenesSortable(map[], map[]);
    PlacementsSortable(map[]);
    NothingToRead(AREAS);
    NothingToRead(DEVICES);
    NothingToRead(Scenes(map[]));
    NothingToRead(PLACEMENTS);
  }

  // ----- One change -----------------------------------------------------------

  /** The registries agree: devices and scenes (with their actions) in order, areas and placements up to order. */
  ghost predicate Agrees(loaded: Registry, answer: Registry) {
    && loaded.revision == answer.revision && loaded.devices == answer.devices && loaded.scenes == answer.scenes
    && multiset(loaded.areas) == multiset(answer.areas) && multiset(loaded.placements) == multiset(answer.placements)
  }

  ghost predicate Ready(t: Tables, revision: int, c: Command) {
    && Positioned(t) && ActionsHaveScenes(t) && CommandRefusal(t, Load(revision, t), c).None? && !Duplicates(t, c)
  }

  /** Reading the rows c writes gives the registry c proposed. */
  ghost predicate ReadsBack(t: Tables, revision: int, c: Command)
    requires Ready(t, revision, c)
  {
    && Positioned(Write(t, c)) && ActionsHaveScenes(Write(t, c))
    && Agrees(Load(revision + 1, Write(t, c)), Proposal(Load(revision, t), revision + 1, c))
  }

  lemma AreaChangeReadsBack(t: Tables, revision: int, c: Command)
    requires Ready(t, revision, c) && (c.CreateArea? || c.UpdateArea? || c.DeleteArea?)
    ensures ReadsBack(t, revision, c)
  {
    match c
    case CreateArea(area) => AreaCreated(t.areas, area);
    case UpdateArea(area) => AreaUpdated(t.areas, area);
    case DeleteArea(id) => AreaDeleted(t.areas, id);
  }

  lemma DeviceChangeReadsBack(t: Tables, revision: int, c: Command)
    requires Ready(t, revision, c) && (c.CreateDevice? || c.UpdateDevice? || c.DeleteDevice?)
    ensures ReadsBack(t, revision, c)
  {
    match c
    case CreateDevice(device) => DeviceCreated(t.devices, device);
    case UpdateDevice(device) => DeviceUpdated(t.devices, device);
    case DeleteDevice(id) => DeviceDeleted(t.devices, id);
  }

  lemma ScenesReload(t: Tables, u: Tables, revision: int, answer: Registry)
    requires Positioned(t) && u == t.(scenes := u.scenes, actions := u.actions) && Distinct(ScenePositions(u.scenes))
    requires answer == Load(revision, t).(revision := revision + 1, scenes := ReadScenes(u.scenes, u.actions))
    ensures Positioned(u) && Agrees(Load(revision + 1, u), answer)
  {
  }

  lemma SceneCreationWrites(t: Tables, scene: Scene, u: Tables)
    requires Distinct(ScenePositions(t.scenes)) && ActionsHaveScenes(t) && scene.id !in t.scenes && u == Write(t, CreateScene(scene))
    ensures Distinct(ScenePositions(u.scenes)) && ActionsHaveScenes(u)
    ensures ReadScenes(u.scenes, u.actions) == ReadScenes(t.scenes, t.actions) + [scene]
  {
    SceneCreated(t.scenes, t.actions, scene);
    ActionRowsAreAt(scene.id, scene.actions);
  }

  lemma SceneCreationReadsBack(t: Tables, revision: int, scene: Scene)
    requires Ready(t, revision, CreateScene(scene))
    ensures ReadsBack(t, revision, CreateScene(scene))
  {
    SceneCreationWrites(t, scene, Write(t, CreateScene(scene)));
    ScenesReload(t, Write(t, CreateScene(scene)), revision, Proposal(Load(revision, t), revision + 1, CreateScene(scene)));
  }

  lemma SceneUpdateWrites(t: Tables, scene: Scene, u: Tables)
    requires Distinct(ScenePositions(t.scenes)) && ActionsHaveScenes(t) && scene.id in t.scenes && u == Write(t, UpdateScene(scene))
    ensures Distinct(ScenePositions(u.scenes)) && ActionsHaveScenes(u)
    ensures ReadScenes(u.scenes, u.actions) == Replace(ReadScenes(t.scenes, t.actions), SceneKey, scene)
  {
    SceneUpdated(t.scenes, t.actions, scene);
    ActionRowsAreAt(scene.id, scene.actions);
  }

  lemma SceneUpdateReadsBack(t: Tables, revision: int, scene: Scene)
    requires Ready(t, revision, UpdateScene(scene))
    ensures ReadsBack(t, revision, UpdateScene(scene))
  {
    SceneUpdateWrites(t, scene, Write(t, UpdateScene(scene)));
    ScenesReload(t, Write(t, UpdateScene(scene)), revision, Proposal(Load(revision, t), revision + 1, UpdateScene(scene)));
  }

  lemma SceneDeletionReadsBack(t: Tables, revision: int, id: SceneId)
    requires Ready(t, revision, DeleteScene(id))
    ensures ReadsBack(t, revision, DeleteScene(id))
  {
    SceneDeleted(t.scenes, t.actions, id);
  }

  lemma PlacementChangeReadsBack(t: Tables, revision: int, c: Command)
    requires Ready(t, revision, c) && (c.SetPlacement? || c.ClearPlacement?)
    ensures ReadsBack(t, revision, c)
  {
    match c
    case SetPlacement(p) => PlacementSet(t.placements, p);
    case ClearPlacement(ref) => PlacementCleared(t.placements, ref);
  }

  function SampleTables(sample: Registry): Tables {
    Tables(AreaRows(sample.areas), DeviceRows(sample.devices), SceneRows(sample.scenes), AllActionRows(sample.scenes),
           PlacementRows(sample.placements))
  }

  lemma SampleTablesReadBack(sample: Registry, revision: int)
    requires DistinctKeys(sample.areas, AreaKey) && DistinctKeys(sample.devices, DeviceKey)
    requires DistinctKeys(sample.scenes, SceneKey) && DistinctKeys(sample.placements, PlacementKey)
    ensures Positioned(SampleTables(sample)) && ActionsHaveScenes(SampleTables(sample))
    ensures Agrees(Load(revision, SampleTables(sample)), sample.(revision := revision))
  {
    SampleAreas(sample.areas);
    SampleDevices(sample.devices);
    SampleScenes(sample.scenes);
    SceneRowsAt(sample.scenes);
    SamplePlacements(sample.placements);
  }

  lemma OnlyAnEmptyHomeTakesASample(t: Tables, revision: int, sample: Registry)
    requires Positioned(t) && ActionsHaveScenes(t)
    requires CommandRefusal(t, Load(revision, t), LoadSample(sample)).None?
    ensures t == NO_ROWS
  {
    EmptyReading(t);
  }

  lemma SampleWritten(sample: Registry)
    ensures Write(NO_ROWS, LoadSample(sample)) == SampleTables(sample)
  {
  }

  lemma SampleReadsBack(t: Tables, revision: int, sample: Registry)
    requires Ready(t, revision, LoadSample(sample))
    ensures ReadsBack(t, revision, LoadSample(sample))
  {
    OnlyAnEmptyHomeTakesASample(t, revision, sample);
    SampleTablesReadBack(sample, revision + 1);
    SampleWritten(sample);
  }

  /** Every accepted command's rows reload as its answer. */
  lemma ChangeReadsBack(t: Tables, revision: int, c: Command)
    requires Ready(t, revision, c)
    ensures ReadsBack(t, revision, c)
  {
    if c.CreateArea? || c.UpdateArea? || c.DeleteArea? {
      AreaChangeReadsBack(t, revision, c);
    } else if c.CreateDevice? || c.UpdateDevice? || c.DeleteDevice? {
      DeviceChangeReadsBack(t, revision, c);
    } else if c.CreateScene? {
      SceneCreationReadsBack(t, revision, c.scene);
    } else if c.UpdateScene? {
      SceneUpdateReadsBack(t, revision, c.scene);
    } else if c.DeleteScene? {
      SceneDeletionReadsBack(t, revision, c.sceneId);
    } else if c.LoadSample? {
      SampleReadsBack(t, revision, c.sample);
    } else {
      PlacementChangeReadsBack(t, revision, c);
    }
  }

  lemma DoneMeans(h: Home, accepts: Registry -> bool, expected: int, c: Command)
    requires Sound(h)
    ensures Change(h, accepts, expected, c).Done? <==>
              && h.revision == expected && Ready(h.tables, expected, c) && accepts(Proposal(Load(expected, h.tables), expected + 1, c))
    ensures Change(h, accepts, expected, c).Done? ==> Change(h, accepts, expected, c) == Applied(h, expected, c)
  {
  }

  lemma DoneIsApplied(h: Home, accepts: Registry -> bool, expected: int, c: Command, outcome: Outcome)
    requires Sound(h) && outcome == Change(h, accepts, expected, c) && outcome.Done?
    ensures h.revision == expected && Ready(h.tables, expected, c) && outcome == Applied(h, expected, c) && accepts(outcome.answer)
  {
    DoneMeans(h, accepts, expected, c);
  }

  lemma AppliedReadsBack(h: Home, expected: int, c: Command)
    requires Sound(h) && h.revision == expected && Ready(h.tables, expected, c)
    ensures var outcome := Applied(h, expected, c);
            && Positioned(outcome.home.tables) && ActionsHaveScenes(outcome.home.tables)
            && Agrees(Load(outcome.home.revision, outcome.home.tables), outcome.answer)
  {
    ChangeReadsBack(h.tables, expected, c);
  }

  lemma NextHomeIsSound(h: Home, u: Home, c: Command)
    requires Sound(h) && Positioned(u.tables) && ActionsHaveScenes(u.tables)
    requires u.revision == h.revision + 1 && u.facts == h.facts + [Fact(h.revision + 1, c)]
    ensures Sound(u)
  {
  }

  lemma AppliedIsReadable(h: Home, expected: int, c: Command)
    requires Sound(h) && h.revision == expected && Ready(h.tables, expected, c)
    ensures Positioned(Applied(h, expected, c).home.tables) && ActionsHaveScenes(Applied(h, expected, c).home.tables)
  {
    AppliedReadsBack(h, expected, c);
  }

  lemma AppliedIsNext(h: Home, expected: int, c: Command)
    requires h.revision == expected && Ready(h.tables, expected, c)
    ensures var u := Applied(h, expected, c).home;
            u.revision == h.revision + 1 && u.facts == h.facts + [Fact(h.revision + 1, c)]
  {
  }

  lemma AppliedIsSound(h: Home, expected: int, c: Command)
    requires Sound(h) && h.revision == expected && Ready(h.tables, expected, c)
    ensures Sound(Applied(h, expected, c).home)
  {
    AppliedIsReadable(h, expected, c);
    AppliedIsNext(h, expected, c);
    NextHomeIsSound(h, Applied(h, expected, c).home, c);
  }

  /** Rows refine the proposal: a successful change answers the registry that its rows reload as. */
  lemma RowsRefineTheProposal(h: Home, accepts: Registry -> bool, expected: int, c: Command, outcome: Outcome)
    requires Sound(h) && outcome == Change(h, accepts, expected, c) && outcome.Done?
    ensures Positioned(outcome.home.tables) && Agrees(Load(outcome.home.revision, outcome.home.tables), outcome.answer)
  {
    DoneMeans(h, accepts, expected, c);
    AppliedReadsBack(h, expected, c);
  }

  /** It moves the home by exactly one revision and one fact, and keeps it sound. */
  lemma ChangeAdvances(h: Home, accepts: Registry -> bool, expected: int, c: Command, outcome: Outcome)
    requires Sound(h) && outcome == Change(h, accepts, expected, c) && outcome.Done?
    ensures Sound(outcome.home) && outcome.home.revision == h.revision + 1 == expected + 1 && accepts(outcome.answer)
    ensures outcome.home.facts == h.facts + [Fact(h.revision + 1, c)]
  {
    DoneIsApplied(h, accepts, expected, c, outcome);
    AppliedIsSound(h, expected, c);
    AppliedIsNext(h, expected, c);
  }
}
