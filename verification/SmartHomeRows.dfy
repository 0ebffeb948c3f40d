/** The rows a change writes read back as the registry it answered. */
module SmartHomeRows {
  import opened Core
  import opened Ordering
  import opened Listing
  import opened SmartHome

  // ----- Actions --------------------------------------------------------------

  lemma {:induction false} ActionRowsAreAt(scene: SceneId, actions: seq<Action>)
    ensures forall k :: k in ActionRows(scene, actions) <==> k.scene == scene && 0 <= k.position < |actions|
  {
    if actions != [] { ActionRowsAreAt(scene, actions[..|actions| - 1]); }
  }

  lemma NothingToRead<K(!new), V, T>(r: Reader<K, V, T>)
    ensures Sortable(map[], r) && ReadAll(map[], r) == []
  {
    var keys := Keys(map[], r);
    HeadIsIn(keys);
  }

  lemma ActionAppended(rows: map<ActionKey, Action>, scene: SceneId, n: nat, last: Action)
    requires Sortable(rows, ACTIONS) && forall k | k in rows :: k.position < n
    ensures Sortable(rows[ActionKey(scene, n) := last], ACTIONS)
    ensures ReadAll(rows[ActionKey(scene, n) := last], ACTIONS) == ReadAll(rows, ACTIONS) + [last]
  {
    ReadAppend(rows, ACTIONS, ACTIONS, ActionKey(scene, n), last);
  }

  lemma LastRow(scene: SceneId, front: seq<Action>, last: Action)
    ensures ActionRows(scene, front + [last]) == ActionRows(scene, front)[ActionKey(scene, |front|) := last]
  {
    assert (front + [last])[..|front|] == front;
  }

  lemma LastActionRead(scene: SceneId, front: seq<Action>, last: Action)
    requires Sortable(ActionRows(scene, front), ACTIONS) && ReadAll(ActionRows(scene, front), ACTIONS) == front
    ensures Sortable(ActionRows(scene, front + [last]), ACTIONS)
    ensures ReadAll(ActionRows(scene, front + [last]), ACTIONS) == front + [last]
  {
    ActionRowsAreAt(scene, front);
    ActionAppended(ActionRows(scene, front), scene, |front|, last);
    LastRow(scene, front, last);
  }

  lemma NoActionsRead(scene: SceneId)
    ensures Sortable(ActionRows(scene, []), ACTIONS) && ReadAll(ActionRows(scene, []), ACTIONS) == []
  {
    assert ActionRows(scene, []) == map[];
    NothingToRead(ACTIONS);
  }

  /** A scene's action rows read back as its actions, in order. */
  lemma {:induction false} ActionRowsReadBack(scene: SceneId, actions: seq<Action>)
    ensures Sortable(ActionRows(scene, actions), ACTIONS)
    ensures ReadAll(ActionRows(scene, actions), ACTIONS) == actions
  {
    if actions == [] {
      NoActionsRead(scene);
    } else {
      var front, last := actions[..|actions| - 1], actions[|actions| - 1];
      ActionRowsReadBack(scene, front);
      LastActionRead(scene, front, last);
      assert actions == front + [last];
    }
  }

  lemma OwnActionsWritten(rest: map<ActionKey, Action>, scene: SceneId, actions: seq<Action>)
    requires forall k | k in rest :: k.scene != scene
    ensures ActionsOf(rest + ActionRows(scene, actions), scene) == actions
  {
    OnlyItsActions(rest, scene, actions);
    ActionRowsReadBack(scene, actions);
  }

  lemma OnlyItsActions(rest: map<ActionKey, Action>, scene: SceneId, actions: seq<Action>)
    requires forall k | k in rest :: k.scene != scene
    ensures ActionsIn(rest + ActionRows(scene, actions), scene) == ActionRows(scene, actions)
  {
    ActionRowsAreAt(scene, actions);
  }

  lemma NotItsActions(rest: map<ActionKey, Action>, scene: SceneId, actions: seq<Action>, other: SceneId)
    requires other != scene
    ensures ActionsIn(rest + ActionRows(scene, actions), other) == ActionsIn(rest, other)
  {
    ActionRowsAreAt(scene, actions);
  }

  /** Writing a scene's actions gives it these and leaves every other scene's alone. */
  lemma ActionsWritten(rest: map<ActionKey, Action>, scene: SceneId, actions: seq<Action>)
    requires forall k | k in rest :: k.scene != scene
    ensures ActionsOf(rest + ActionRows(scene, actions), scene) == actions
    ensures forall other | other != scene :: ActionsOf(rest + ActionRows(scene, actions), other) == ActionsOf(rest, other)
  {
    OwnActionsWritten(rest, scene, actions);
    forall other | other != scene ensures ActionsOf(rest + ActionRows(scene, actions), other) == ActionsOf(rest, other) {
      NotItsActions(rest, scene, actions, other);
    }
  }

  lemma ActionsRemoved(actions: map<ActionKey, Action>, scene: SceneId)
    ensures forall other | other != scene :: ActionsOf(WithoutActions(actions, scene), other) == ActionsOf(actions, other)
  {
    forall other | other != scene ensures ActionsOf(WithoutActions(actions, scene), other) == ActionsOf(actions, other) {
      assert ActionsIn(WithoutActions(actions, scene), other) == ActionsIn(actions, other);
    }
  }

  // ----- Areas ----------------------------------------------------------------

  lemma AreasRepresented(areas: map<AreaId, AreaRow>)
    requires Distinct(AreaPositions(areas))
    ensures Represents(areas, AREAS, AreaKey, ReadAreas(areas))
  {
    AreasSortable(areas);
    ReadRepresents(areas, AREAS, AreaKey);
  }

  lemma NewAreaIsDistinct(areas: map<AreaId, AreaRow>, area: Area)
    requires Distinct(AreaPositions(areas)) && area.id !in areas
    ensures Distinct(AreaPositions(areas[area.id := RowOfArea(area, Next(AreaPositions(areas)))]))
  {
    MappedUpdate(areas, AreaPosition, area.id, RowOfArea(area, Next(AreaPositions(areas))));
  }

  lemma AreaCreated(areas: map<AreaId, AreaRow>, area: Area)
    requires Distinct(AreaPositions(areas)) && area.id !in areas
    ensures var u := areas[area.id := RowOfArea(area, Next(AreaPositions(areas)))];
            Distinct(AreaPositions(u)) && multiset(ReadAreas(u)) == multiset(ReadAreas(areas) + [area])
  {
    var row := RowOfArea(area, Next(AreaPositions(areas)));
    AreasRepresented(areas);
    NewAreaIsDistinct(areas, area);
    AreasSortable(areas[area.id := row]);
    InsertedUpToOrder(areas, AREAS, AreaKey, ReadAreas(areas), area.id, row);
  }

  lemma UpdatedAreaIsDistinct(areas: map<AreaId, AreaRow>, area: Area)
    requires Distinct(AreaPositions(areas)) && area.id in areas
    ensures Distinct(AreaPositions(areas[area.id := RowOfArea(area, areas[area.id].position)]))
  {
    MappedUpdate(areas, AreaPosition, area.id, RowOfArea(area, areas[area.id].position));
  }

  lemma AreaUpdated(areas: map<AreaId, AreaRow>, area: Area)
    requires Distinct(AreaPositions(areas)) && area.id in areas
    ensures var u := areas[area.id := RowOfArea(area, areas[area.id].position)];
            Distinct(AreaPositions(u)) && multiset(ReadAreas(u)) == multiset(Replace(ReadAreas(areas), AreaKey, area))
  {
    var row := RowOfArea(area, areas[area.id].position);
    AreasRepresented(areas);
    UpdatedAreaIsDistinct(areas, area);
    AreasSortable(areas[area.id := row]);
    ReplacedUpToOrder(areas, AREAS, AreaKey, ReadAreas(areas), area.id, row);
  }

  lemma AreaDeleted(areas: map<AreaId, AreaRow>, id: AreaId)
    requires Distinct(AreaPositions(areas))
    ensures Distinct(AreaPositions(areas - {id}))
    ensures multiset(ReadAreas(areas - {id})) == multiset(Drop(ReadAreas(areas), AreaKey, id))
  {
    AreasRepresented(areas);
    MappedRemove(areas, AreaPosition, id);
    AreasSortable(areas - {id});
    RemovedUpToOrder(areas, AREAS, AreaKey, ReadAreas(areas), id);
  }

  lemma HighestAreaReloadsLast(areas: map<AreaId, AreaRow>, area: Area, row: AreaRow)
    requires Distinct(AreaPositions(areas)) && area.id !in areas && row == RowOfArea(area, Next(AreaPositions(areas)))
    requires forall id | id in areas :: areas[id].order <= area.order
    ensures Distinct(AreaPositions(areas[area.id := row])) && ReadAreas(areas[area.id := row]) == ReadAreas(areas) + [area]
  {
    NewAreaIsDistinct(areas, area);
    AreasSortable(areas);
    forall id | id in areas ensures Before(AREAS.rank(id, areas[id]), AREAS.rank(area.id, row)) {
      assert AreaPositions(areas)[id] < row.position;
    }
    ReadAppend(areas, AREAS, AREAS, area.id, row);
  }

  lemma LowerAreaReloadsEarlier(areas: map<AreaId, AreaRow>, area: Area, higher: AreaId)
    requires Distinct(AreaPositions(areas)) && higher in areas && area.id in areas
    requires areas[area.id] == RowOfArea(area, areas[area.id].position) && areas[higher].order > area.order
    ensures ReadAreas(areas) != [] && ReadAreas(areas)[|ReadAreas(areas)| - 1].id != area.id
  {
    AreasSortable(areas);
    var ranks, keys := Ranks(areas, AREAS), Keys(areas, AREAS);
    assert higher in ranks && higher in keys;
    var i :| 0 <= i < |keys| && keys[i] == higher;
    assert i == |keys| - 1 || Before(ranks[keys[i]], ranks[keys[|keys| - 1]]);
    assert ReadAreas(areas)[|keys| - 1].id == keys[|keys| - 1];
  }

  lemma CreatedAreaReloadsEarlier(areas: map<AreaId, AreaRow>, area: Area, row: AreaRow, higher: AreaId)
    requires Distinct(AreaPositions(areas)) && area.id !in areas && row == RowOfArea(area, Next(AreaPositions(areas)))
    requires higher in areas && areas[higher].order > area.order
    ensures Distinct(AreaPositions(areas[area.id := row])) && ReadAreas(areas[area.id := row]) != ReadAreas(areas) + [area]
  {
    NewAreaIsDistinct(areas, area);
    LowerAreaReloadsEarlier(areas[area.id := row], area, higher);
    var after := ReadAreas(areas) + [area];
    assert after[|after| - 1].id == area.id;
  }

  /** When exactly a created area reloads where the answer put it, at the end: no existing area has a higher order. */
  lemma CreatedAreaReloadsLast(areas: map<AreaId, AreaRow>, area: Area)
    requires Distinct(AreaPositions(areas)) && area.id !in areas
    ensures var u := areas[area.id := RowOfArea(area, Next(AreaPositions(areas)))];
            Distinct(AreaPositions(u))
            && (ReadAreas(u) == ReadAreas(areas) + [area] <==> forall id | id in areas :: areas[id].order <= area.order)
  {
    var row := RowOfArea(area, Next(AreaPositions(areas)));
    if forall id | id in areas :: areas[id].order <= area.order {
      HighestAreaReloadsLast(areas, area, row);
    } else {
      var higher :| higher in areas && areas[higher].order > area.order;
      CreatedAreaReloadsEarlier(areas, area, row, higher);
    }
  }

  // ----- Devices --------------------------------------------------------------

  lemma DeviceCreated(devices: map<DeviceId, DeviceRow>, device: Device)
    requires Distinct(DevicePositions(devices)) && device.id !in devices
    ensures var u := devices[device.id := RowOfDevice(device, Next(DevicePositions(devices)))];
            Distinct(DevicePositions(u)) && ReadDevices(u) == ReadDevices(devices) + [device]
  {
    var row := RowOfDevice(device, Next(DevicePositions(devices)));
    DevicesSortable(devices);
    forall id | id in devices ensures Before(DEVICES.rank(id, devices[id]), DEVICES.rank(device.id, row)) {
      assert DevicePositions(devices)[id] < row.position;
    }
    MappedUpdate(devices, DevicePosition, device.id, row);
    ReadAppend(devices, DEVICES, DEVICES, device.id, row);
  }

  lemma DeviceUpdated(devices: map<DeviceId, DeviceRow>, device: Device)
    requires Distinct(DevicePositions(devices)) && device.id in devices
    ensures var u := devices[device.id := RowOfDevice(device, devices[device.id].position)];
            Distinct(DevicePositions(u)) && ReadDevices(u) == Replace(ReadDevices(devices), DeviceKey, device)
  {
    var row := RowOfDevice(device, devices[device.id].position);
    DevicesSortable(devices);
    MappedUpdate(devices, DevicePosition, device.id, row);
    ReadReplace(devices, DEVICES, DEVICES, DeviceKey, device.id, row);
  }

  lemma DeviceDeleted(devices: map<DeviceId, DeviceRow>, id: DeviceId)
    requires Distinct(DevicePositions(devices))
    ensures Distinct(DevicePositions(devices - {id}))
    ensures ReadDevices(devices - {id}) == Drop(ReadDevices(devices), DeviceKey, id)
  {
    DevicesSortable(devices);
    MappedRemove(devices, DevicePosition, id);
    ReadRemove(devices, DEVICES, DEVICES, DeviceKey, id);
  }

  // ----- Scenes ---------------------------------------------------------------

  lemma NewScenesComeLast(
    scenes: map<SceneId, SceneRow>, actions: map<ActionKey, Action>, actions': map<ActionKey, Action>, id: SceneId, row: SceneRow)
    requires row.position == Next(ScenePositions(scenes))
    ensures forall k | k in scenes :: Before(Scenes(actions).rank(k, scenes[k]), Scenes(actions').rank(id, row))
  {
    forall k | k in scenes ensures Before(Scenes(actions).rank(k, scenes[k]), Scenes(actions').rank(id, row)) {
      assert ScenePositions(scenes)[k] < row.position;
    }
  }

  lemma SceneCreated(scenes: map<SceneId, SceneRow>, actions: map<ActionKey, Action>, scene: Scene)
    requires Distinct(ScenePositions(scenes)) && scene.id !in scenes
    requires forall k | k in actions :: k.scene in scenes
    ensures var u := scenes[scene.id := RowOfScene(scene, Next(ScenePositions(scenes)))];
            Distinct(ScenePositions(u))
            && ReadScenes(u, actions + ActionRows(scene.id, scene.actions)) == ReadScenes(scenes, actions) + [scene]
  {
    var row, actions' := RowOfScene(scene, Next(ScenePositions(scenes))), actions + ActionRows(scene.id, scene.actions);
    ScenesSortable(scenes, actions);
    ActionsWritten(actions, scene.id, scene.actions);
    NewScenesComeLast(scenes, actions, actions', scene.id, row);
    MappedUpdate(scenes, ScenePosition, scene.id, row);
    ReadAppend(scenes, Scenes(actions), Scenes(actions'), scene.id, row);
  }

  lemma SceneUpdated(scenes: map<SceneId, SceneRow>, actions: map<ActionKey, Action>, scene: Scene)
    requires Distinct(ScenePositions(scenes)) && scene.id in scenes
    ensures var u := scenes[scene.id := RowOfScene(scene, scenes[scene.id].position)];
            Distinct(ScenePositions(u))
            && ReadScenes(u, WithoutActions(actions, scene.id) + ActionRows(scene.id, scene.actions))
               == Replace(ReadScenes(scenes, actions), SceneKey, scene)
  {
    var row := RowOfScene(scene, scenes[scene.id].position);
    var rest := WithoutActions(actions, scene.id);
    var actions' := rest + ActionRows(scene.id, scene.actions);
    ScenesSortable(scenes, actions);
    ActionsRemoved(actions, scene.id);
    ActionsWritten(rest, scene.id, scene.actions);
    MappedUpdate(scenes, ScenePosition, scene.id, row);
    ReadReplace(scenes, Scenes(actions), Scenes(actions'), SceneKey, scene.id, row);
  }

  lemma SceneDeleted(scenes: map<SceneId, SceneRow>, actions: map<ActionKey, Action>, id: SceneId)
    requires Distinct(ScenePositions(scenes))
    ensures Distinct(ScenePositions(scenes - {id}))
    ensures ReadScenes(scenes - {id}, WithoutActions(actions, id)) == Drop(ReadScenes(scenes, actions), SceneKey, id)
  {
    ScenesSortable(scenes, actions);
    ActionsRemoved(actions, id);
    MappedRemove(scenes, ScenePosition, id);
    ReadRemove(scenes, Scenes(actions), Scenes(WithoutActions(actions, id)), SceneKey, id);
  }

  // ----- Placements -----------------------------------------------------------

  lemma PlacementsSortable(placements: map<DeviceRef, AreaId>)
    ensures Sortable(placements, PLACEMENTS) && KeyOf(placements, PLACEMENTS, PlacementKey)
  {
    assert DistinctRanks(Ranks(placements, PLACEMENTS));
  }

  lemma PlacementsRepresented(placements: map<DeviceRef, AreaId>)
    ensures Represents(placements, PLACEMENTS, PlacementKey, ReadPlacements(placements))
  {
    PlacementsSortable(placements);
    ReadRepresents(placements, PLACEMENTS, PlacementKey);
  }

  lemma OthersRepresented(placements: map<DeviceRef, AreaId>, ref: DeviceRef)
    ensures Represents(placements - {ref}, PLACEMENTS, PlacementKey, Drop(ReadPlacements(placements), PlacementKey, ref))
  {
    PlacementsRepresented(placements);
    DropRepresents(placements, PLACEMENTS, PlacementKey, ReadPlacements(placements), ref);
  }

  lemma PlacementSet(placements: map<DeviceRef, AreaId>, p: Placement)
    ensures multiset(ReadPlacements(placements[p.device := p.area]))
            == multiset(Drop(ReadPlacements(placements), PlacementKey, p.device) + [p])
  {
    var rest := placements - {p.device};
    OthersRepresented(placements, p.device);
    assert rest[p.device := p.area] == placements[p.device := p.area];
    PlacementsSortable(rest[p.device := p.area]);
    InsertedUpToOrder(rest, PLACEMENTS, PlacementKey, Drop(ReadPlacements(placements), PlacementKey, p.device), p.device, p.area);
  }

  lemma PlacementCleared(placements: map<DeviceRef, AreaId>, ref: DeviceRef)
    ensures multiset(ReadPlacements(placements - {ref})) == multiset(Drop(ReadPlacements(placements), PlacementKey, ref))
  {
    OthersRepresented(placements, ref);
    PlacementsSortable(placements - {ref});
    ReadsUpToOrder(placements - {ref}, PLACEMENTS, PlacementKey, Drop(ReadPlacements(placements), PlacementKey, ref));
  }
}
