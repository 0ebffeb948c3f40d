/** The registry service over the homes' rows: load_registry with its appending loop, and each command as one transaction. */
module SmartHomeStore {
  import opened Core
  import opened Ordering
  import opened Listing
  import H = SmartHome
  import L = SmartHomeReload
  import R = SmartHomeRuns

  // ----- Loading --------------------------------------------------------------

  /** All action rows, by scene and position. */
  const ALL_ACTIONS: Reader<H.ActionKey, H.Action, H.Action> :=
    Reader((k: H.ActionKey, a) => Rank(k.scene, k.position), (k, a) => a)

  /** keys are this scene's among the rows read so far, in order of position, and list holds their actions. */
  ghost predicate Filed(
    actions: map<H.ActionKey, H.Action>, read: seq<H.ActionKey>, scene: H.SceneId, keys: seq<H.ActionKey>, list: seq<H.Action>)
  {
    && (forall k :: k in keys <==> k in read && k.scene == scene)
    && (forall i, j | 0 <= i < j < |keys| :: keys[i].position < keys[j].position)
    && (forall k | k in keys :: k in actions) && list == Views(actions, ALL_ACTIONS, keys)
  }

  lemma FiledGrows(
    actions: map<H.ActionKey, H.Action>, all: seq<H.ActionKey>, i: nat, scene: H.SceneId, keys: seq<H.ActionKey>, list: seq<H.Action>)
    requires i < |all| && Lists(Ranks(actions, ALL_ACTIONS), all) && all[i] in actions
    requires Filed(actions, all[..i], scene, keys, list)
    ensures if all[i].scene == scene then Filed(actions, all[..i + 1], scene, keys + [all[i]], list + [actions[all[i]]])
            else Filed(actions, all[..i + 1], scene, keys, list)
  {
    var rank := Ranks(actions, ALL_ACTIONS);
    assert all[..i + 1] == all[..i] + [all[i]];
    forall k | k in keys ensures k in all[..i] && (all[i].scene == scene ==> k.position < all[i].position) {
      var j :| 0 <= j < i && all[..i][j] == k;
      assert Before(rank[all[j]], rank[all[i]]);
      assert all[j] in all && all[i] in all;
    }
    assert all[i].scene == scene ==> Views(actions, ALL_ACTIONS, keys + [all[i]]) == list + [actions[all[i]]];
  }

  lemma FiledIsTheScenesActions(
    actions: map<H.ActionKey, H.Action>, all: seq<H.ActionKey>, scene: H.SceneId, keys: seq<H.ActionKey>, list: seq<H.Action>)
    requires Lists(Ranks(actions, ALL_ACTIONS), all) && Filed(actions, all, scene, keys, list)
    ensures list == H.ActionsOf(actions, scene)
  {
    var mine := H.ActionsIn(actions, scene);
    var rank := Ranks(mine, H.ACTIONS);
    assert DistinctRanks(rank);
    forall k ensures k in keys <==> k in rank {
      assert k in all <==> k in Ranks(actions, ALL_ACTIONS);
    }
    forall i, j | 0 <= i < j < |keys| ensures Before(rank[keys[i]], rank[keys[j]]) {
      assert keys[i] in keys && keys[j] in keys;
    }
    ListingUnique(rank, keys, Keys(mine, H.ACTIONS));
    forall i | 0 <= i < |keys| ensures list[i] == H.ActionsOf(actions, scene)[i] {
      assert keys[i] in keys;
    }
  }

  lemma AllActionsSortable(actions: map<H.ActionKey, H.Action>)
    ensures Sortable(actions, ALL_ACTIONS)
  {
  }

  method EmptyLists(scenes: seq<H.SceneId>) returns (lists: map<H.SceneId, seq<H.Action>>)
    ensures forall s :: s in lists <==> s in scenes
    ensures forall s | s in lists :: lists[s] == []
  {
    lists := map[];
    for i := 0 to |scenes|
      invariant forall s :: s in lists <==> s in scenes[..i]
      invariant forall s | s in lists :: lists[s] == []
    {
      assert scenes[..i + 1] == scenes[..i] + [scenes[i]];
      lists := lists[scenes[i] := []];
    }
    assert scenes[..|scenes|] == scenes;
  }

  ghost predicate AllLists(
    actions: map<H.ActionKey, H.Action>, read: seq<H.ActionKey>, groups: map<H.SceneId, seq<H.ActionKey>>, lists: map<H.SceneId, seq<H.Action>>)
  {
    lists.Keys == groups.Keys && forall s | s in groups :: Filed(actions, read, s, groups[s], lists[s])
  }

  ghost predicate ScenesFound(read: seq<H.ActionKey>, lists: map<H.SceneId, seq<H.Action>>) {
    forall k | k in read :: k.scene in lists
  }

  ghost predicate AllFiled(
    actions: map<H.ActionKey, H.Action>, read: seq<H.ActionKey>, groups: map<H.SceneId, seq<H.ActionKey>>, lists: map<H.SceneId, seq<H.Action>>)
  {
    AllLists(actions, read, groups, lists) && ScenesFound(read, lists)
  }

  lemma AllListsGrow(
    actions: map<H.ActionKey, H.Action>, all: seq<H.ActionKey>, i: nat, groups: map<H.SceneId, seq<H.ActionKey>>,
    lists: map<H.SceneId, seq<H.Action>>)
    requires i < |all| && Lists(Ranks(actions, ALL_ACTIONS), all) && all[i] in actions
    requires AllLists(actions, all[..i], groups, lists) && all[i].scene in lists
    ensures var k := all[i];
            AllLists(actions, all[..i + 1], groups[k.scene := groups[k.scene] + [k]], lists[k.scene := lists[k.scene] + [actions[k]]])
  {
    forall s | s in groups
      ensures if all[i].scene == s then Filed(actions, all[..i + 1], s, groups[s] + [all[i]], lists[s] + [actions[all[i]]])
              else Filed(actions, all[..i + 1], s, groups[s], lists[s])
    {
      FiledGrows(actions, all, i, s, groups[s], lists[s]);
    }
  }

  lemma ScenesFoundGrow(all: seq<H.ActionKey>, i: nat, lists: map<H.SceneId, seq<H.Action>>, grown: map<H.SceneId, seq<H.Action>>)
    requires i < |all| && all[i].scene in lists && ScenesFound(all[..i], lists) && grown.Keys == lists.Keys
    ensures ScenesFound(all[..i + 1], grown)
  {
    assert all[..i + 1] == all[..i] + [all[i]];
  }

  lemma AllFiledGrows(
    actions: map<H.ActionKey, H.Action>, all: seq<H.ActionKey>, i: nat, groups: map<H.SceneId, seq<H.ActionKey>>,
    lists: map<H.SceneId, seq<H.Action>>)
    requires i < |all| && Lists(Ranks(actions, ALL_ACTIONS), all) && all[i] in actions
    requires AllFiled(actions, all[..i], groups, lists) && all[i].scene in lists
    ensures var k := all[i];
            AllFiled(actions, all[..i + 1], groups[k.scene := groups[k.scene] + [k]], lists[k.scene := lists[k.scene] + [actions[k]]])
  {
    var grown := lists[all[i].scene := lists[all[i].scene] + [actions[all[i]]]];
    AllListsGrow(actions, all, i, groups, lists);
    ScenesFoundGrow(all, i, lists, grown);
  }

  lemma NothingFiled(actions: map<H.ActionKey, H.Action>, groups: map<H.SceneId, seq<H.ActionKey>>, lists: map<H.SceneId, seq<H.Action>>)
    requires lists.Keys == groups.Keys
    requires forall s | s in groups :: groups[s] == [] && lists[s] == []
    ensures AllFiled(actions, [], groups, lists)
  {
  }

  lemma AllFiledAnswers(
    actions: map<H.ActionKey, H.Action>, all: seq<H.ActionKey>, groups: map<H.SceneId, seq<H.ActionKey>>, lists: map<H.SceneId, seq<H.Action>>)
    requires Lists(Ranks(actions, ALL_ACTIONS), all) && AllFiled(actions, all, groups, lists)
    ensures forall s | s in lists :: lists[s] == H.ActionsOf(actions, s)
    ensures forall k | k in actions :: k.scene in lists
  {
    forall k | k in actions ensures k.scene in lists {
      assert k in Ranks(actions, ALL_ACTIONS);
      assert k in all;
    }
    forall s | s in lists ensures lists[s] == H.ActionsOf(actions, s) {
      FiledIsTheScenesActions(actions, all, s, groups[s], lists[s]);
    }
  }

  /** Appends every action row to its scene's list in turn; None is the missing scene's KeyError. */
  method AppendActions(
    actions: map<H.ActionKey, H.Action>, all: seq<H.ActionKey>, empty: map<H.SceneId, seq<H.Action>>,
    ghost none: map<H.SceneId, seq<H.ActionKey>>) returns (lists: Option<map<H.SceneId, seq<H.Action>>>, ghost missing: nat)
    requires Lists(Ranks(actions, ALL_ACTIONS), all) && AllFiled(actions, [], none, empty)
    requires forall i | 0 <= i < |all| :: all[i] in actions
    ensures lists.None? ==> missing < |all| && all[missing].scene !in empty
    ensures lists.Some? ==> forall k | k in actions :: k.scene in empty
    ensures lists.Some? ==> lists.value.Keys == empty.Keys && forall s | s in empty :: lists.value[s] == H.ActionsOf(actions, s)
  {
    var found := empty;
    ghost var groups := none;
    assert all[..0] == [];
    for i := 0 to |all|
      invariant found.Keys == empty.Keys
      invariant AllFiled(actions, all[..i], groups, found)
    {
      var k := all[i];
      if k.scene !in found { return None, i; }
      AllFiledGrows(actions, all, i, groups, found);
      found := found[k.scene := found[k.scene] + [actions[k]]];
      groups := groups[k.scene := groups[k.scene] + [k]];
    }
    assert all[..|all|] == all;
    AllFiledAnswers(actions, all, groups, found);
    lists, missing := Some(found), 0;
  }

  /** The dict of lists: an empty one per scene read, then the action rows by scene and position. */
  method GroupActions(actions: map<H.ActionKey, H.Action>, scenes: seq<H.SceneId>)
    returns (lists: Option<map<H.SceneId, seq<H.Action>>>)
    ensures lists.Some? <==> forall k | k in actions :: k.scene in scenes
    ensures lists.Some? ==> forall s | s in scenes :: s in lists.value && lists.value[s] == H.ActionsOf(actions, s)
  {
    var empty := EmptyLists(scenes);
    AllActionsSortable(actions);
    var all := Query(actions, ALL_ACTIONS);
    KeysList(actions, ALL_ACTIONS);
    assert forall i | 0 <= i < |all| :: all[i] in all;
    ghost var none: map<H.SceneId, seq<H.ActionKey>> := Mapped(empty, (s, list) => []);
    NothingFiled(actions, none, empty);
    ghost var missing;
    lists, missing := AppendActions(actions, all, empty, none);
  }

  method LoadScenes(scenes: map<H.SceneId, H.SceneRow>, actions: map<H.ActionKey, H.Action>) returns (r: Option<seq<H.Scene>>)
    requires H.Distinct(H.ScenePositions(scenes))
    ensures r == if forall k | k in actions :: k.scene in scenes then Some(H.ReadScenes(scenes, actions)) else None
  {
    H.ScenesSortable(scenes, actions);
    var keys := QueryScenes(scenes, actions);
    assert forall s :: s in scenes <==> s in Ranks(scenes, H.Scenes(actions));
    var lists := GroupActions(actions, keys);
    if lists.None? { return None; }
    var loaded := seq(|keys|, i requires 0 <= i < |keys| && keys[i] in scenes && keys[i] in lists.value =>
      H.Scene(keys[i], scenes[keys[i]].name, scenes[keys[i]].provider, lists.value[keys[i]]));
    assert loaded == H.ReadScenes(scenes, actions);
    r := Some(loaded);
  }

  /** load_registry over one reading of the five tables: it answers unless an action's scene was not read. */
  method LoadRegistry(revision: int, t: H.Tables) returns (r: Option<H.Registry>)
    requires H.Positioned(t)
    ensures r == if H.ActionsHaveScenes(t) then Some(H.Load(revision, t)) else None
  {
    H.AreasSortable(t.areas);
    H.DevicesSortable(t.devices);
    assert Sortable(t.placements, H.PLACEMENTS);
    var areas := Query(t.areas, H.AREAS);
    var devices := Query(t.devices, H.DEVICES);
    var scenes := LoadScenes(t.scenes, t.actions);
    if scenes.None? { return None; }
    var placements := Query(t.placements, H.PLACEMENTS);
    r := Some(H.Registry(revision, Views(t.areas, H.AREAS, areas), Views(t.devices, H.DEVICES, devices), scenes.value,
                         Views(t.placements, H.PLACEMENTS, placements)));
  }

  /** The scene rows by position. */
  method QueryScenes(scenes: map<H.SceneId, H.SceneRow>, ghost actions: map<H.ActionKey, H.Action>) returns (keys: seq<H.SceneId>)
    requires Sortable(scenes, H.Scenes(actions))
    ensures keys == Keys(scenes, H.Scenes(actions))
  {
    var byPosition: Reader<H.SceneId, H.SceneRow, H.Tag> := Reader((k, row: H.SceneRow) => Rank(row.position, 0), (k, row: H.SceneRow) => row.name);
    assert Ranks(scenes, byPosition) == Ranks(scenes, H.Scenes(actions));
    keys := Query(scenes, byPosition);
  }

  // ----- Commands -------------------------------------------------------------

  ghost function Answer(outcome: H.Outcome): Result<H.Registry, H.Refusal> {
    if outcome.Done? then Ok(outcome.answer) else Err(outcome.why)
  }

  /** The write was served as specified: its answer, and every home afterwards. */
  ghost predicate Served(
    before: H.Database, accepts: H.Registry -> bool, request: H.Request, after: H.Database, answer: Result<H.Registry, H.Refusal>)
    requires H.AllSound(before)
  {
    var outcome := H.Serve(before, accepts, request);
    after == H.After(before, request.owner, outcome) && answer == Answer(outcome)
  }

  // ----- _populate_sample's rows ------------------------------------------------

  method InsertAreas(rows: map<H.AreaId, H.AreaRow>, areas: seq<H.Area>) returns (all: map<H.AreaId, H.AreaRow>)
    ensures all == rows + H.AreaRows(areas)
  {
    all := rows;
    for i := 0 to |areas|
      invariant all == rows + H.AreaRows(areas[..i])
    {
      assert areas[..i + 1][..i] == areas[..i];
      all := all[areas[i].id := H.AreaRow(areas[i].name, areas[i].order, i)];
    }
    assert areas[..|areas|] == areas;
  }

  method InsertDevices(rows: map<H.DeviceId, H.DeviceRow>, devices: seq<H.Device>) returns (all: map<H.DeviceId, H.DeviceRow>)
    ensures all == rows + H.DeviceRows(devices)
  {
    all := rows;
    for i := 0 to |devices|
      invariant all == rows + H.DeviceRows(devices[..i])
    {
      assert devices[..i + 1][..i] == devices[..i];
      all := all[devices[i].id := H.DeviceRow(devices[i].name, devices[i].area, devices[i].spec, i)];
    }
    assert devices[..|devices|] == devices;
  }

  method InsertScenes(rows: map<H.SceneId, H.SceneRow>, scenes: seq<H.Scene>) returns (all: map<H.SceneId, H.SceneRow>)
    ensures all == rows + H.SceneRows(scenes)
  {
    all := rows;
    for i := 0 to |scenes|
      invariant all == rows + H.SceneRows(scenes[..i])
    {
      assert scenes[..i + 1][..i] == scenes[..i];
      all := all[scenes[i].id := H.SceneRow(scenes[i].name, scenes[i].provider, i)];
    }
    assert scenes[..|scenes|] == scenes;
  }

  method InsertActions(rows: map<H.ActionKey, H.Action>, scenes: seq<H.Scene>) returns (all: map<H.ActionKey, H.Action>)
    ensures all == rows + H.AllActionRows(scenes)
  {
    all := rows;
    for i := 0 to |scenes|
      invariant all == rows + H.AllActionRows(scenes[..i])
    {
      assert scenes[..i + 1][..i] == scenes[..i];
      all := all + H.ActionRows(scenes[i].id, scenes[i].actions);
    }
    assert scenes[..|scenes|] == scenes;
  }

  method InsertPlacements(rows: map<H.DeviceRef, H.AreaId>, placements: seq<H.Placement>) returns (all: map<H.DeviceRef, H.AreaId>)
    ensures all == rows + H.PlacementRows(placements)
  {
    all := rows;
    for i := 0 to |placements|
      invariant all == rows + H.PlacementRows(placements[..i])
    {
      assert placements[..i + 1][..i] == placements[..i];
      all := all[placements[i].device := placements[i].area];
    }
    assert placements[..|placements|] == placements;
  }

  method PopulateSample(t: H.Tables, sample: H.Registry) returns (u: H.Tables)
    ensures u == H.Write(t, H.LoadSample(sample))
  {
    var areas := InsertAreas(t.areas, sample.areas);
    var devices := InsertDevices(t.devices, sample.devices);
    var scenes := InsertScenes(t.scenes, sample.scenes);
    var actions := InsertActions(t.actions, sample.scenes);
    var placements := InsertPlacements(t.placements, sample.placements);
    u := H.Tables(areas, devices, scenes, actions, placements);
  }

  /** A request that reaches its home at the revision it names. */
  ghost predicate Started(db: H.Database, r: H.Request)
    requires H.AllSound(db)
  {
    r.expected >= 0 && r.owner in db.owners && H.HomeOf(db, r.owner).revision == r.expected
  }

  lemma RefusedAsSpecified(db: H.Database, accepts: H.Registry -> bool, r: H.Request)
    requires H.AllSound(db) && Started(db, r)
    ensures var h := H.HomeOf(db, r.owner);
            var refusal := H.CommandRefusal(h.tables, H.Load(r.expected, h.tables), r.command);
            && (refusal.Some? ==> H.Serve(db, accepts, r) == H.Refused(refusal.value))
            && (refusal.None? && !accepts(H.Proposal(H.Load(r.expected, h.tables), r.expected + 1, r.command)) ==>
                  H.Serve(db, accepts, r) == H.Refused(H.Invalid))
            && (refusal.None? && accepts(H.Proposal(H.Load(r.expected, h.tables), r.expected + 1, r.command)) ==>
                  H.Serve(db, accepts, r) == if H.Duplicates(h.tables, r.command) then H.Refused(H.DuplicateKey)
                                             else H.Applied(h, r.expected, r.command))
  {
  }

  class Store {
    var owners: map<H.OwnerId, bool>
    var homes: map<H.OwnerId, H.Home>

    function Rows(): H.Database
      reads this
    {
      H.Database(owners, homes)
    }

    constructor ()
      ensures Rows() == H.Database(map[], map[]) && H.AllSound(Rows())
    {
      owners, homes := map[], map[];
    }

    /** _change up to its yield: the revision must match before the registry is read. */
    method Begin(owner: H.OwnerId, expected: int) returns (start: Result<(H.Tables, H.Registry), H.Refusal>)
      requires H.AllSound(Rows())
      ensures var h := H.HomeOf(Rows(), owner);
              start == if expected < 0 then Err(H.BadRevision)
                       else if owner !in owners then Err(H.OwnerNotFound)
                       else if h.revision != expected then Err(H.Conflict(h.revision))
                       else Ok((h.tables, H.Load(expected, h.tables)))
    {
      if expected < 0 { return Err(H.BadRevision); }
      if owner !in owners { return Err(H.OwnerNotFound); }
      var h := H.HomeOf(Rows(), owner);
      if h.revision != expected { return Err(H.Conflict(h.revision)); }
      var current := LoadRegistry(expected, h.tables);
      start := Ok((h.tables, current.value));
    }

    /** _change after its yield: the rows, the revision and one fact are committed together. */
    method Commit(owner: H.OwnerId, expected: int, c: H.Command, t: H.Tables)
      modifies this`homes
      ensures homes == old(homes)[owner := H.Home(expected + 1, t, H.HomeOf(old(Rows()), owner).facts + [H.Fact(expected + 1, c)])]
    {
      var h := H.HomeOf(Rows(), owner);
      h := h.(revision := expected + 1, tables := t);
      h := h.(facts := h.facts + [H.Fact(expected + 1, c)]);
      homes := homes[owner := h];
    }

    method CreateArea(owner: H.OwnerId, area: H.Area, expected: int, accepts: H.Registry -> bool)
      returns (answer: Result<H.Registry, H.Refusal>)
      requires H.AllSound(Rows())
      modifies this`homes
      ensures Served(old(Rows()), accepts, H.Request(owner, expected, H.CreateArea(area)), Rows(), answer)
    {
      var start := Begin(owner, expected);
      if start.Err? { return Err(start.error); }
      var (t, current) := start.value;
      var proposed := current.(revision := expected + 1, areas := current.areas + [area]);
      if !accepts(proposed) { return Err(H.Invalid); }
      var position := NextPosition(t.areas, H.AreaPosition);
      NextIs(H.AreaPositions(t.areas), position);
      if area.id in t.areas { return Err(H.DuplicateKey); }
      t := t.(areas := t.areas[area.id := H.AreaRow(area.name, area.order, position)]);
      Commit(owner, expected, H.CreateArea(area), t);
      answer := Ok(proposed);
    }

    method UpdateArea(owner: H.OwnerId, area: H.Area, expected: int, accepts: H.Registry -> bool)
      returns (answer: Result<H.Registry, H.Refusal>)
      requires H.AllSound(Rows())
      modifies this`homes
      ensures Served(old(Rows()), accepts, H.Request(owner, expected, H.UpdateArea(area)), Rows(), answer)
    {
      var start := Begin(owner, expected);
      if start.Err? { return Err(start.error); }
      var (t, current) := start.value;
      RefusedAsSpecified(Rows(), accepts, H.Request(owner, expected, H.UpdateArea(area)));
      if area.id !in t.areas { return Err(H.NotFound); }
      var proposed := current.(revision := expected + 1, areas := Replace(current.areas, H.AreaKey, area));
      if !accepts(proposed) { return Err(H.Invalid); }
      var row := t.areas[area.id];
      row := row.(name := area.name);
      row := row.(order := area.order);
      t := t.(areas := t.areas[area.id := row]);
      Commit(owner, expected, H.UpdateArea(area), t);
      answer := Ok(proposed);
    }

    method DeleteArea(owner: H.OwnerId, areaId: H.AreaId, expected: int, accepts: H.Registry -> bool)
      returns (answer: Result<H.Registry, H.Refusal>)
      requires H.AllSound(Rows())
      modifies this`homes
      ensures Served(old(Rows()), accepts, H.Request(owner, expected, H.DeleteArea(areaId)), Rows(), answer)
    {
      var start := Begin(owner, expected);
      if start.Err? { return Err(start.error); }
      var (t, current) := start.value;
      RefusedAsSpecified(Rows(), accepts, H.Request(owner, expected, H.DeleteArea(areaId)));
      if areaId !in t.areas { return Err(H.NotFound); }
      if H.UsesArea(current, areaId) { return Err(H.AreaNotEmpty); }
      var proposed := current.(revision := expected + 1, areas := Drop(current.areas, H.AreaKey, areaId));
      if !accepts(proposed) { return Err(H.Invalid); }
      t := t.(areas := t.areas - {areaId});
      Commit(owner, expected, H.DeleteArea(areaId), t);
      answer := Ok(proposed);
    }

    method CreateDevice(owner: H.OwnerId, device: H.Device, expected: int, accepts: H.Registry -> bool)
      returns (answer: Result<H.Registry, H.Refusal>)
      requires H.AllSound(Rows())
      modifies this`homes
      ensures Served(old(Rows()), accepts, H.Request(owner, expected, H.CreateDevice(device)), Rows(), answer)
    {
      var start := Begin(owner, expected);
      if start.Err? { return Err(start.error); }
      var (t, current) := start.value;
      var proposed := current.(revision := expected + 1, devices := current.devices + [device]);
      if !accepts(proposed) { return Err(H.Invalid); }
      var position := NextPosition(t.devices, H.DevicePosition);
      NextIs(H.DevicePositions(t.devices), position);
      if device.id in t.devices { return Err(H.DuplicateKey); }
      t := t.(devices := t.devices[device.id := H.DeviceRow(device.name, device.area, device.spec, position)]);
      Commit(owner, expected, H.CreateDevice(device), t);
      answer := Ok(proposed);
    }

    method UpdateDevice(owner: H.OwnerId, device: H.Device, expected: int, accepts: H.Registry -> bool)
      returns (answer: Result<H.Registry, H.Refusal>)
      requires H.AllSound(Rows())
      modifies this`homes
      ensures Served(old(Rows()), accepts, H.Request(owner, expected, H.UpdateDevice(device)), Rows(), answer)
    {
      var start := Begin(owner, expected);
      if start.Err? { return Err(start.error); }
      var (t, current) := start.value;
      RefusedAsSpecified(Rows(), accepts, H.Request(owner, expected, H.UpdateDevice(device)));
      if device.id !in t.devices { return Err(H.NotFound); }
      var proposed := current.(revision := expected + 1, devices := Replace(current.devices, H.DeviceKey, device));
      if !accepts(proposed) { return Err(H.Invalid); }
      var row := t.devices[device.id];
      row := row.(name := device.name, area := device.area, spec := device.spec);
      t := t.(devices := t.devices[device.id := row]);
      Commit(owner, expected, H.UpdateDevice(device), t);
      answer := Ok(proposed);
    }

    method DeleteDevice(owner: H.OwnerId, deviceId: H.DeviceId, expected: int, accepts: H.Registry -> bool)
      returns (answer: Result<H.Registry, H.Refusal>)
      requires H.AllSound(Rows())
      modifies this`homes
      ensures Served(old(Rows()), accepts, H.Request(owner, expected, H.DeleteDevice(deviceId)), Rows(), answer)
    {
      var start := Begin(owner, expected);
      if start.Err? { return Err(start.error); }
      var (t, current) := start.value;
      RefusedAsSpecified(Rows(), accepts, H.Request(owner, expected, H.DeleteDevice(deviceId)));
      var refusal := H.CommandRefusal(t, current, H.DeleteDevice(deviceId));
      if refusal.Some? { return Err(refusal.value); }
      var proposed := current.(revision := expected + 1, devices := Drop(current.devices, H.DeviceKey, deviceId));
      if !accepts(proposed) { return Err(H.Invalid); }
      t := t.(devices := t.devices - {deviceId});
      Commit(owner, expected, H.DeleteDevice(deviceId), t);
      answer := Ok(proposed);
    }

    method CreateScene(owner: H.OwnerId, scene: H.Scene, expected: int, accepts: H.Registry -> bool)
      returns (answer: Result<H.Registry, H.Refusal>)
      requires H.AllSound(Rows())
      modifies this`homes
      ensures Served(old(Rows()), accepts, H.Request(owner, expected, H.CreateScene(scene)), Rows(), answer)
    {
      var start := Begin(owner, expected);
      if start.Err? { return Err(start.error); }
      var (t, current) := start.value;
      var proposed := current.(revision := expected + 1, scenes := current.scenes + [scene]);
      if !accepts(proposed) { return Err(H.Invalid); }
      var position := NextPosition(t.scenes, H.ScenePosition);
      NextIs(H.ScenePositions(t.scenes), position);
      if scene.id in t.scenes { return Err(H.DuplicateKey); }
      t := t.(scenes := t.scenes[scene.id := H.SceneRow(scene.name, scene.provider, position)]);
      t := t.(actions := t.actions + H.ActionRows(scene.id, scene.actions));
      Commit(owner, expected, H.CreateScene(scene), t);
      answer := Ok(proposed);
    }

    method UpdateScene(owner: H.OwnerId, scene: H.Scene, expected: int, accepts: H.Registry -> bool)
      returns (answer: Result<H.Registry, H.Refusal>)
      requires H.AllSound(Rows())
      modifies this`homes
      ensures Served(old(Rows()), accepts, H.Request(owner, expected, H.UpdateScene(scene)), Rows(), answer)
    {
      var start := Begin(owner, expected);
      if start.Err? { return Err(start.error); }
      var (t, current) := start.value;
      RefusedAsSpecified(Rows(), accepts, H.Request(owner, expected, H.UpdateScene(scene)));
      if scene.id !in t.scenes { return Err(H.NotFound); }
      var proposed := current.(revision := expected + 1, scenes := Replace(current.scenes, H.SceneKey, scene));
      if !accepts(proposed) { return Err(H.Invalid); }
      var row := t.scenes[scene.id];
      row := row.(name := scene.name, provider := scene.provider);
      t := t.(scenes := t.scenes[scene.id := row]);
      t := t.(actions := H.WithoutActions(t.actions, scene.id));
      t := t.(actions := t.actions + H.ActionRows(scene.id, scene.actions));
      Commit(owner, expected, H.UpdateScene(scene), t);
      answer := Ok(proposed);
    }

    method DeleteScene(owner: H.OwnerId, sceneId: H.SceneId, expected: int, accepts: H.Registry -> bool)
      returns (answer: Result<H.Registry, H.Refusal>)
      requires H.AllSound(Rows())
      modifies this`homes
      ensures Served(old(Rows()), accepts, H.Request(owner, expected, H.DeleteScene(sceneId)), Rows(), answer)
    {
      var start := Begin(owner, expected);
      if start.Err? { return Err(start.error); }
      var (t, current) := start.value;
      RefusedAsSpecified(Rows(), accepts, H.Request(owner, expected, H.DeleteScene(sceneId)));
      if sceneId !in t.scenes { return Err(H.NotFound); }
      var proposed := current.(revision := expected + 1, scenes := Drop(current.scenes, H.SceneKey, sceneId));
      if !accepts(proposed) { return Err(H.Invalid); }
      t := t.(actions := H.WithoutActions(t.actions, sceneId));
      t := t.(scenes := t.scenes - {sceneId});
      Commit(owner, expected, H.DeleteScene(sceneId), t);
      answer := Ok(proposed);
    }

    method SetPlacement(owner: H.OwnerId, placement: H.Placement, expected: int, accepts: H.Registry -> bool)
      returns (answer: Result<H.Registry, H.Refusal>)
      requires H.AllSound(Rows())
      modifies this`homes
      ensures Served(old(Rows()), accepts, H.Request(owner, expected, H.SetPlacement(placement)), Rows(), answer)
    {
      var start := Begin(owner, expected);
      if start.Err? { return Err(start.error); }
      var (t, current) := start.value;
      var proposed := current.(revision := expected + 1, placements := Drop(current.placements, H.PlacementKey, placement.device) + [placement]);
      if !accepts(proposed) { return Err(H.Invalid); }
      t := t.(placements := t.placements[placement.device := placement.area]);
      Commit(owner, expected, H.SetPlacement(placement), t);
      answer := Ok(proposed);
    }

    method ClearPlacement(owner: H.OwnerId, ref: H.DeviceRef, expected: int, accepts: H.Registry -> bool)
      returns (answer: Result<H.Registry, H.Refusal>)
      requires H.AllSound(Rows())
      modifies this`homes
      ensures Served(old(Rows()), accepts, H.Request(owner, expected, H.ClearPlacement(ref)), Rows(), answer)
    {
      var start := Begin(owner, expected);
      if start.Err? { return Err(start.error); }
      var (t, current) := start.value;
      RefusedAsSpecified(Rows(), accepts, H.Request(owner, expected, H.ClearPlacement(ref)));
      if ref !in t.placements { return Err(H.NotFound); }
      var proposed := current.(revision := expected + 1, placements := Drop(current.placements, H.PlacementKey, ref));
      if !accepts(proposed) { return Err(H.Invalid); }
      t := t.(placements := t.placements - {ref});
      Commit(owner, expected, H.ClearPlacement(ref), t);
      answer := Ok(proposed);
    }

    // ----- Samples ----------------------------------------------------------------

    method LoadSample(owner: H.OwnerId, sample: H.Registry, expected: int, accepts: H.Registry -> bool)
      returns (answer: Result<H.Registry, H.Refusal>)
      requires H.AllSound(Rows())
      modifies this`homes
      ensures Served(old(Rows()), accepts, H.Request(owner, expected, H.LoadSample(sample)), Rows(), answer)
    {
      var start := Begin(owner, expected);
      if start.Err? { return Err(start.error); }
      var (t, current) := start.value;
      RefusedAsSpecified(Rows(), accepts, H.Request(owner, expected, H.LoadSample(sample)));
      if current.areas != [] || current.devices != [] || current.scenes != [] || current.placements != [] {
        return Err(H.RegistryNotEmpty);
      }
      var proposed := sample.(revision := expected + 1);
      if !accepts(proposed) { return Err(H.Invalid); }
      if H.Duplicates(t, H.LoadSample(sample)) { return Err(H.DuplicateKey); }
      t := PopulateSample(t, sample);
      Commit(owner, expected, H.LoadSample(sample), t);
      answer := Ok(proposed);
    }

    /** Onboarding: the packaged home goes into a home it takes to be empty, without reading it. */
    method InitializeOwnerHome(owner: H.OwnerId, sample: H.Registry, accepts: H.Registry -> bool)
      returns (answer: Result<H.Registry, H.Refusal>)
      requires H.AllSound(Rows()) && owner in owners
      modifies this`homes
      ensures Served(old(Rows()), accepts, H.Request(owner, 0, H.LoadSample(sample)), Rows(), answer)
    {
      var h := H.HomeOf(Rows(), owner);
      if h.revision != 0 { return Err(H.Conflict(h.revision)); }
      RefusedAsSpecified(Rows(), accepts, H.Request(owner, 0, H.LoadSample(sample)));
      L.EmptyHomeLoadsEmpty();
      var proposed := sample.(revision := 1);
      if !accepts(proposed) { return Err(H.Invalid); }
      if H.Duplicates(h.tables, H.LoadSample(sample)) { return Err(H.DuplicateKey); }
      var t := PopulateSample(H.NO_ROWS, sample);
      Commit(owner, 0, H.LoadSample(sample), t);
      answer := Ok(proposed);
    }

    /** The sample is one the SDK and the keys accept in an empty home. */
    static predicate SampleFits(sample: H.Registry, accepts: H.Registry -> bool) {
      accepts(sample.(revision := 1)) && !H.Duplicates(H.NO_ROWS, H.LoadSample(sample))
    }

    static ghost function SampleHome(sample: H.Registry): H.Home {
      H.Home(1, H.Write(H.NO_ROWS, H.LoadSample(sample)), [H.Fact(1, H.LoadSample(sample))])
    }

    static lemma SampleOnANewHome(db: H.Database, owner: H.OwnerId, sample: H.Registry, accepts: H.Registry -> bool)
      requires H.AllSound(db) && owner in db.owners && H.HomeOf(db, owner).revision == 0
      ensures var outcome := H.Serve(db, accepts, H.Request(owner, 0, H.LoadSample(sample)));
              && (SampleFits(sample, accepts) <==> outcome.Done?)
              && (outcome.Done? ==> outcome.home == SampleHome(sample))
              && (outcome.Refused? ==> outcome.why == H.Invalid || outcome.why == H.DuplicateKey)
    {
      L.EmptyHomeLoadsEmpty();
      RefusedAsSpecified(db, accepts, H.Request(owner, 0, H.LoadSample(sample)));
      assert H.HomeOf(db, owner) == H.NEW_HOME;
    }

    method LoadDefault(owner: H.OwnerId, sample: H.Registry, accepts: H.Registry -> bool, ghost home: H.Home, ghost fits: bool)
      returns (answer: Result<H.Registry, H.Refusal>)
      requires home == SampleHome(sample) && fits == SampleFits(sample, accepts)
      requires H.AllSound(Rows()) && owner in owners && H.HomeOf(Rows(), owner).revision == 0
      modifies this`homes
      ensures H.AllSound(Rows()) && (answer.Ok? <==> fits)
      ensures homes == if fits then old(homes)[owner := home] else old(homes)
      ensures answer.Err? ==> answer.error == H.Invalid || answer.error == H.DuplicateKey
    {
      SampleOnANewHome(Rows(), owner, sample, accepts);
      R.StepAdvances(Rows(), R.Ask(H.Request(owner, 0, H.LoadSample(sample)), accepts), owner);
      answer := LoadSample(owner, sample, 0, accepts);
    }

    /** The owners listed have the home named, everybody else the one they had. */
    static ghost predicate Filled(before: map<H.OwnerId, H.Home>, after: map<H.OwnerId, H.Home>, ids: seq<H.OwnerId>, home: H.Home) {
      && (forall o :: o in after <==> o in before || o in ids)
      && (forall o | o in after :: after[o] == if o in ids then home else before[o])
    }

    static lemma FilledGrows(before: map<H.OwnerId, H.Home>, after: map<H.OwnerId, H.Home>, ids: seq<H.OwnerId>, i: nat, home: H.Home)
      requires i < |ids| && NoDuplicates(ids) && Filled(before, after, ids[..i], home)
      ensures Filled(before, after[ids[i] := home], ids[..i + 1], home)
      ensures ids[i] in after <==> ids[i] in before
      ensures ids[i] in after ==> after[ids[i]] == before[ids[i]]
      ensures i == 0 ==> after == before
    {
      assert ids[..i + 1] == ids[..i] + [ids[i]];
      assert ids[i] !in ids[..i];
      var owner := ids[i];
      assert owner in after <==> owner in before;
      assert owner in after ==> after[owner] == before[owner];
      var grown := after[owner := home];
      assert forall o :: o in grown <==> o in before || o in ids[..i + 1];
      assert forall o | o in grown :: grown[o] == if o in ids[..i + 1] then home else before[o];
    }

    method FillHomes(ids: seq<H.OwnerId>, sample: H.Registry, accepts: H.Registry -> bool, ghost home: H.Home, ghost fits: bool)
      returns (answer: Result<nat, H.Refusal>)
      requires home == SampleHome(sample) && fits == SampleFits(sample, accepts) && H.AllSound(Rows()) && NoDuplicates(ids)
      requires forall i | 0 <= i < |ids| :: ids[i] in owners && H.HomeOf(Rows(), ids[i]).revision == 0
      modifies this`homes
      ensures H.AllSound(Rows())
      ensures answer.Ok? ==> answer.value == |ids| && Filled(old(homes), homes, ids, home)
      ensures answer.Err? ==> ids != [] && !fits && homes == old(homes)
    {
      for i := 0 to |ids|
        invariant H.AllSound(Rows()) && (i > 0 ==> fits)
        invariant Filled(old(homes), homes, ids[..i], home)
      {
        FilledGrows(old(homes), homes, ids, i, home);
        var loaded := LoadDefault(ids[i], sample, accepts, home, fits);
        if loaded.Err? { return Err(loaded.error); }
      }
      assert ids[..|ids|] == ids;
      answer := Ok(|ids|);
    }

    /** Startup, over the active owners whose home was never written: each gets the packaged home, and nobody else's
        changes; a sample the SDK refuses stops the run before anything is written. */
    method InitializeDefaultHomes(ids: seq<H.OwnerId>, sample: H.Registry, accepts: H.Registry -> bool)
      returns (answer: Result<nat, H.Refusal>)
      requires H.AllSound(Rows()) && NoDuplicates(ids)
      requires forall o :: o in ids <==> o in owners && owners[o] && H.HomeOf(Rows(), o).revision == 0
      modifies this`homes
      ensures H.AllSound(Rows())
      ensures answer.Ok? ==> answer.value == |ids| && Filled(old(homes), homes, ids, SampleHome(sample))
      ensures answer.Err? ==> ids != [] && !SampleFits(sample, accepts) && homes == old(homes)
    {
      forall i | 0 <= i < |ids| ensures ids[i] in owners && H.HomeOf(Rows(), ids[i]).revision == 0 {
        var owner := ids[i];
        assert owner in ids;
      }
      answer := FillHomes(ids, sample, accepts, SampleHome(sample), SampleFits(sample, accepts));
    }
  }
}
