/**
 * The smart-home registry: rows with positions and sort keys behind an in-memory registry, one revision per home moved
 * by compare-and-swap, one audit fact per change.
 */
module SmartHome {
  import opened Core
  import opened Ordering
  import opened Listing

  type OwnerId = int
  type AreaId = int
  type DeviceId = int
  type SceneId = int
  type DeviceRef = int
  type Tag = int

  // ----- The registry a caller sees -------------------------------------------

  datatype Area = Area(id: AreaId, name: Tag, order: int)
  /** spec stands for the columns nothing here looks at: aliases, type, provider, traits, limits, provenance. */
  datatype Device = Device(id: DeviceId, name: Tag, area: Option<AreaId>, spec: Tag)
  datatype Action = Action(device: DeviceId, command: Tag)
  datatype Scene = Scene(id: SceneId, name: Tag, provider: Tag, actions: seq<Action>)
  datatype Placement = Placement(device: DeviceRef, area: AreaId)
  datatype Registry = Registry(revision: int, areas: seq<Area>, devices: seq<Device>, scenes: seq<Scene>, placements: seq<Placement>)

  // ----- The rows of one home -------------------------------------------------

  datatype AreaRow = AreaRow(name: Tag, order: int, position: int)
  datatype DeviceRow = DeviceRow(name: Tag, area: Option<AreaId>, spec: Tag, position: int)
  datatype SceneRow = SceneRow(name: Tag, provider: Tag, position: int)
  datatype ActionKey = ActionKey(scene: SceneId, position: int)
  datatype Tables = Tables(
    areas: map<AreaId, AreaRow>, devices: map<DeviceId, DeviceRow>, scenes: map<SceneId, SceneRow>,
    actions: map<ActionKey, Action>, placements: map<DeviceRef, AreaId>)

  /** Revision 0: nothing was ever written. */
  datatype Home = Home(revision: int, tables: Tables, facts: seq<Fact>)
  datatype Fact = Fact(revision: int, change: Command)

  const NO_ROWS := Tables(map[], map[], map[], map[], map[])
  const NEW_HOME := Home(0, NO_ROWS, [])

  // ----- Reading rows ---------------------------------------------------------

  const AREAS: Reader<AreaId, AreaRow, Area> :=
    Reader((k, row: AreaRow) => Rank(row.order, row.position), (k, row: AreaRow) => Area(k, row.name, row.order))
  const DEVICES: Reader<DeviceId, DeviceRow, Device> :=
    Reader((k, row: DeviceRow) => Rank(row.position, 0), (k, row: DeviceRow) => Device(k, row.name, row.area, row.spec))
  const ACTIONS: Reader<ActionKey, Action, Action> :=
    Reader((k: ActionKey, a) => Rank(k.position, 0), (k, a) => a)
  const PLACEMENTS: Reader<DeviceRef, AreaId, Placement> :=
    Reader((k, a) => Rank(k, 0), (k, a) => Placement(k, a))

  function AreaKey(a: Area): AreaId { a.id }
  function DeviceKey(d: Device): DeviceId { d.id }
  function SceneKey(s: Scene): SceneId { s.id }
  function PlacementKey(p: Placement): DeviceRef { p.device }

  function ActionsIn(actions: map<ActionKey, Action>, scene: SceneId): map<ActionKey, Action> {
    actions - (set k | k in actions && k.scene != scene)
  }

  ghost function ActionsOf(actions: map<ActionKey, Action>, scene: SceneId): seq<Action> {
    assert DistinctRanks(Ranks(ActionsIn(actions, scene), ACTIONS));
    ReadAll(ActionsIn(actions, scene), ACTIONS)
  }

  ghost function Scenes(actions: map<ActionKey, Action>): Reader<SceneId, SceneRow, Scene> {
    Reader((k, row: SceneRow) => Rank(row.position, 0), (k, row: SceneRow) => Scene(k, row.name, row.provider, ActionsOf(actions, k)))
  }

  ghost predicate Distinct<K(!new)>(positions: map<K, int>) {
    forall j, k | j in positions && k in positions && j != k :: positions[j] != positions[k]
  }

  function AreaPosition(k: AreaId, row: AreaRow): int { row.position }
  function DevicePosition(k: DeviceId, row: DeviceRow): int { row.position }
  function ScenePosition(k: SceneId, row: SceneRow): int { row.position }

  ghost function AreaPositions(areas: map<AreaId, AreaRow>): map<AreaId, int> { Mapped(areas, AreaPosition) }
  ghost function DevicePositions(devices: map<DeviceId, DeviceRow>): map<DeviceId, int> { Mapped(devices, DevicePosition) }
  ghost function ScenePositions(scenes: map<SceneId, SceneRow>): map<SceneId, int> { Mapped(scenes, ScenePosition) }

  /** No two rows of a table share a position. */
  ghost predicate Positioned(t: Tables) {
    Distinct(AreaPositions(t.areas)) && Distinct(DevicePositions(t.devices)) && Distinct(ScenePositions(t.scenes))
  }

  lemma AreasSortable(areas: map<AreaId, AreaRow>)
    requires Distinct(AreaPositions(areas))
    ensures Sortable(areas, AREAS)
  {
    forall j, k | j in areas && k in areas && j != k ensures AREAS.rank(j, areas[j]) != AREAS.rank(k, areas[k]) {
      assert AreaPositions(areas)[j] != AreaPositions(areas)[k];
    }
  }

  lemma DevicesSortable(devices: map<DeviceId, DeviceRow>)
    requires Distinct(DevicePositions(devices))
    ensures Sortable(devices, DEVICES)
  {
    forall j, k | j in devices && k in devices && j != k ensures DEVICES.rank(j, devices[j]) != DEVICES.rank(k, devices[k]) {
      assert DevicePositions(devices)[j] != DevicePositions(devices)[k];
    }
  }

  lemma ScenesSortable(scenes: map<SceneId, SceneRow>, actions: map<ActionKey, Action>)
    requires Distinct(ScenePositions(scenes))
    ensures Sortable(scenes, Scenes(actions))
  {
    var r := Scenes(actions);
    forall j, k | j in scenes && k in scenes && j != k ensures r.rank(j, scenes[j]) != r.rank(k, scenes[k]) {
      assert ScenePositions(scenes)[j] != ScenePositions(scenes)[k];
    }
  }

  // The four ORDER BY queries.

  ghost function ReadAreas(areas: map<AreaId, AreaRow>): seq<Area>
    requires Distinct(AreaPositions(areas))
  {
    AreasSortable(areas);
    ReadAll(areas, AREAS)
  }

  ghost function ReadDevices(devices: map<DeviceId, DeviceRow>): seq<Device>
    requires Distinct(DevicePositions(devices))
  {
    DevicesSortable(devices);
    ReadAll(devices, DEVICES)
  }

  ghost function ReadScenes(scenes: map<SceneId, SceneRow>, actions: map<ActionKey, Action>): seq<Scene>
    requires Distinct(ScenePositions(scenes))
  {
    ScenesSortable(scenes, actions);
    ReadAll(scenes, Scenes(actions))
  }

  ghost function ReadPlacements(placements: map<DeviceRef, AreaId>): seq<Placement> {
    assert DistinctRanks(Ranks(placements, PLACEMENTS));
    ReadAll(placements, PLACEMENTS)
  }

  /** load_registry when every action's scene is among the scenes read. */
  ghost function Load(revision: int, t: Tables): Registry
    requires Positioned(t)
  {
    Registry(revision, ReadAreas(t.areas), ReadDevices(t.devices), ReadScenes(t.scenes, t.actions), ReadPlacements(t.placements))
  }

  predicate ActionsHaveScenes(t: Tables) {
    forall k | k in t.actions :: k.scene in t.scenes
  }

  // ----- Commands -------------------------------------------------------------

  datatype Command =
    | CreateArea(area: Area) | UpdateArea(area: Area) | DeleteArea(areaId: AreaId)
    | CreateDevice(device: Device) | UpdateDevice(device: Device) | DeleteDevice(deviceId: DeviceId)
    | CreateScene(scene: Scene) | UpdateScene(scene: Scene) | DeleteScene(sceneId: SceneId)
    | SetPlacement(placement: Placement) | ClearPlacement(ref: DeviceRef)
    | LoadSample(sample: Registry)

  datatype Refusal =
    | BadRevision | OwnerNotFound | Conflict(current: int) | NotFound | AreaNotEmpty | DeviceInScene | RegistryNotEmpty
    | Invalid | DuplicateKey

  datatype Outcome = Done(home: Home, answer: Registry) | Refused(why: Refusal)

  predicate UsesArea(r: Registry, area: AreaId) {
    (exists i | 0 <= i < |r.devices| :: r.devices[i].area == Some(area)) || (exists i | 0 <= i < |r.placements| :: r.placements[i].area == area)
  }

  predicate Drives(s: Scene, device: DeviceId) {
    exists i | 0 <= i < |s.actions| :: s.actions[i].device == device
  }

  predicate DrivenByAScene(r: Registry, device: DeviceId) {
    exists i | 0 <= i < |r.scenes| :: Drives(r.scenes[i], device)
  }

  function CommandRefusal(t: Tables, current: Registry, c: Command): Option<Refusal> {
    match c
    case UpdateArea(area) => if area.id !in t.areas then Some(NotFound) else None
    case DeleteArea(id) =>
      if id !in t.areas then Some(NotFound) else if UsesArea(current, id) then Some(AreaNotEmpty) else None
    case UpdateDevice(device) => if device.id !in t.devices then Some(NotFound) else None
    case DeleteDevice(id) =>
      if id !in t.devices then Some(NotFound) else if DrivenByAScene(current, id) then Some(DeviceInScene) else None
    case UpdateScene(scene) => if scene.id !in t.scenes then Some(NotFound) else None
    case DeleteScene(id) => if id !in t.scenes then Some(NotFound) else None
    case ClearPlacement(ref) => if ref !in t.placements then Some(NotFound) else None
    case LoadSample(sample) =>
      if current.areas != [] || current.devices != [] || current.scenes != [] || current.placements != [] then Some(RegistryNotEmpty)
      else None
    case _ => None
  }

  /** The registry the command would produce, for the SDK to accept or refuse. */
  function Proposal(current: Registry, revision: int, c: Command): Registry {
    var r := current.(revision := revision);
    match c
    case CreateArea(area) => r.(areas := r.areas + [area])
    case UpdateArea(area) => r.(areas := Replace(r.areas, AreaKey, area))
    case DeleteArea(id) => r.(areas := Drop(r.areas, AreaKey, id))
    case CreateDevice(device) => r.(devices := r.devices + [device])
    case UpdateDevice(device) => r.(devices := Replace(r.devices, DeviceKey, device))
    case DeleteDevice(id) => r.(devices := Drop(r.devices, DeviceKey, id))
    case CreateScene(scene) => r.(scenes := r.scenes + [scene])
    case UpdateScene(scene) => r.(scenes := Replace(r.scenes, SceneKey, scene))
    case DeleteScene(id) => r.(scenes := Drop(r.scenes, SceneKey, id))
    case SetPlacement(p) => r.(placements := Drop(r.placements, PlacementKey, p.device) + [p])
    case ClearPlacement(ref) => r.(placements := Drop(r.placements, PlacementKey, ref))
    case LoadSample(sample) => sample.(revision := revision)
  }

  predicate DistinctKeys<K(==), T>(s: seq<T>, key: T -> K) {
    forall i, j | 0 <= i < j < |s| :: key(s[i]) != key(s[j])
  }

  /** A primary key of the rows to insert is taken. */
  predicate Duplicates(t: Tables, c: Command) {
    match c
    case CreateArea(area) => area.id in t.areas
    case CreateDevice(device) => device.id in t.devices
    case CreateScene(scene) => scene.id in t.scenes
    case LoadSample(sample) =>
      !(DistinctKeys(sample.areas, AreaKey) && DistinctKeys(sample.devices, DeviceKey)
        && DistinctKeys(sample.scenes, SceneKey) && DistinctKeys(sample.placements, PlacementKey))
    case _ => false
  }

  // ----- Writing rows ---------------------------------------------------------

  function RowOfArea(a: Area, position: int): AreaRow { AreaRow(a.name, a.order, position) }
  function RowOfDevice(d: Device, position: int): DeviceRow { DeviceRow(d.name, d.area, d.spec, position) }
  function RowOfScene(s: Scene, position: int): SceneRow { SceneRow(s.name, s.provider, position) }

  /** _action_rows: the actions at positions 0, 1, ... of their scene. */
  function ActionRows(scene: SceneId, actions: seq<Action>): map<ActionKey, Action> {
    if actions == [] then map[]
    else
      var n := |actions| - 1;
      ActionRows(scene, actions[..n])[ActionKey(scene, n) := actions[n]]
  }

  function WithoutActions(actions: map<ActionKey, Action>, scene: SceneId): map<ActionKey, Action> {
    actions - (set k | k in actions && k.scene == scene)
  }

  function AreaRows(areas: seq<Area>): map<AreaId, AreaRow> {
    if areas == [] then map[]
    else
      var n := |areas| - 1;
      AreaRows(areas[..n])[areas[n].id := RowOfArea(areas[n], n)]
  }

  function DeviceRows(devices: seq<Device>): map<DeviceId, DeviceRow> {
    if devices == [] then map[]
    else
      var n := |devices| - 1;
      DeviceRows(devices[..n])[devices[n].id := RowOfDevice(devices[n], n)]
  }

  function SceneRows(scenes: seq<Scene>): map<SceneId, SceneRow> {
    if scenes == [] then map[]
    else
      var n := |scenes| - 1;
      SceneRows(scenes[..n])[scenes[n].id := RowOfScene(scenes[n], n)]
  }

  function AllActionRows(scenes: seq<Scene>): map<ActionKey, Action> {
    if scenes == [] then map[]
    else
      var n := |scenes| - 1;
      AllActionRows(scenes[..n]) + ActionRows(scenes[n].id, scenes[n].actions)
  }

  function PlacementRows(placements: seq<Placement>): map<DeviceRef, AreaId> {
    if placements == [] then map[]
    else
      var n := |placements| - 1;
      PlacementRows(placements[..n])[placements[n].device := placements[n].area]
  }

  ghost function Write(t: Tables, c: Command): Tables
    requires c.UpdateArea? ==> c.area.id in t.areas
    requires c.UpdateDevice? ==> c.device.id in t.devices
    requires c.UpdateScene? ==> c.scene.id in t.scenes
  {
    match c
    case CreateArea(area) => t.(areas := t.areas[area.id := RowOfArea(area, Next(AreaPositions(t.areas)))])
    case UpdateArea(area) => t.(areas := t.areas[area.id := RowOfArea(area, t.areas[area.id].position)])
    case DeleteArea(id) => t.(areas := t.areas - {id})
    case CreateDevice(device) => t.(devices := t.devices[device.id := RowOfDevice(device, Next(DevicePositions(t.devices)))])
    case UpdateDevice(device) => t.(devices := t.devices[device.id := RowOfDevice(device, t.devices[device.id].position)])
    case DeleteDevice(id) => t.(devices := t.devices - {id})
    case CreateScene(scene) =>
      t.(scenes := t.scenes[scene.id := RowOfScene(scene, Next(ScenePositions(t.scenes)))],
         actions := t.actions + ActionRows(scene.id, scene.actions))
    case UpdateScene(scene) =>
      t.(scenes := t.scenes[scene.id := RowOfScene(scene, t.scenes[scene.id].position)],
         actions := WithoutActions(t.actions, scene.id) + ActionRows(scene.id, scene.actions))
    case DeleteScene(id) => t.(scenes := t.scenes - {id}, actions := WithoutActions(t.actions, id))
    case SetPlacement(p) => t.(placements := t.placements[p.device := p.area])
    case ClearPlacement(ref) => t.(placements := t.placements - {ref})
    case LoadSample(sample) =>
      Tables(t.areas + AreaRows(sample.areas), t.devices + DeviceRows(sample.devices), t.scenes + SceneRows(sample.scenes),
             t.actions + AllActionRows(sample.scenes), t.placements + PlacementRows(sample.placements))
  }

  /** One registry write. accepts is the SDK's verdict on a registry together with the tables' foreign and unique keys. */
  ghost function Change(h: Home, accepts: Registry -> bool, expected: int, c: Command): Outcome
    requires Positioned(h.tables)
  {
    if expected < 0 then Refused(BadRevision)
    else if h.revision != expected then Refused(Conflict(h.revision))
    else
      var current := Load(expected, h.tables);
      var refusal := CommandRefusal(h.tables, current, c);
      var proposal := Proposal(current, expected + 1, c);
      if refusal.Some? then Refused(refusal.value)
      else if !accepts(proposal) then Refused(Invalid)
      else if Duplicates(h.tables, c) then Refused(DuplicateKey)
      else Applied(h, expected, c)
  }

  /** What an accepted command commits and answers. */
  ghost function Applied(h: Home, expected: int, c: Command): Outcome
    requires Positioned(h.tables) && CommandRefusal(h.tables, Load(expected, h.tables), c).None?
  {
    Done(Home(expected + 1, Write(h.tables, c), h.facts + [Fact(expected + 1, c)]), Proposal(Load(expected, h.tables), expected + 1, c))
  }

  // ----- Every owner's home ---------------------------------------------------

  datatype Database = Database(owners: map<OwnerId, bool>, homes: map<OwnerId, Home>)

  function HomeOf(db: Database, owner: OwnerId): Home {
    if owner in db.homes then db.homes[owner] else NEW_HOME
  }

  ghost predicate Sound(h: Home) {
    && Positioned(h.tables) && ActionsHaveScenes(h.tables)
    && h.revision >= 0 && (h.revision == 0 ==> h.tables == NO_ROWS)
    && |h.facts| == h.revision && (forall i | 0 <= i < |h.facts| :: h.facts[i].revision == i + 1)
  }

  ghost predicate AllSound(db: Database) {
    forall o | o in db.homes :: Sound(db.homes[o])
  }

  datatype Request = Request(owner: OwnerId, expected: int, command: Command)

  ghost function Serve(db: Database, accepts: Registry -> bool, r: Request): Outcome
    requires AllSound(db)
  {
    if r.expected < 0 then Refused(BadRevision)
    else if r.owner !in db.owners then Refused(OwnerNotFound)
    else Change(HomeOf(db, r.owner), accepts, r.expected, r.command)
  }

  ghost function After(db: Database, owner: OwnerId, outcome: Outcome): Database {
    if outcome.Done? then db.(homes := db.homes[owner := outcome.home]) else db
  }
}
