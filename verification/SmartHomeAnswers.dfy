/** What each registry command means in terms of its request: when it is accepted, and what then is in the home and the answer. */
module SmartHomeAnswers {
  import opened Core
  import opened Listing
  import opened SmartHome
  import opened SmartHomeRows
  import opened SmartHomeReload

  // ----- Lists of things by their key -------------------------------------------------

  /** item is there under its key, alone, and every other key's is as before. */
  ghost predicate Puts<K, T(!new)>(before: seq<T>, after: seq<T>, key: T -> K, item: T) {
    forall x :: x in after <==> x == item || (x in before && key(x) != key(item))
  }

  /** The key is gone, and every other key's is as before. */
  ghost predicate Takes<K, T(!new)>(before: seq<T>, after: seq<T>, key: T -> K, k: K) {
    forall x :: x in after <==> x in before && key(x) != k
  }

  ghost predicate Same<T(!new)>(before: seq<T>, after: seq<T>) {
    forall x :: x in after <==> x in before
  }

  /** item took the place of the one with its key, and all else is in its place. */
  predicate InPlace<K(==), T(==)>(before: seq<T>, after: seq<T>, key: T -> K, item: T) {
    |after| == |before| && forall i | 0 <= i < |before| :: after[i] == if key(before[i]) == key(item) then item else before[i]
  }

  ghost predicate SameAreas(before: Registry, after: Registry) { Same(before.areas, after.areas) }
  predicate SameDevices(before: Registry, after: Registry) { after.devices == before.devices }
  predicate SameScenes(before: Registry, after: Registry) { after.scenes == before.scenes }
  ghost predicate SamePlacements(before: Registry, after: Registry) { Same(before.placements, after.placements) }

  /** after is before with the command's request carried out, and nothing else changed. */
  ghost predicate Carried(before: Registry, after: Registry, c: Command) {
    match c
    case CreateArea(area) =>
      Puts(before.areas, after.areas, AreaKey, area) && SameDevices(before, after) && SameScenes(before, after) && SamePlacements(before, after)
    case UpdateArea(area) =>
      Puts(before.areas, after.areas, AreaKey, area) && SameDevices(before, after) && SameScenes(before, after) && SamePlacements(before, after)
    case DeleteArea(id) =>
      Takes(before.areas, after.areas, AreaKey, id) && SameDevices(before, after) && SameScenes(before, after) && SamePlacements(before, after)
    case CreateDevice(device) =>
      && Puts(before.devices, after.devices, DeviceKey, device) && after.devices == before.devices + [device]
      && SameAreas(before, after) && SameScenes(before, after) && SamePlacements(before, after)
    case UpdateDevice(device) =>
      && Puts(before.devices, after.devices, DeviceKey, device) && InPlace(before.devices, after.devices, DeviceKey, device)
      && SameAreas(before, after) && SameScenes(before, after) && SamePlacements(before, after)
    case DeleteDevice(id) =>
      Takes(before.devices, after.devices, DeviceKey, id) && SameAreas(before, after) && SameScenes(before, after) && SamePlacements(before, after)
    case CreateScene(scene) =>
      && Puts(before.scenes, after.scenes, SceneKey, scene) && after.scenes == before.scenes + [scene]
      && SameAreas(before, after) && SameDevices(before, after) && SamePlacements(before, after)
    case UpdateScene(scene) =>
      && Puts(before.scenes, after.scenes, SceneKey, scene) && InPlace(before.scenes, after.scenes, SceneKey, scene)
      && SameAreas(before, after) && SameDevices(before, after) && SamePlacements(before, after)
    case DeleteScene(id) =>
      Takes(before.scenes, after.scenes, SceneKey, id) && SameAreas(before, after) && SameDevices(before, after) && SamePlacements(before, after)
    case SetPlacement(p) =>
      Puts(before.placements, after.placements, PlacementKey, p) && SameAreas(before, after) && SameDevices(before, after) && SameScenes(before, after)
    case ClearPlacement(ref) =>
      Takes(before.placements, after.placements, PlacementKey, ref) && SameAreas(before, after) && SameDevices(before, after) && SameScenes(before, after)
    case LoadSample(sample) =>
      Same(sample.areas, after.areas) && after.devices == sample.devices && after.scenes == sample.scenes && Same(sample.placements, after.placements)
  }

  // ----- The proposal ------------------------------------------------------------------

  /** Listed once per key, as the rows of a table are. */
  ghost predicate OncePerKey<K, T(!new)>(s: seq<T>, key: T -> K) {
    forall x, y | x in s && y in s && key(x) == key(y) :: x == y
  }

  ghost predicate KeysOnce(r: Registry) {
    && OncePerKey(r.areas, AreaKey) && OncePerKey(r.devices, DeviceKey) && OncePerKey(r.scenes, SceneKey)
    && OncePerKey(r.placements, PlacementKey)
  }

  lemma ReplacePuts<K, T(!new)>(s: seq<T>, key: T -> K, item: T)
    requires exists x :: x in s && key(x) == key(item)
    ensures Puts(s, Replace(s, key, item), key, item) && InPlace(s, Replace(s, key, item), key, item)
  {
    var t := Replace(s, key, item);
    forall x ensures x in t <==> x == item || (x in s && key(x) != key(item)) {
      if x in t {
        var i :| 0 <= i < |t| && t[i] == x;
        assert s[i] in s;
      }
      if x == item {
        var y :| y in s && key(y) == key(item);
        var i :| 0 <= i < |s| && s[i] == y;
        assert t[i] == item;
      } else if x in s && key(x) != key(item) {
        var i :| 0 <= i < |s| && s[i] == x;
        assert t[i] == x;
      }
    }
  }

  /** The key the request names is there, or for a creation it is not, among what is listed. */
  ghost predicate Found(r: Registry, c: Command) {
    match c
    case CreateArea(area) => forall x | x in r.areas :: x.id != area.id
    case UpdateArea(area) => exists x :: x in r.areas && x.id == area.id
    case DeleteArea(id) => exists x :: x in r.areas && x.id == id
    case CreateDevice(device) => forall x | x in r.devices :: x.id != device.id
    case UpdateDevice(device) => exists x :: x in r.devices && x.id == device.id
    case DeleteDevice(id) => exists x :: x in r.devices && x.id == id
    case CreateScene(scene) => forall x | x in r.scenes :: x.id != scene.id
    case UpdateScene(scene) => exists x :: x in r.scenes && x.id == scene.id
    case DeleteScene(id) => exists x :: x in r.scenes && x.id == id
    case SetPlacement(_) => true
    case ClearPlacement(ref) => exists x :: x in r.placements && x.device == ref
    case LoadSample(sample) =>
      && (forall i, j | 0 <= i < j < |sample.areas| :: sample.areas[i].id != sample.areas[j].id)
      && (forall i, j | 0 <= i < j < |sample.devices| :: sample.devices[i].id != sample.devices[j].id)
      && (forall i, j | 0 <= i < j < |sample.scenes| :: sample.scenes[i].id != sample.scenes[j].id)
      && (forall i, j | 0 <= i < j < |sample.placements| :: sample.placements[i].device != sample.placements[j].device)
  }

  lemma AreaProposalCarries(r: Registry, revision: int, c: Command)
    requires Found(r, c) && (c.CreateArea? || c.UpdateArea? || c.DeleteArea?)
    ensures Carried(r, Proposal(r, revision, c), c)
  {
    if c.UpdateArea? {
      var x :| x in r.areas && x.id == c.area.id;
      assert AreaKey(x) == AreaKey(c.area);
      ReplacePuts(r.areas, AreaKey, c.area);
    }
  }

  lemma DeviceProposalCarries(r: Registry, revision: int, c: Command)
    requires Found(r, c) && (c.CreateDevice? || c.UpdateDevice? || c.DeleteDevice?)
    ensures Carried(r, Proposal(r, revision, c), c)
  {
    if c.UpdateDevice? {
      var x :| x in r.devices && x.id == c.device.id;
      assert DeviceKey(x) == DeviceKey(c.device);
      ReplacePuts(r.devices, DeviceKey, c.device);
    }
  }

  lemma SceneProposalCarries(r: Registry, revision: int, c: Command)
    requires Found(r, c) && (c.CreateScene? || c.UpdateScene? || c.DeleteScene?)
    ensures Carried(r, Proposal(r, revision, c), c)
  {
    if c.UpdateScene? {
      var x :| x in r.scenes && x.id == c.scene.id;
      assert SceneKey(x) == SceneKey(c.scene);
      ReplacePuts(r.scenes, SceneKey, c.scene);
    }
  }

  lemma OtherProposalCarries(r: Registry, revision: int, c: Command)
    requires c.SetPlacement? || c.ClearPlacement? || c.LoadSample?
    ensures Carried(r, Proposal(r, revision, c), c)
  {
  }

  lemma ProposalCarries(r: Registry, revision: int, c: Command)
    requires Found(r, c)
    ensures Carried(r, Proposal(r, revision, c), c) && Proposal(r, revision, c).revision == revision
  {
    if c.CreateArea? || c.UpdateArea? || c.DeleteArea? {
      AreaProposalCarries(r, revision, c);
    } else if c.CreateDevice? || c.UpdateDevice? || c.DeleteDevice? {
      DeviceProposalCarries(r, revision, c);
    } else if c.CreateScene? || c.UpdateScene? || c.DeleteScene? {
      SceneProposalCarries(r, revision, c);
    } else {
      OtherProposalCarries(r, revision, c);
    }
  }

  // ----- What is listed and what is in the tables --------------------------------------

  lemma DevicesListed(devices: map<DeviceId, DeviceRow>)
    requires Distinct(DevicePositions(devices))
    ensures Represents(devices, DEVICES, DeviceKey, ReadDevices(devices))
  {
    DevicesSortable(devices);
    ReadRepresents(devices, DEVICES, DeviceKey);
  }

  lemma ScenesListed(scenes: map<SceneId, SceneRow>, actions: map<ActionKey, Action>)
    requires Distinct(ScenePositions(scenes))
    ensures Represents(scenes, Scenes(actions), SceneKey, ReadScenes(scenes, actions))
  {
    ScenesSortable(scenes, actions);
    ReadRepresents(scenes, Scenes(actions), SceneKey);
  }

  lemma AreasAreListed(t: Tables, revision: int)
    requires Positioned(t)
    ensures forall id :: id in t.areas <==> exists x :: x in Load(revision, t).areas && x.id == id
    ensures OncePerKey(Load(revision, t).areas, AreaKey)
  {
    AreasRepresented(t.areas);
    forall id | id in t.areas ensures exists x :: x in Load(revision, t).areas && x.id == id {
      assert AREAS.view(id, t.areas[id]) in ReadAreas(t.areas);
    }
  }

  lemma DevicesAreListed(t: Tables, revision: int)
    requires Positioned(t)
    ensures forall id :: id in t.devices <==> exists x :: x in Load(revision, t).devices && x.id == id
    ensures OncePerKey(Load(revision, t).devices, DeviceKey)
  {
    DevicesListed(t.devices);
    forall id | id in t.devices ensures exists x :: x in Load(revision, t).devices && x.id == id {
      assert DEVICES.view(id, t.devices[id]) in ReadDevices(t.devices);
    }
  }

  lemma ScenesAreListed(t: Tables, revision: int)
    requires Positioned(t)
    ensures forall id :: id in t.scenes <==> exists x :: x in Load(revision, t).scenes && x.id == id
    ensures OncePerKey(Load(revision, t).scenes, SceneKey)
  {
    ScenesListed(t.scenes, t.actions);
    forall id | id in t.scenes ensures exists x :: x in Load(revision, t).scenes && x.id == id {
      assert Scenes(t.actions).view(id, t.scenes[id]) in ReadScenes(t.scenes, t.actions);
    }
  }

  lemma PlacementsAreListed(t: Tables, revision: int)
    requires Positioned(t)
    ensures forall ref :: ref in t.placements <==> exists x :: x in Load(revision, t).placements && x.device == ref
    ensures OncePerKey(Load(revision, t).placements, PlacementKey)
  {
    PlacementsRepresented(t.placements);
    forall ref | ref in t.placements ensures exists x :: x in Load(revision, t).placements && x.device == ref {
      assert PLACEMENTS.view(ref, t.placements[ref]) in ReadPlacements(t.placements);
    }
  }

  // ----- When a command is accepted ------------------------------------------------------

  /** Nothing in the home stands in the way of the command. */
  ghost predicate Allowed(r: Registry, c: Command) {
    && Found(r, c)
    && match c
       case DeleteArea(id) => (forall x | x in r.devices :: x.area != Some(id)) && (forall x | x in r.placements :: x.area != id)
       case DeleteDevice(id) => forall x, action | x in r.scenes && action in x.actions :: action.device != id
       case LoadSample(_) => r.areas == [] && r.devices == [] && r.scenes == [] && r.placements == []
       case _ => true
  }

  lemma UsedAreas(r: Registry, id: AreaId)
    ensures UsesArea(r, id) <==> !((forall x | x in r.devices :: x.area != Some(id)) && (forall x | x in r.placements :: x.area != id))
  {
    if UsesArea(r, id) {
      if i :| 0 <= i < |r.devices| && r.devices[i].area == Some(id) {
        assert r.devices[i] in r.devices;
      } else {
        var j :| 0 <= j < |r.placements| && r.placements[j].area == id;
        assert r.placements[j] in r.placements;
      }
    }
  }

  lemma DrivenDevices(r: Registry, id: DeviceId)
    ensures DrivenByAScene(r, id) <==> !(forall x, action | x in r.scenes && action in x.actions :: action.device != id)
  {
    if DrivenByAScene(r, id) {
      var i :| 0 <= i < |r.scenes| && Drives(r.scenes[i], id);
      var k :| 0 <= k < |r.scenes[i].actions| && r.scenes[i].actions[k].device == id;
      assert r.scenes[i] in r.scenes && r.scenes[i].actions[k] in r.scenes[i].actions;
    }
    if x, action :| x in r.scenes && action in x.actions && action.device == id {
      var i :| 0 <= i < |r.scenes| && r.scenes[i] == x;
      var k :| 0 <= k < |x.actions| && x.actions[k] == action;
      assert Drives(r.scenes[i], id);
    }
  }

  /** r lists what t holds. */
  ghost predicate Lists(t: Tables, r: Registry) {
    && (forall id :: id in t.areas <==> exists x :: x in r.areas && x.id == id)
    && (forall id :: id in t.devices <==> exists x :: x in r.devices && x.id == id)
    && (forall id :: id in t.scenes <==> exists x :: x in r.scenes && x.id == id)
    && (forall ref :: ref in t.placements <==> exists x :: x in r.placements && x.device == ref)
  }

  lemma LoadLists(t: Tables, revision: int)
    requires Positioned(t)
    ensures Lists(t, Load(revision, t))
  {
    AreasAreListed(t, revision);
    DevicesAreListed(t, revision);
    ScenesAreListed(t, revision);
    PlacementsAreListed(t, revision);
  }

  lemma AreaCommandsAllowed(t: Tables, r: Registry, c: Command)
    requires Lists(t, r) && (c.CreateArea? || c.UpdateArea? || c.DeleteArea?)
    ensures CommandRefusal(t, r, c).None? && !Duplicates(t, c) <==> Allowed(r, c)
  {
    if c.DeleteArea? { UsedAreas(r, c.areaId); }
  }

  lemma DeviceCommandsAllowed(t: Tables, r: Registry, c: Command)
    requires Lists(t, r) && (c.CreateDevice? || c.UpdateDevice? || c.DeleteDevice?)
    ensures CommandRefusal(t, r, c).None? && !Duplicates(t, c) <==> Allowed(r, c)
  {
    if c.DeleteDevice? { DrivenDevices(r, c.deviceId); }
  }

  lemma OtherCommandsAllowed(t: Tables, r: Registry, c: Command)
    requires Lists(t, r) && !(c.CreateArea? || c.UpdateArea? || c.DeleteArea? || c.CreateDevice? || c.UpdateDevice? || c.DeleteDevice?)
    ensures CommandRefusal(t, r, c).None? && !Duplicates(t, c) <==> Allowed(r, c)
  {
  }

  lemma UnrefusedIsAllowed(t: Tables, r: Registry, c: Command)
    requires Lists(t, r)
    ensures CommandRefusal(t, r, c).None? && !Duplicates(t, c) <==> Allowed(r, c)
  {
    if c.CreateArea? || c.UpdateArea? || c.DeleteArea? {
      AreaCommandsAllowed(t, r, c);
    } else if c.CreateDevice? || c.UpdateDevice? || c.DeleteDevice? {
      DeviceCommandsAllowed(t, r, c);
    } else {
      OtherCommandsAllowed(t, r, c);
    }
  }

  lemma ChangeDecides(h: Home, accepts: Registry -> bool, expected: int, c: Command, r: Registry, proposal: Registry)
    requires Sound(h) && r == Load(h.revision, h.tables) && proposal == Proposal(r, h.revision + 1, c)
    ensures var outcome := Change(h, accepts, expected, c);
            && (outcome.Done? <==>
                  h.revision == expected && CommandRefusal(h.tables, r, c).None? && !Duplicates(h.tables, c) && accepts(proposal))
            && (outcome.Done? ==> outcome.answer == proposal)
            && (expected >= 0 && h.revision != expected ==> outcome == Refused(Conflict(h.revision)))
  {
  }

  /** A command is accepted exactly at the current revision, when nothing in the home stands in its way and the registry it
      would produce passes; it answers that registry. */
  lemma CommandAcceptedExactlyWhen(h: Home, accepts: Registry -> bool, expected: int, c: Command)
    requires Sound(h)
    ensures var (outcome, proposal) := (Change(h, accepts, expected, c), Proposal(Load(h.revision, h.tables), h.revision + 1, c));
            && (outcome.Done? <==> h.revision == expected && Allowed(Load(h.revision, h.tables), c) && accepts(proposal))
            && (outcome.Done? ==> outcome.answer == proposal)
            && (expected >= 0 && h.revision != expected ==> outcome == Refused(Conflict(h.revision)))
  {
    var r := Load(h.revision, h.tables);
    LoadLists(h.tables, h.revision);
    UnrefusedIsAllowed(h.tables, r, c);
    ChangeDecides(h, accepts, expected, c, r, Proposal(r, h.revision + 1, c));
  }

  /** A request is accepted exactly for an owner who exists, as its command is by the owner's home: the one written, or an
      empty one at revision 0. */
  lemma RequestAcceptedExactlyWhen(db: Database, accepts: Registry -> bool, owner: OwnerId, expected: int, c: Command)
    requires AllSound(db)
    ensures var h := if owner in db.homes then db.homes[owner] else Home(0, Tables(map[], map[], map[], map[], map[]), []);
            var outcome := Serve(db, accepts, Request(owner, expected, c));
            && Sound(h)
            && (outcome.Done? <==>
                  && owner in db.owners && h.revision == expected && Allowed(Load(h.revision, h.tables), c)
                  && accepts(Proposal(Load(h.revision, h.tables), h.revision + 1, c)))
            && (outcome.Done? ==> outcome == Change(h, accepts, expected, c))
  {
    var h := HomeOf(db, owner);
    assert Sound(h);
    CommandAcceptedExactlyWhen(h, accepts, expected, c);
  }

  // ----- What an accepted command leaves --------------------------------------------------

  lemma SameMultisetsSame<T(!new)>(a: seq<T>, b: seq<T>)
    requires multiset(a) == multiset(b)
    ensures Same(a, b)
  {
    forall x ensures x in b <==> x in a {
      assert x in b <==> x in multiset(b);
      assert x in a <==> x in multiset(a);
    }
  }

  lemma CarriedUpToOrder(before: Registry, answer: Registry, after: Registry, c: Command)
    requires Carried(before, answer, c) && Agrees(after, answer)
    ensures Carried(before, after, c)
  {
    SameMultisetsSame(after.areas, answer.areas);
    SameMultisetsSame(after.placements, answer.placements);
  }

  /** After an accepted command the rows and the answer hold the request, under its key and nothing else there, and otherwise
      exactly what they held before. */
  lemma AcceptedCommandsAreCarriedOut(h: Home, accepts: Registry -> bool, expected: int, c: Command, outcome: Outcome)
    requires Sound(h) && outcome == Change(h, accepts, expected, c) && outcome.Done?
    ensures Positioned(outcome.home.tables)
    ensures var (before, after) := (Load(h.revision, h.tables), Load(outcome.home.revision, outcome.home.tables));
            && Carried(before, outcome.answer, c) && Carried(before, after, c)
            && outcome.answer.revision == after.revision == h.revision + 1 && KeysOnce(after)
  {
    var before := Load(h.revision, h.tables);
    CommandAcceptedExactlyWhen(h, accepts, expected, c);
    ProposalCarries(before, h.revision + 1, c);
    RowsRefineTheProposal(h, accepts, expected, c, outcome);
    ChangeAdvances(h, accepts, expected, c, outcome);
    CarriedUpToOrder(before, outcome.answer, Load(outcome.home.revision, outcome.home.tables), c);
    AreasAreListed(outcome.home.tables, outcome.home.revision);
    DevicesAreListed(outcome.home.tables, outcome.home.revision);
    ScenesAreListed(outcome.home.tables, outcome.home.revision);
    PlacementsAreListed(outcome.home.tables, outcome.home.revision);
  }
}
