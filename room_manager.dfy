/**
 * `RoomManager`: the registry of rooms, the switch from one room to the
 * next, the door sweep that moves the player through a door on 'p', and
 * the talk interaction of the current room. The rooms are held by a
 * `RoomRef`, one variant per room class; the asynchronous steps of a
 * switch are run in order, one after the other.
 */
module RoomManagement {
  import opened Wrappers
  import opened Vectors
  import opened SceneGraph
  import opened InputController
  import opened Doors
  import opened Rooms
  import opened Npc
  import opened PumpkinTalk
  import opened Character
  import TrapRoom
  import PetalRoom
  import RoseRoom
  import SkeletonRoom
  import FlowerRoom
  import ChaseRoom
  import WarningRoom

  /** A registered room: one of the seven room classes, or a plain `RoomBase`. */
  datatype RoomRef =
    | Trap(trap: TrapRoom.Room1)
    | Petal(petal: PetalRoom.Room2)
    | Rose(rose: RoseRoom.Room4)
    | Skeleton(skeleton: SkeletonRoom.Room5)
    | Flower(flower: FlowerRoom.Room7)
    | Chase(chase: ChaseRoom.Room8)
    | Warning(warning: WarningRoom.Room9)
    | Plain(plain: RoomBase)

  /** The `RoomBase` part of a room. */
  function Base(r: RoomRef): RoomBase {
    match r
    case Trap(x) => x.base
    case Petal(x) => x.base
    case Rose(x) => x.base
    case Skeleton(x) => x.base
    case Flower(x) => x.base
    case Chase(x) => x.base
    case Warning(x) => x.base
    case Plain(b) => b
  }

  /** The room object itself. */
  function Obj(r: RoomRef): object {
    match r
    case Trap(x) => x
    case Petal(x) => x
    case Rose(x) => x
    case Skeleton(x) => x
    case Flower(x) => x
    case Chase(x) => x
    case Warning(x) => x
    case Plain(b) => b
  }

  /** The room's own invariant; the trap room and the plain room have none. */
  predicate RoomValid(r: RoomRef)
    reads Obj(r)
  {
    match r
    case Trap(_) => true
    case Petal(x) => x.Valid()
    case Rose(x) => x.Valid()
    case Skeleton(x) => x.Valid()
    case Flower(x) => x.Valid()
    case Chase(x) => x.Valid()
    case Warning(x) => x.Valid()
    case Plain(_) => true
  }

  /** The room's `pumpkins` list; the trap room, room 8 and the plain room have none (`undefined`). */
  function PumpkinsOf(r: RoomRef): (ps: Option<seq<PumpkinNPC>>)
    reads Obj(r)
    ensures ps.None? <==> r.Trap? || r.Chase? || r.Plain?
  {
    match r
    case Trap(_) => None
    case Petal(x) => Some(x.pumpkins)
    case Rose(x) => Some(x.pumpkins)
    case Skeleton(x) => Some(x.pumpkins)
    case Flower(x) => Some(x.pumpkins)
    case Chase(_) => None
    case Warning(x) => Some(x.pumpkins)
    case Plain(_) => None
  }

  /** Every room of the configuration is 3 × 1 × 3 and centred on the origin. */
  const StandardSize: RoomSize := RoomSize(3.0, 1.0, 3.0)

  /** The configuration table of `createRooms`. */
  const RoomConfigs: seq<RoomConfig> := [
    RoomConfig(1, StandardSize, Origin, [2]),
    RoomConfig(2, StandardSize, Origin, [1, 4]),
    RoomConfig(4, StandardSize, Origin, [2, 5, 7, 9]),
    RoomConfig(5, StandardSize, Origin, [4]),
    RoomConfig(7, StandardSize, Origin, [4, 8]),
    RoomConfig(8, StandardSize, Origin, [7, 9]),
    RoomConfig(9, StandardSize, Origin, [8, 4])
  ]

  /** The room `createRooms` enters first. */
  const FirstRoom: int := 4

  /** The ids `createRooms` registers. */
  function ConfigIds(): set<int> {
    set c | c in RoomConfigs :: c.id
  }

  /** The class `createRooms` builds for an id; unknown ids get a plain room. */
  predicate BuiltFor(r: RoomRef, id: int) {
    match r
    case Trap(_) => id == 1
    case Petal(_) => id == 2
    case Rose(_) => id == 4
    case Skeleton(_) => id == 5
    case Flower(_) => id == 7
    case Chase(_) => id == 8
    case Warning(_) => id == 9
    case Plain(_) => id !in {1, 2, 4, 5, 7, 8, 9}
  }

  /** The door table of the room class built for an id; a plain room has none. */
  function DoorTable(id: int): Option<seq<Door>> {
    if id == 1 then Some(TrapRoom.Room1Doors)
    else if id == 2 then Some(PetalRoom.Room2Doors)
    else if id == 4 then Some(RoseRoom.Room4Doors)
    else if id == 5 then Some(SkeletonRoom.Room5Doors)
    else if id == 7 then Some(FlowerRoom.Room7Doors)
    else if id == 8 then Some(ChaseRoom.Room8Doors)
    else if id == 9 then Some(WarningRoom.Room9Doors)
    else None
  }

  /** The configured ids are 1, 2, 4, 5, 7, 8 and 9, so every configured room gets its own class; room 4 is one of them. */
  lemma ConfigIdsAreTheRoomClasses()
    ensures ConfigIds() == {1, 2, 4, 5, 7, 8, 9}
    ensures FirstRoom in ConfigIds()
  {
    assert RoomConfigs[0].id == 1 && RoomConfigs[1].id == 2 && RoomConfigs[2].id == 4;
    assert RoomConfigs[3].id == 5 && RoomConfigs[4].id == 7 && RoomConfigs[5].id == 8 && RoomConfigs[6].id == 9;
  }

  /** For each id, the last configuration with that id: what registering `configs` in order leaves. */
  function LastConfigs(configs: seq<RoomConfig>): (m: map<int, RoomConfig>)
    ensures forall id :: id in m ==> m[id].id == id && m[id] in configs
  {
    if configs == [] then map[]
    else
      var c := configs[|configs| - 1];
      var rest := configs[..|configs| - 1];
      assert configs == rest + [c];
      LastConfigs(rest)[c.id := c]
  }

  /** Taking one more configuration updates the map with it. */
  lemma LastConfigsSnoc(configs: seq<RoomConfig>, i: int)
    requires 0 <= i < |configs|
    ensures LastConfigs(configs[..i + 1]) == LastConfigs(configs[..i])[configs[i].id := configs[i]]
  {
    assert configs[..i + 1][..i] == configs[..i];
  }

  /** A configuration that no later one overrides is the one kept for its id. */
  lemma {:induction false} LastConfigsKeeps(configs: seq<RoomConfig>, k: int)
    requires 0 <= k < |configs|
    requires forall j :: k < j < |configs| ==> configs[j].id != configs[k].id
    ensures configs[k].id in LastConfigs(configs) && LastConfigs(configs)[configs[k].id] == configs[k]
  {
    var n := |configs| - 1;
    if k < n {
      var rest := configs[..n];
      assert rest[k] == configs[k];
      forall j | k < j < |rest| ensures rest[j].id != rest[k].id {
        assert rest[j] == configs[j];
      }
      LastConfigsKeeps(rest, k);
    }
  }

  /** The configured ids are pairwise different. */
  lemma TableIdsDistinct()
    ensures forall a, b :: 0 <= a < b < |RoomConfigs| ==> RoomConfigs[a].id != RoomConfigs[b].id
  {
    assert RoomConfigs[0].id == 1 && RoomConfigs[1].id == 2 && RoomConfigs[2].id == 4;
    assert RoomConfigs[3].id == 5 && RoomConfigs[4].id == 7 && RoomConfigs[5].id == 8 && RoomConfigs[6].id == 9;
  }

  /** The configuration table has one entry per id, so each configuration is the last with its id. */
  lemma LastConfigsOfTable()
    ensures LastConfigs(RoomConfigs).Keys == ConfigIds()
    ensures forall k :: 0 <= k < |RoomConfigs| ==>
      RoomConfigs[k].id in LastConfigs(RoomConfigs) && LastConfigs(RoomConfigs)[RoomConfigs[k].id] == RoomConfigs[k]
  {
    TableIdsDistinct();
    forall k | 0 <= k < |RoomConfigs|
      ensures RoomConfigs[k].id in LastConfigs(RoomConfigs) && LastConfigs(RoomConfigs)[RoomConfigs[k].id] == RoomConfigs[k]
    {
      LastConfigsKeeps(RoomConfigs, k);
    }
    var m := LastConfigs(RoomConfigs);
    forall id ensures id in m <==> id in ConfigIds() {
      if id in m {
        assert m[id] in RoomConfigs;
      }
    }
  }

  /** A registry holding the table's configurations holds every configuration of the table. */
  lemma TableRegistered(before: map<int, RoomRef>, rooms: map<int, RoomRef>)
    requires forall id :: id in rooms <==> id in before || id in LastConfigs(RoomConfigs)
    requires forall id :: id in LastConfigs(RoomConfigs) ==> Registered(rooms, LastConfigs(RoomConfigs)[id])
    ensures rooms.Keys == before.Keys + ConfigIds()
    ensures forall k :: 0 <= k < |RoomConfigs| ==> Registered(rooms, RoomConfigs[k])
  {
    LastConfigsOfTable();
    assert forall id :: id in rooms.Keys <==> id in before.Keys + ConfigIds();
  }

  /** Registering `c` over a registry that held `done` holds `done` updated with `c`. */
  lemma RegistryStep(before: map<int, RoomRef>, rooms: map<int, RoomRef>, done: map<int, RoomConfig>, c: RoomConfig,
                      after: map<int, RoomConfig>)
    requires c.id in rooms && rooms == before[c.id := rooms[c.id]] && Registered(rooms, c)
    requires forall id :: id in done ==> done[id].id == id && Registered(before, done[id])
    requires after == done[c.id := c]
    ensures forall id :: id in after ==> Registered(rooms, after[id])
  {
    forall id | id in after
      ensures Registered(rooms, after[id])
    {
      if id != c.id {
        assert rooms[id] == before[id];
      }
    }
  }

  /** The room registered for a configuration is of its class and carries its configuration and door table. */
  predicate Registered(rooms: map<int, RoomRef>, c: RoomConfig) {
    c.id in rooms && BuiltFor(rooms[c.id], c.id) &&
    var b := Base(rooms[c.id]);
    b.id == c.id && b.size == c.size && b.position == c.position &&
    b.connections == c.connections && b.doors == DoorTable(c.id)
  }

  /** The room's cube is in the scene. */
  predicate HasCube(b: RoomBase, scene: Scene)
    reads b, scene
  {
    b.mesh != null && b.mesh in scene.nodes
  }

  /** The rooms a door table leads to. */
  function Targets(doors: seq<Door>): set<int> {
    set d | d in doors :: d.connection
  }

  lemma TargetsOfOne(a: Door)
    ensures Targets([a]) == {a.connection}
  {
    assert [a][0] == a;
  }

  lemma TargetsOfTwo(a: Door, b: Door)
    ensures Targets([a, b]) == {a.connection, b.connection}
  {
    assert [a, b][0] == a && [a, b][1] == b;
  }

  lemma ElementsOfTwo(a: int, b: int)
    ensures Elements([a, b]) == {a, b}
  {
    assert [a, b][0] == a && [a, b][1] == b;
  }

  lemma TargetsOfFour(a: Door, b: Door, c: Door, d: Door)
    ensures Targets([a, b, c, d]) == {a.connection, b.connection, c.connection, d.connection}
  {
    var ds := [a, b, c, d];
    assert ds[0] == a && ds[1] == b && ds[2] == c && ds[3] == d;
  }

  lemma ElementsOfFour(a: int, b: int, c: int, d: int)
    ensures Elements([a, b, c, d]) == {a, b, c, d}
  {
    var xs := [a, b, c, d];
    assert xs[0] == a && xs[1] == b && xs[2] == c && xs[3] == d;
  }

  /** Configuration `k`'s door table leads exactly to its connections. */
  lemma DoorsMatchAt(k: int)
    requires 0 <= k < |RoomConfigs|
    ensures DoorTable(RoomConfigs[k].id).Some?
    ensures Targets(DoorTable(RoomConfigs[k].id).value) == Elements(RoomConfigs[k].connections)
  {
    var c := RoomConfigs[k];
    var ds := DoorTable(c.id).value;
    if k == 2 {
      TargetsOfFour(ds[0], ds[1], ds[2], ds[3]);
      ElementsOfFour(2, 5, 7, 9);
      assert ds == [ds[0], ds[1], ds[2], ds[3]];
    } else if k == 0 || k == 3 {
      TargetsOfOne(ds[0]);
      assert ds == [ds[0]] && Elements(c.connections) == {c.connections[0]};
    } else {
      TargetsOfTwo(ds[0], ds[1]);
      ElementsOfTwo(c.connections[0], c.connections[1]);
      assert ds == [ds[0], ds[1]] && c.connections == [c.connections[0], c.connections[1]];
    }
  }

  /** Each configured room's doors lead exactly to its configured connections. */
  lemma DoorsMatchConnections(c: RoomConfig)
    requires c in RoomConfigs
    ensures DoorTable(c.id).Some?
    ensures Targets(DoorTable(c.id).value) == Elements(c.connections)
  {
    var k :| 0 <= k < |RoomConfigs| && RoomConfigs[k] == c;
    DoorsMatchAt(k);
  }

  /** Every door of a configured room has one of the four canonical turns and leads to a configured room. */
  lemma DoorsLeadToRooms(c: RoomConfig, d: Door)
    requires c in RoomConfigs
    requires DoorTable(c.id).Some? && d in DoorTable(c.id).value
    ensures !d.yaw.Other? && d.connection in ConfigIds()
  {
    ConfigIdsAreTheRoomClasses();
  }

  /** A door stands at the middle of one of the four walls of a standard room. */
  predicate AtDoorSpot(d: Door) {
    d.position in {Vec3(-1.5, -0.17, 0.0), Vec3(1.5, -0.17, 0.0), Vec3(0.0, -0.17, 1.5), Vec3(0.0, -0.17, -1.5)}
  }

  /** Every door of every configured room stands at a door spot. */
  lemma ConfigDoorsAtSpots(c: RoomConfig)
    requires c in RoomConfigs
    ensures DoorTable(c.id).Some? && forall d :: d in DoorTable(c.id).value ==> AtDoorSpot(d)
  {
  }

  /** The entry point of a standard room is more than a door's reach (0.55 or more) from every door spot. */
  lemma EntryFarFromDoors(wall: Compass, d: Door)
    requires AtDoorSpot(d)
    ensures !Near(EntryPosition(Origin, StandardSize, wall), d.position, DoorRadius)
  {
  }

  function Lookup(rooms: map<int, RoomRef>, id: int): (r: Option<RoomRef>)
    ensures r.Some? <==> id in rooms
    ensures id in rooms ==> r.value == rooms[id]
  {
    if id in rooms then Some(rooms[id]) else None
  }

  /**
   * `transitionToRoom`: no position for an unknown room or an unknown wall;
   * otherwise the entry point of the named wall of that room.
   */
  function TransitionToRoom(rooms: map<int, RoomRef>, newRoomId: int, entryPoint: Option<Compass>): (p: Option<Vec3>)
    ensures p.Some? <==> newRoomId in rooms && entryPoint.Some?
    ensures p.Some? ==> p.value == EntryPosition(Base(rooms[newRoomId]).position, Base(rooms[newRoomId]).size, entryPoint.value)
  {
    if newRoomId in rooms && entryPoint.Some? then
      Some(EntryPosition(Base(rooms[newRoomId]).position, Base(rooms[newRoomId]).size, entryPoint.value))
    else None
  }

  /** A transition to a configured room through a canonical door lands strictly inside that room. */
  lemma TransitionLandsInside(rooms: map<int, RoomRef>, d: Door)
    requires d.connection in rooms && !d.yaw.Other?
    requires Base(rooms[d.connection]).size.width > 1.0 && Base(rooms[d.connection]).size.depth > 1.0
    ensures TransitionToRoom(rooms, d.connection, OppositeEntryPoint(d.yaw)).Some?
    ensures var b := Base(rooms[d.connection]);
      InsideFootprint(TransitionToRoom(rooms, d.connection, OppositeEntryPoint(d.yaw)).value, b.position, b.size)
  {
    var b := Base(rooms[d.connection]);
    EntryInsideRoom(b.position, b.size, OppositeEntryPoint(d.yaw).value);
  }

  /**
   * What the door sweep of `checkRoomTransition` did: the rooms it switched
   * to in order, where it left the player, and whether it stopped on an
   * error (the copy of a missing entry position, or of one into a missing body).
   */
  datatype SweepResult = SweepResult(targets: seq<int>, position: Vec3, threw: bool)

  function Prepend(ts: seq<int>, s: SweepResult): SweepResult {
    SweepResult(ts + s.targets, s.position, s.threw)
  }

  /**
   * The door sweep: the doors are visited in order, each against the
   * player's position as it is then, so a switch through one door moves
   * the player before the next door is measured.
   */
  function Sweep(rooms: map<int, RoomRef>, doors: seq<Door>, position: Vec3, pressed: bool, hasBody: bool): SweepResult
    decreases |doors|
  {
    if doors == [] then SweepResult([], position, false)
    else if !(Near(position, doors[0].position, DoorRadius) && pressed) then
      Sweep(rooms, doors[1..], position, pressed, hasBody)
    else
      match TransitionToRoom(rooms, doors[0].connection, OppositeEntryPoint(doors[0].yaw))
      case None => SweepResult([], position, true)
      case Some(p) =>
        if hasBody then Prepend([doors[0].connection], Sweep(rooms, doors[1..], p, pressed, hasBody))
        else SweepResult([], p, true)
  }

  /** Without 'p' the sweep switches nowhere and leaves the player where they are. */
  lemma {:induction false} SweepWithoutKey(rooms: map<int, RoomRef>, doors: seq<Door>, position: Vec3, hasBody: bool)
    ensures Sweep(rooms, doors, position, false, hasBody) == SweepResult([], position, false)
    decreases |doors|
  {
    if doors != [] {
      SweepWithoutKey(rooms, doors[1..], position, hasBody);
    }
  }

  /** Every room is a standard room at the origin. */
  predicate StandardRooms(rooms: map<int, RoomRef>) {
    forall id :: id in rooms ==> Base(rooms[id]).position == Origin && Base(rooms[id]).size == StandardSize
  }

  /** From an entry point of a standard room no door spot is in reach, so the rest of the sweep does nothing. */
  lemma {:induction false} NoSwitchFromEntry(rooms: map<int, RoomRef>, doors: seq<Door>, wall: Compass, pressed: bool, hasBody: bool)
    requires forall d :: d in doors ==> AtDoorSpot(d)
    ensures var e := EntryPosition(Origin, StandardSize, wall);
      Sweep(rooms, doors, e, pressed, hasBody) == SweepResult([], e, false)
    decreases |doors|
  {
    if doors != [] {
      EntryFarFromDoors(wall, doors[0]);
      NoSwitchFromEntry(rooms, doors[1..], wall, pressed, hasBody);
    }
  }

  /**
   * With standard rooms and doors at the door spots, one call of
   * `checkRoomTransition` switches rooms at most once, so the unawaited
   * switches it starts never overlap.
   */
  lemma {:induction false} AtMostOneSwitch(rooms: map<int, RoomRef>, doors: seq<Door>, position: Vec3, pressed: bool, hasBody: bool)
    requires StandardRooms(rooms)
    requires forall d :: d in doors ==> AtDoorSpot(d)
    ensures |Sweep(rooms, doors, position, pressed, hasBody).targets| <= 1
    decreases |doors|
  {
    if doors != [] {
      if !(Near(position, doors[0].position, DoorRadius) && pressed) {
        AtMostOneSwitch(rooms, doors[1..], position, pressed, hasBody);
      } else {
        var d := doors[0];
        var entry := OppositeEntryPoint(d.yaw);
        if d.connection in rooms && entry.Some? && hasBody {
          NoSwitchFromEntry(rooms, doors[1..], entry.value, pressed, hasBody);
        }
      }
    }
  }

  /** What one door of the sweep does: the room it switches to, where it leaves the player, and whether it threw. */
  datatype DoorOutcome = DoorOutcome(target: Option<int>, position: Vec3, threw: bool)

  /**
   * One door of the sweep: out of reach or without 'p' nothing happens; an
   * unknown room or turn has no entry position, whose copy throws; otherwise
   * the mesh takes the entry position and, when there is a body to copy it
   * into as well, the switch to the door's room follows.
   */
  function DoorStep(rooms: map<int, RoomRef>, d: Door, position: Vec3, pressed: bool, hasBody: bool): (st: DoorOutcome)
    ensures st.target.Some? ==> hasBody && pressed && !st.threw && st.target.value == d.connection
    ensures st.target.None? && (hasBody || !st.threw) ==> st.position == position
    ensures st.threw ==> pressed && Near(position, d.position, DoorRadius)
  {
    if !(Near(position, d.position, DoorRadius) && pressed) then DoorOutcome(None, position, false)
    else
      match TransitionToRoom(rooms, d.connection, OppositeEntryPoint(d.yaw))
      case None => DoorOutcome(None, position, true)
      case Some(p) => if hasBody then DoorOutcome(Some(d.connection), p, false) else DoorOutcome(None, p, true)
  }

  function TargetSeq(t: Option<int>): seq<int> {
    if t.Some? then [t.value] else []
  }

  /** The sweep is the first door's step followed by the sweep of the rest from where that step left the player. */
  lemma SweepUnfold(rooms: map<int, RoomRef>, doors: seq<Door>, position: Vec3, pressed: bool, hasBody: bool)
    requires doors != []
    ensures var st := DoorStep(rooms, doors[0], position, pressed, hasBody);
      Sweep(rooms, doors, position, pressed, hasBody) ==
        if st.threw then SweepResult([], st.position, true)
        else Prepend(TargetSeq(st.target), Sweep(rooms, doors[1..], st.position, pressed, hasBody))
  {
  }

  /**
   * The sweep before door `i` of `ds`: the switches so far followed by the
   * sweep of the remaining doors from `here` make up the sweep from `start`.
   */
  ghost predicate SweepRest(rooms: map<int, RoomRef>, ds: seq<Door>, i: int, switched: seq<int>, here: Vec3,
                            start: Vec3, pressed: bool, hasBody: bool)
  {
    0 <= i <= |ds| &&
    Prepend(switched, Sweep(rooms, ds[i..], here, pressed, hasBody)) == Sweep(rooms, ds, start, pressed, hasBody)
  }

  /** Before the first door nothing is switched, and after the last the sweep is complete. */
  lemma SweepRestEnds(rooms: map<int, RoomRef>, ds: seq<Door>, switched: seq<int>, here: Vec3, start: Vec3,
                      pressed: bool, hasBody: bool)
    ensures SweepRest(rooms, ds, 0, [], start, start, pressed, hasBody)
    ensures SweepRest(rooms, ds, |ds|, switched, here, start, pressed, hasBody) ==>
      SweepResult(switched, here, false) == Sweep(rooms, ds, start, pressed, hasBody)
  {
    assert ds[0..] == ds && ds[|ds|..] == [];
  }

  /** One more door of the sweep: either it throws and ends the sweep there, or its target joins those already switched to. */
  lemma SweepAdvances(rooms: map<int, RoomRef>, ds: seq<Door>, i: int, here: Vec3, pressed: bool, hasBody: bool,
                      switched: seq<int>, start: Vec3)
    requires i < |ds| && SweepRest(rooms, ds, i, switched, here, start, pressed, hasBody)
    ensures var st := DoorStep(rooms, ds[i], here, pressed, hasBody);
      if st.threw then
        SweepResult(switched, st.position, true) == Sweep(rooms, ds, start, pressed, hasBody)
      else
        SweepRest(rooms, ds, i + 1, switched + TargetSeq(st.target), st.position, start, pressed, hasBody)
  {
    var st := DoorStep(rooms, ds[i], here, pressed, hasBody);
    SweepUnfold(rooms, ds[i..], here, pressed, hasBody);
    assert ds[i..][0] == ds[i] && ds[i..][1..] == ds[i + 1..];
    if !st.threw {
      var rest := Sweep(rooms, ds[i + 1..], st.position, pressed, hasBody).targets;
      assert switched + TargetSeq(st.target) + rest == switched + (TargetSeq(st.target) + rest);
    }
  }

  /**
   * The outcome of `checkRoomTransition`: no current room; an error before
   * the sweep (no player mesh, or a room without a door table); or a sweep.
   */
  datatype Transition = NoRoom | Threw | Swept(result: SweepResult)

  /** The last six physics bodies of the room are its six walls. */
  predicate WallsUp(b: RoomBase)
    reads b, set k | 0 <= k < |b.physicsBodies| :: b.physicsBodies[k]
  {
    |b.physicsBodies| >= 6 &&
    var walls := b.physicsBodies[|b.physicsBodies| - 6..];
    forall k :: 0 <= k < |walls| ==> WallBody(walls[k], b.position, b.size, k)
  }

  /** The synchronous part of the room's own `decorate`. */
  method DecorateRoom(r: RoomRef, now: real)
    requires RoomValid(r)
    modifies Obj(r), Base(r), Base(r).scene, Base(r).world
    ensures RoomValid(r)
    ensures Base(r).mesh == old(Base(r).mesh) && Base(r).physicsBodies == old(Base(r).physicsBodies)
    ensures Base(r).input == old(Base(r).input)
    ensures old(Base(r).scene.nodes) <= Base(r).scene.nodes
    ensures forall b :: b in Base(r).world.bodies && b !in old(Base(r).world.bodies) ==> fresh(b)
  {
    match r
    case Trap(x) => x.Decorate(now);
    case Petal(x) => var _, _, _ := x.Decorate();
    case Rose(x) => var _, _, _ := x.Decorate();
    case Skeleton(x) => var _, _ := x.Decorate();
    case Flower(x) => x.Decorate();
    case Chase(x) => var _ := x.Decorate();
    case Warning(x) => var _ := x.Decorate();
    case Plain(_) =>
  }

  /** The room's own `removeFromScene`: its decorations, and whatever else it owns, leave the scene and the world. */
  method RemoveRoom(r: RoomRef)
    requires RoomValid(r)
    modifies Obj(r), Base(r), Base(r).scene, Base(r).world
    ensures RoomValid(r)
    ensures Base(r).decorativeObjects == []
    ensures Base(r).mesh == old(Base(r).mesh) && Base(r).physicsBodies == old(Base(r).physicsBodies)
    ensures Base(r).input == old(Base(r).input)
    ensures Base(r).mesh != null ==> Base(r).mesh !in Base(r).scene.nodes
    ensures Base(r).scene.nodes <= old(Base(r).scene.nodes) - NodesOf(old(Base(r).decorativeObjects))
    ensures Base(r).world.bodies <= old(Base(r).world.bodies) - BodiesOf(old(Base(r).decorativeObjects))
  {
    match r
    case Trap(x) => x.RemoveFromScene();
    case Petal(x) => x.RemoveFromScene();
    case Rose(x) => x.RemoveFromScene();
    case Skeleton(x) => var _ := x.RemoveFromScene();
    case Flower(x) => x.RemoveFromScene();
    case Chase(x) => x.RemoveFromScene();
    case Warning(x) => x.RemoveFromScene();
    case Plain(b) => b.RemoveFromScene();
  }

  /** Leaving a room: its walls leave the world, then its own `removeFromScene` runs. */
  method ClearRoom(r: RoomRef)
    requires RoomValid(r)
    modifies Obj(r), Base(r), Base(r).scene, Base(r).world
    ensures RoomValid(r)
    ensures Base(r).physicsBodies == [] && Base(r).decorativeObjects == []
    ensures Base(r).mesh == old(Base(r).mesh) && Base(r).input == old(Base(r).input)
    ensures Base(r).mesh != null ==> Base(r).mesh !in Base(r).scene.nodes
    ensures forall b :: b in old(Base(r).physicsBodies) ==> b !in Base(r).world.bodies
    ensures Base(r).world.bodies !! old(BodiesOf(Base(r).decorativeObjects))
  {
    Base(r).RemovePhysics();
    RemoveRoom(r);
  }

  /** Building a room as it is entered: its cube and walls, its decorations, and the input handle. */
  method BuildRoom(r: RoomRef, input: Input, texturesOk: bool, now: real)
    requires RoomValid(r)
    modifies Obj(r), Base(r), Base(r).scene, Base(r).world
    ensures RoomValid(r)
    ensures Base(r).input == input && WallsUp(Base(r))
    ensures Base(r).mesh != null && Base(r).mesh in Base(r).scene.nodes && Base(r).mesh.position == Base(r).position
    ensures old(Base(r).scene.nodes) <= Base(r).scene.nodes
    ensures forall b :: b in Base(r).world.bodies && b !in old(Base(r).world.bodies) ==> fresh(b)
  {
    var b := Base(r);
    b.CreateGeometry(texturesOk);
    b.CreatePhysics();
    DecorateRoom(r, now);
    b.SetInput(input);
  }

  /** A room object is none of the manager, the scene, the world or the player. */
  lemma ObjApartFromOthers(a: RoomRef, m: RoomManager, s: Scene, w: World, p: CharacterModel?)
    ensures Obj(a) != m && Obj(a) != s && Obj(a) != w && Obj(a) != p
  {
  }

  /** The room object determines the room, and only a plain room's object is a base. */
  lemma ObjDetermines(a: RoomRef, b: RoomRef)
    ensures Obj(a) == Obj(b) ==> a == b
    ensures Obj(a) == Base(b) ==> Base(a) == Base(b)
  {
  }

  /** A room object is no scene node, body or pumpkin of the game. */
  lemma ObjIsNoPart(a: RoomRef, n: SceneNode?, b: Body?, ps: seq<PumpkinNPC>)
    ensures Obj(a) != n && Obj(a) != b
    ensures forall p :: p in ps ==> Obj(a) != p
  {
  }

  /** An object of one of the room classes. */
  predicate RoomPart(o: object) {
    o is RoomBase || o is TrapRoom.Room1 || o is PetalRoom.Room2 || o is RoseRoom.Room4 ||
    o is SkeletonRoom.Room5 || o is FlowerRoom.Room7 || o is ChaseRoom.Room8 || o is WarningRoom.Room9
  }

  lemma ObjIsRoomPart(r: RoomRef)
    ensures RoomPart(Obj(r)) && RoomPart(Base(r))
  {
  }

  class RoomManager {
    const scene: Scene
    const world: World
    /** The shared key state, handed to every room it enters. */
    const input: Input
    var rooms: map<int, RoomRef>
    var currentRoom: Option<RoomRef>
    var player: CharacterModel?
    var ambientLight: SceneNode?
    /** The room objects and bases registered so far, which the manager's methods may change. */
    ghost var Repr: set<object>
    /** Every room registered so far, which includes the registered rooms and the current one. */
    ghost var refs: set<RoomRef>

    /** The player, when there is one. */
    function PlayerSet(): set<CharacterModel>
      reads this
    {
      if player != null then {player} else {}
    }

    /** A room works on this manager's scene and world and keeps its own invariant. */
    predicate Belongs(r: RoomRef)
      reads Obj(r)
    {
      Base(r).scene == scene && Base(r).world == world && RoomValid(r)
    }

    /** Every known room belongs here, and no two known rooms share a base. */
    ghost predicate Valid()
      reads this, Repr
    {
      (forall o :: o in Repr ==> RoomPart(o)) &&
      (forall id :: id in rooms ==> rooms[id] in refs) &&
      (currentRoom.Some? ==> currentRoom.value in refs) &&
      (forall r :: r in refs ==> Obj(r) in Repr && Base(r) in Repr) &&
      (forall r {:trigger Belongs(r)} :: r in refs ==> Belongs(r)) &&
      (forall r1, r2 :: r1 in refs && r2 in refs && Base(r1) == Base(r2) ==> r1 == r2)
    }

    constructor(scene: Scene, world: World, input: Input, player: CharacterModel?)
      ensures this.scene == scene && this.world == world && this.input == input && this.player == player
      ensures rooms == map[] && currentRoom == None && ambientLight == null && Repr == {} && refs == {} && Valid()
    {
      Repr := {};
      refs := {};
      this.scene := scene;
      this.world := world;
      this.input := input;
      this.player := player;
      rooms := map[];
      currentRoom := None;
      ambientLight := null;
    }

    method SetPlayer(player: CharacterModel)
      modifies this`player
      ensures this.player == player
    {
      this.player := player;
    }

    method SetAmbientLight(light: SceneNode)
      modifies this`ambientLight
      ensures ambientLight == light
    {
      ambientLight := light;
    }

    /** The `switch` of `createRooms`: the class registered for the id, on this manager's scene and world. */
    method CreateRoom(config: RoomConfig) returns (r: RoomRef)
      ensures BuiltFor(r, config.id) && fresh(Obj(r)) && fresh(Base(r)) && Belongs(r)
      ensures Base(r).id == config.id && Base(r).size == config.size && Base(r).position == config.position
      ensures Base(r).connections == config.connections && Base(r).doors == DoorTable(config.id)
      ensures Base(r).mesh == null && Base(r).physicsBodies == [] && Base(r).decorativeObjects == []
      ensures Base(r).input == null
    {
      if config.id == 1 {
        var x := new TrapRoom.Room1(config, scene, world);
        r := Trap(x);
      } else if config.id == 2 {
        var x := new PetalRoom.Room2(config, scene, world);
        r := Petal(x);
      } else if config.id == 4 {
        var x := new RoseRoom.Room4(config, scene, world);
        r := Rose(x);
      } else if config.id == 5 {
        var x := new SkeletonRoom.Room5(config, scene, world);
        r := Skeleton(x);
      } else if config.id == 7 {
        var x := new FlowerRoom.Room7(config, scene, world);
        r := Flower(x);
      } else if config.id == 8 {
        var x := new ChaseRoom.Room8(config, scene, world);
        r := Chase(x);
      } else if config.id == 9 {
        var x := new WarningRoom.Room9(config, scene, world);
        r := Warning(x);
      } else {
        var b := new RoomBase(config, None, scene, world);
        r := Plain(b);
      }
    }

    /**
     * Leaving the current room: its walls leave the world, then its own
     * `removeFromScene` runs.
     */
    method Leave(r: RoomRef)
      requires Valid() && currentRoom == Some(r)
      modifies Obj(r), Base(r), scene, world
      ensures rooms == old(rooms) && currentRoom == old(currentRoom) && Valid()
      ensures Base(r).physicsBodies == [] && Base(r).decorativeObjects == []
      ensures Base(r).mesh == old(Base(r).mesh) && Base(r).input == old(Base(r).input)
      ensures Base(r).mesh != null ==> Base(r).mesh !in scene.nodes
      ensures forall b :: b in old(Base(r).physicsBodies) ==> b !in world.bodies
      ensures world.bodies !! old(BodiesOf(Base(r).decorativeObjects))
    {
      assert r in refs && Belongs(r);
      ObjApartFromOthers(r, this, scene, world, player);
      ClearRoom(r);
      forall r' | r' in refs && r' != r
        ensures Belongs(r')
      {
        ObjDetermines(r', r);
        assert old(Belongs(r'));
      }
    }

    /** The room half of entering: its cube and walls are built, it is decorated and given the input. */
    method Build(r: RoomRef, texturesOk: bool, now: real)
      requires Valid() && currentRoom == Some(r)
      modifies Obj(r), Base(r), scene, world
      ensures rooms == old(rooms) && currentRoom == old(currentRoom) && Valid()
      ensures Base(r).input == input && WallsUp(Base(r))
      ensures Base(r).mesh != null && Base(r).mesh in scene.nodes && Base(r).mesh.position == Base(r).position
      ensures old(scene.nodes) <= scene.nodes
      ensures forall b :: b in world.bodies && b !in old(world.bodies) ==> fresh(b)
    {
      assert r in refs && Belongs(r);
      ObjApartFromOthers(r, this, scene, world, player);
      BuildRoom(r, input, texturesOk, now);
      forall r' | r' in refs && r' != r
        ensures Belongs(r')
      {
        ObjDetermines(r', r);
        assert old(Belongs(r'));
      }
    }

    /**
     * Entering a registered room: its cube and walls are built, it is
     * decorated and given the input; the player's mesh and the ambient light
     * join the scene if missing, and the player learns the room id. A player
     * whose mesh is missing stops the switch with an error.
     */
    method Enter(r: RoomRef, roomId: int, texturesOk: bool, now: real) returns (threw: bool)
      requires Valid() && currentRoom == Some(r)
      modifies Obj(r), Base(r), scene, world, PlayerSet()`currentRoomId
      ensures rooms == old(rooms) && currentRoom == old(currentRoom) && Valid()
      ensures Base(r).input == input && WallsUp(Base(r))
      ensures Base(r).mesh != null && Base(r).mesh in scene.nodes && Base(r).mesh.position == Base(r).position
      ensures threw <==> player != null && player.mesh == null
      ensures forall b :: b in world.bodies && b !in old(world.bodies) ==> fresh(b)
      ensures player != null && !threw ==> player.mesh in scene.nodes && player.currentRoomId == Some(roomId)
      ensures player != null && threw ==> player.currentRoomId == old(player.currentRoomId)
      ensures !threw && ambientLight != null ==> ambientLight in scene.nodes
    {
      Build(r, texturesOk, now);
      forall r' | r' in refs
        ensures Obj(r') != scene && Obj(r') != player
      {
        ObjApartFromOthers(r', this, scene, world, player);
      }
      assert scene !in Repr && player !in Repr;
      threw := PlacePlayer(roomId);
    }

    /**
     * The player half of entering: the player's mesh and the ambient light
     * join the scene if missing, and the player learns the room id; a
     * player whose mesh is missing stops it with an error.
     */
    method PlacePlayer(roomId: int) returns (threw: bool)
      modifies scene, PlayerSet()`currentRoomId
      ensures old(scene.nodes) <= scene.nodes
      ensures threw <==> player != null && player.mesh == null
      ensures player != null && !threw ==> player.mesh in scene.nodes && player.currentRoomId == Some(roomId)
      ensures player != null && threw ==> player.currentRoomId == old(player.currentRoomId)
      ensures !threw && ambientLight != null ==> ambientLight in scene.nodes
    {
      threw := false;
      if player != null {
        if player.mesh == null {
          threw := true;
          return;
        }
        if player.mesh !in scene.nodes {
          scene.Add(player.mesh);
        }
      }
      if ambientLight != null && ambientLight !in scene.nodes {
        scene.Add(ambientLight);
      }
      if player != null {
        player.SetCurrentRoomId(roomId);
      }
    }

    /**
     * The first half of `setCurrentRoom`: the previous room, if any, takes
     * its walls, cube and decorations out of the scene and the world, and
     * the requested room becomes current even when it is missing.
     */
    method SwitchTo(roomId: int)
      requires Valid()
      modifies this`currentRoom, Repr, scene, world
      ensures rooms == old(rooms) && Valid()
      ensures currentRoom == Lookup(rooms, roomId)
      ensures old(currentRoom).Some? ==>
        var b := Base(old(currentRoom).value);
        b.physicsBodies == [] && b.decorativeObjects == [] &&
        (b.mesh != null ==> b.mesh !in scene.nodes) &&
        (forall w :: w in old(b.physicsBodies) ==> w !in world.bodies) &&
        world.bodies !! old(BodiesOf(b.decorativeObjects))
    {
      if currentRoom.Some? {
        ObjApartFromOthers(currentRoom.value, this, scene, world, player);
        Leave(currentRoom.value);
      }
      currentRoom := Lookup(rooms, roomId);
    }

    /**
     * `setCurrentRoom`: the previous room is left (`SwitchTo`); a missing
     * room stops there; otherwise the new room is built, the player is put
     * in it and told its id. The old room's walls and decoration bodies stay
     * out of the world, since every body added on the way in is new.
     */
    method SetCurrentRoom(roomId: int, texturesOk: bool, now: real) returns (threw: bool)
      requires Valid()
      modifies this`currentRoom, Repr, scene, world, PlayerSet()`currentRoomId
      ensures rooms == old(rooms) && Valid()
      ensures currentRoom == Lookup(rooms, roomId)
      ensures old(currentRoom).Some? ==>
        forall b :: b in old(Base(currentRoom.value).physicsBodies) ==> b !in world.bodies
      ensures old(currentRoom).Some? ==>
        world.bodies !! old(BodiesOf(Base(currentRoom.value).decorativeObjects))
      ensures currentRoom.Some? ==>
        var b := Base(currentRoom.value);
        b.input == input && WallsUp(b) && b.mesh != null && b.mesh in scene.nodes
      ensures threw <==> currentRoom.Some? && player != null && player.mesh == null
      ensures player != null && currentRoom.Some? && !threw ==>
        player.mesh in scene.nodes && player.currentRoomId == Some(roomId)
      ensures player != null && (currentRoom.None? || threw) ==> player.currentRoomId == old(player.currentRoomId)
    {
      threw := false;
      SwitchTo(roomId);
      if currentRoom.Some? {
        ObjApartFromOthers(currentRoom.value, this, scene, world, player);
        threw := Enter(currentRoom.value, roomId, texturesOk, now);
      }
    }

    /** The pumpkins of the current room: none without a current room or a `pumpkins` list. */
    function CurrentPumpkins(): (ps: seq<PumpkinNPC>)
      requires Valid()
      reads this, Repr
    {
      if currentRoom.Some? && PumpkinsOf(currentRoom.value).Some? then PumpkinsOf(currentRoom.value).value else []
    }

    /**
     * `checkPumpkinInteraction`: without a current room or its `pumpkins`
     * list nothing happens; otherwise the talk sweep runs over that list.
     */
    method CheckPumpkinInteraction(playerPosition: Vec3)
      requires Valid()
      modifies input`keys, set p | p in CurrentPumpkins()
      ensures Valid() && rooms == old(rooms) && currentRoom == old(currentRoom)
      ensures CurrentPumpkins() == old(CurrentPumpkins())
      ensures var ps := CurrentPumpkins();
        input.keys == KeysAfter(old(input.keys), Pressed(old(input.keys), "t") && old(NearBefore(ps, playerPosition, |ps|)))
      ensures var ps := CurrentPumpkins();
        forall i :: 0 <= i < |ps| ==>
          Handled(ps[i], old(ps[i].CheckPlayerProximity(playerPosition)),
                  old(TalkReaches(Pressed(input.keys, "t"), ps, playerPosition, i)))
    {
      var ps := CurrentPumpkins();
      if currentRoom.Some? {
        assert currentRoom.value in refs && Belongs(currentRoom.value);
      }
      forall r | r in refs
        ensures Obj(r) !in (set p | p in ps) && Obj(r) != input
      {
        ObjIsNoPart(r, null, null, ps);
      }
      if currentRoom.Some? && PumpkinsOf(currentRoom.value).Some? {
        Interact(ps, playerPosition, input);
      }
    }

    /** The player's mesh, when it has one. */
    function MeshSet(p: CharacterModel): set<SceneNode>
      reads p
    {
      if p.mesh != null then {p.mesh} else {}
    }

    /** The player's body, when it has one. */
    function BodySet(p: CharacterModel): set<Body>
      reads p
    {
      if p.body != null then {p.body} else {}
    }

    /**
     * One door taken by `checkRoomTransition`: the entry position is copied
     * into the mesh and the body, then the switch to the door's room runs.
     */
    method GoThrough(player: CharacterModel, roomId: int, entry: Vec3, texturesOk: bool, now: real)
      requires Valid() && player.mesh != null && player.body != null
      modifies this`currentRoom, Repr, scene, world, PlayerSet()`currentRoomId
      modifies player.mesh`position, player.body`position
      ensures rooms == old(rooms) && Valid() && currentRoom == Lookup(rooms, roomId)
      ensures player.mesh == old(player.mesh) && player.body == old(player.body) && input.keys == old(input.keys)
      ensures player.mesh.position == entry && player.body.position == entry
    {
      forall r | r in refs
        ensures Obj(r) != player.mesh && Obj(r) != player.body && Obj(r) != player && Obj(r) != input
      {
        ObjIsNoPart(r, player.mesh, player.body, []);
        ObjApartFromOthers(r, this, scene, world, player);
      }
      player.mesh.position := entry;
      player.body.position := entry;
      var _ := SetCurrentRoom(roomId, texturesOk, now);
    }

    /**
     * One door of `checkRoomTransition`'s `forEach`, as `DoorStep` says; a
     * switch is started where the step names a room.
     */
    method TryDoor(player: CharacterModel, d: Door, pressed: bool, texturesOk: bool, now: real) returns (st: DoorOutcome)
      requires Valid() && player.mesh != null
      modifies this`currentRoom, Repr, scene, world, PlayerSet()`currentRoomId
      modifies MeshSet(player)`position, BodySet(player)`position
      ensures rooms == old(rooms) && Repr == old(Repr) && Valid()
      ensures player.mesh == old(player.mesh) && player.body == old(player.body) && input.keys == old(input.keys)
      ensures st == DoorStep(rooms, d, old(player.mesh.position), pressed, player.body != null)
      ensures player.mesh.position == st.position
      ensures st.target.None? ==>
        currentRoom == old(currentRoom) && (player.body != null ==> player.body.position == old(player.body.position))
      ensures st.target.Some? ==>
        currentRoom == Lookup(rooms, st.target.value) && player.body != null && player.body.position == st.position
    {
      st := DoorOutcome(None, player.mesh.position, false);
      if Near(player.mesh.position, d.position, DoorRadius) && pressed {
        var entry := TransitionToRoom(rooms, d.connection, OppositeEntryPoint(d.yaw));
        if entry.None? {
          st := DoorOutcome(None, player.mesh.position, true);
        } else if player.body == null {
          player.mesh.position := entry.value;
          st := DoorOutcome(None, entry.value, true);
        } else {
          GoThrough(player, d.connection, entry.value, texturesOk, now);
          st := DoorOutcome(Some(d.connection), entry.value, false);
        }
      }
    }

    /**
     * Where the door loop stands after the switches `switched`: with none,
     * the room is the one the sweep started in; otherwise it is the last
     * target's room, and the body was moved with the mesh.
     */
    ghost predicate SweptSoFar(player: CharacterModel, switched: seq<int>, room0: Option<RoomRef>)
      reads this, player, MeshSet(player), BodySet(player)
    {
      (switched == [] ==> currentRoom == room0) &&
      (switched != [] ==>
         currentRoom == Lookup(rooms, switched[|switched| - 1]) &&
         player.body != null && player.mesh != null && player.body.position == player.mesh.position)
    }

    /**
     * The door loop before door `i` of `ds`: the switches so far followed by
     * the sweep of the remaining doors from where the player now stands make
     * up the sweep from the start.
     */
    ghost predicate SweepAt(player: CharacterModel, ds: seq<Door>, i: int, switched: seq<int>, start: Vec3,
                            pressed: bool, room0: Option<RoomRef>)
      reads this, player, MeshSet(player), BodySet(player)
    {
      player.mesh != null && SweepRest(rooms, ds, i, switched, player.mesh.position, start, pressed, player.body != null) &&
      SweptSoFar(player, switched, room0)
    }

    /** One turn of the door loop: door `i` is tried and a switch through it is recorded. */
    method SweepStep(player: CharacterModel, ds: seq<Door>, i: int, pressed: bool, texturesOk: bool, now: real,
                     switched: seq<int>, ghost start: Vec3, ghost room0: Option<RoomRef>)
      returns (st: DoorOutcome, switched': seq<int>)
      requires Valid() && i < |ds| && SweepAt(player, ds, i, switched, start, pressed, room0)
      modifies this`currentRoom, Repr, scene, world, PlayerSet()`currentRoomId
      modifies MeshSet(player)`position, BodySet(player)`position
      ensures rooms == old(rooms) && Repr == old(Repr) && Valid()
      ensures player.mesh == old(player.mesh) && player.body == old(player.body) && input.keys == old(input.keys)
      ensures st == DoorStep(rooms, ds[i], old(player.mesh.position), pressed, player.body != null)
      ensures switched' == switched + TargetSeq(st.target)
      ensures st.threw ==>
        player.mesh.position == st.position && SweptSoFar(player, switched, room0) &&
        SweepResult(switched, st.position, true) == Sweep(rooms, ds, start, pressed, player.body != null)
      ensures !st.threw ==> SweepAt(player, ds, i + 1, switched', start, pressed, room0)
    {
      ghost var here := player.mesh.position;
      SweepAdvances(rooms, ds, i, here, pressed, player.body != null, switched, start);
      st := TryDoor(player, ds[i], pressed, texturesOk, now);
      switched' := switched + TargetSeq(st.target);
      if st.target.Some? {
        assert switched'[|switched'| - 1] == st.target.value;
      } else {
        assert switched' == switched;
        assert switched != [] ==> player.body != null && st.position == here;
      }
    }

    /**
     * The door loop of `checkRoomTransition` over the doors `ds`: each door
     * is tried against the player's position as it is then; the loop stops
     * at the first step that throws.
     */
    method SweepDoors(player: CharacterModel, ds: seq<Door>, pressed: bool, texturesOk: bool, now: real)
      returns (s: SweepResult)
      requires Valid() && player.mesh != null
      modifies this`currentRoom, Repr, scene, world, PlayerSet()`currentRoomId
      modifies MeshSet(player)`position, BodySet(player)`position
      ensures rooms == old(rooms) && Valid() && input.keys == old(input.keys)
      ensures s == Sweep(rooms, ds, old(player.mesh.position), pressed, player.body != null)
      ensures player.mesh == old(player.mesh) && player.body == old(player.body) && player.mesh.position == s.position
      ensures SweptSoFar(player, s.targets, old(currentRoom))
    {
      ghost var start := player.mesh.position;
      var switched: seq<int> := [];
      var i := 0;
      SweepRestEnds(rooms, ds, [], start, start, pressed, player.body != null);
      while i < |ds|
        invariant rooms == old(rooms) && Repr == old(Repr) && Valid()
        invariant player.mesh == old(player.mesh) && player.body == old(player.body) && input.keys == old(input.keys)
        invariant SweepAt(player, ds, i, switched, start, pressed, old(currentRoom))
      {
        var st;
        st, switched := SweepStep(player, ds, i, pressed, texturesOk, now, switched, start, old(currentRoom));
        if st.threw {
          s := SweepResult(switched, st.position, true);
          return;
        }
        i := i + 1;
      }
      SweepRestEnds(rooms, ds, switched, player.mesh.position, start, pressed, player.body != null);
      s := SweepResult(switched, player.mesh.position, false);
    }

    /**
     * `checkRoomTransition`: nothing without a current room; an error when
     * the player has no mesh or the room no door table; otherwise the door
     * sweep over the room's doors as they were at the start, whose switches
     * run where the sweep reaches them. 'p' is never cleared.
     */
    method CheckRoomTransition(player: CharacterModel, texturesOk: bool, now: real) returns (outcome: Transition)
      requires Valid()
      modifies this`currentRoom, Repr, scene, world, PlayerSet()`currentRoomId
      modifies MeshSet(player)`position, BodySet(player)`position
      ensures rooms == old(rooms) && Valid() && input.keys == old(input.keys)
      ensures outcome.NoRoom? <==> old(currentRoom).None?
      ensures outcome.Threw? <==>
        old(currentRoom).Some? && (player.mesh == null || Base(old(currentRoom).value).doors.None?)
      ensures !outcome.Swept? ==> currentRoom == old(currentRoom)
      ensures outcome.Swept? ==>
        var s := outcome.result;
        s == Sweep(rooms, Base(old(currentRoom).value).doors.value, old(player.mesh.position),
                   Pressed(input.keys, "p"), player.body != null) &&
        player.mesh.position == s.position &&
        (s.targets == [] ==> currentRoom == old(currentRoom)) &&
        (s.targets != [] ==>
           currentRoom == Lookup(rooms, s.targets[|s.targets| - 1]) &&
           player.body != null && player.body.position == s.position)
    {
      if currentRoom.None? {
        return NoRoom;
      }
      var doors := Base(currentRoom.value).GetDoors();
      if player.mesh == null || doors.None? {
        return Threw;
      }
      var s := SweepDoors(player, doors.value, Pressed(input.keys, "p"), texturesOk, now);
      return Swept(s);
    }

    /**
     * One configuration of `createRooms`'s `roomConfig.map`: the room is
     * built as its class, registered under its id, and given its cube.
     */
    method Register(c: RoomConfig, texturesOk: bool)
      requires Valid()
      modifies this`rooms, this`Repr, this`refs, scene
      ensures Valid() && currentRoom == old(currentRoom) && fresh(Repr - old(Repr))
      ensures c.id in rooms && rooms == old(rooms)[c.id := rooms[c.id]] && Registered(rooms, c)
      ensures HasCube(Base(rooms[c.id]), scene)
      ensures old(scene.nodes) <= scene.nodes
    {
      var r := CreateRoom(c);
      Base(r).CreateGeometry(texturesOk);
      Adopt(c.id, r);
    }

    /** `this.rooms[id] = room` for a room built on this manager's scene and world and not yet known. */
    method Adopt(id: int, r: RoomRef)
      requires Valid() && Belongs(r) && Obj(r) !in Repr && Base(r) !in Repr
      modifies this`rooms, this`Repr, this`refs
      ensures Valid() && rooms == old(rooms)[id := r]
      ensures Repr == old(Repr) + {Obj(r), Base(r)} && refs == old(refs) + {r}
    {
      rooms := rooms[id := r];
      Repr := Repr + {Obj(r), Base(r)};
      refs := refs + {r};
      ObjIsRoomPart(r);
      forall r' | r' in refs && r' != r
        ensures Belongs(r') && Obj(r') in old(Repr) && Base(r') in old(Repr) && Base(r') != Base(r)
      {
        assert old(Belongs(r'));
      }
    }

    /** Registering configuration `i` extends a registration of the first `i` configurations to the first `i + 1`. */
    method RegisterNext(configs: seq<RoomConfig>, i: int, texturesOk: bool)
      requires Valid() && 0 <= i < |configs|
      requires forall id :: id in LastConfigs(configs[..i]) ==>
        Registered(rooms, LastConfigs(configs[..i])[id]) && HasCube(Base(rooms[id]), scene)
      modifies this`rooms, this`Repr, this`refs, scene
      ensures Valid() && currentRoom == old(currentRoom) && fresh(Repr - old(Repr))
      ensures configs[i].id in rooms && rooms == old(rooms)[configs[i].id := rooms[configs[i].id]]
      ensures forall id :: id in LastConfigs(configs[..i + 1]) ==>
        Registered(rooms, LastConfigs(configs[..i + 1])[id]) && HasCube(Base(rooms[id]), scene)
    {
      var c := configs[i];
      LastConfigsSnoc(configs, i);
      ghost var before := rooms;
      ghost var done := LastConfigs(configs[..i]);
      Register(c, texturesOk);
      RegistryStep(before, rooms, done, c, LastConfigs(configs[..i + 1]));
      forall id | id in LastConfigs(configs[..i + 1])
        ensures HasCube(Base(rooms[id]), scene)
      {
        if id != c.id {
          assert rooms[id] == before[id];
        }
      }
    }

    /**
     * The `roomConfig.map` of `createRooms`: every configuration in turn is
     * built as its class, registered under its id, and given its cube; a
     * later configuration with the same id replaces the earlier room. The
     * cubes stay in the scene.
     */
    method RegisterAll(configs: seq<RoomConfig>, texturesOk: bool)
      requires Valid()
      modifies this`rooms, this`Repr, this`refs, scene
      ensures Valid() && currentRoom == old(currentRoom) && fresh(Repr - old(Repr))
      ensures forall id :: id in rooms <==> id in old(rooms) || id in LastConfigs(configs)
      ensures forall id :: id in LastConfigs(configs) ==>
        Registered(rooms, LastConfigs(configs)[id]) && HasCube(Base(rooms[id]), scene)
    {
      var i := 0;
      while i < |configs|
        invariant 0 <= i <= |configs|
        invariant Valid() && currentRoom == old(currentRoom)
        invariant forall o :: o in Repr && o !in old(Repr) ==> fresh(o)
        invariant forall id :: id in old(rooms) ==> id in rooms
        invariant forall id :: id in rooms ==> id in old(rooms) || id in LastConfigs(configs[..i])
        invariant forall id :: id in LastConfigs(configs[..i]) ==>
          Registered(rooms, LastConfigs(configs[..i])[id]) && HasCube(Base(rooms[id]), scene)
      {
        LastConfigsSnoc(configs, i);
        RegisterNext(configs, i, texturesOk);
        i := i + 1;
      }
      assert configs[..i] == configs;
    }

    /**
     * `createRooms`: the seven rooms are registered and given their cubes;
     * then room 4 becomes current and is entered.
     */
    method CreateRooms(texturesOk: bool, now: real) returns (threw: bool)
      requires Valid()
      modifies this`rooms, this`currentRoom, this`Repr, this`refs, Repr, scene, world, PlayerSet()`currentRoomId
      ensures Valid()
      ensures rooms.Keys == old(rooms).Keys + ConfigIds()
      ensures forall k :: 0 <= k < |RoomConfigs| ==> Registered(rooms, RoomConfigs[k])
      ensures currentRoom == Some(rooms[FirstRoom])
      ensures threw <==> player != null && player.mesh == null
    {
      RegisterAll(RoomConfigs, texturesOk);
      threw := SetCurrentRoom(FirstRoom, texturesOk, now);
      TableRegistered(old(rooms), rooms);
      ConfigIdsAreTheRoomClasses();
    }
  }
}
