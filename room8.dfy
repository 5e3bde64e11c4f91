/**
 * `Room8`: the rotten pumpkin's room. The pumpkin chases the player and ends
 * the game when it catches them, unless a flower lies on the floor: then it
 * heads for the flower and catches nobody. A player carrying the flower from
 * room 7 drops it with 'f'; the petal on the stand is taken with 'e'. The
 * normalisation and the turn of the chase are inputs; lights, sound and the on-screen
 * messages are left out.
 */
module ChaseRoom {
  import opened Wrappers
  import opened Vectors
  import opened SceneGraph
  import opened InputController
  import opened Doors
  import opened Rooms
  import opened Character
  import opened RottenPumpkins

  const Room8Doors: seq<Door> := [
    Door(Vec3(-1.5, -0.17, 0.0), HalfPi, 7),
    Door(Vec3(0.0, -0.17, 1.5), Zero, 9)
  ]

  /** The collider of the petal stand: a 0.1 × 0.2 × 0.1 box. */
  const StandHalfExtents: Vec3 := Vec3(0.05, 0.1, 0.05)
  const StandPosition: Vec3 := Vec3(0.5, -0.5, 0.5)
  const PetalPosition: Vec3 := Vec3(0.5, -0.35, 0.5)
  /** The distance under which the petal can be picked up. */
  const PetalRadius: real := 0.3

  /** A petal is there and the player is within reach of it. */
  predicate PetalWithin(petal: SceneNode?, playerPosition: Vec3)
    reads petal
  {
    petal != null && Near(petal.position, playerPosition, PetalRadius)
  }

  /** The flower position `update` hands to the chaser: none while no flower lies on the floor. */
  function FlowerAt(flower: SceneNode?): (r: Option<Vec3>)
    reads flower
    ensures r.Some? <==> flower != null
    ensures flower != null ==> r.value == flower.position
  {
    if flower == null then None else Some(flower.position)
  }

  /** The scene objects a possibly missing chaser stands for. */
  function HeadOf(chaser: RottenPumpkin?): (s: set<SceneNode>)
    ensures chaser == null <==> s == {}
    ensures chaser != null ==> s == {chaser.head}
  {
    if chaser == null then {} else {chaser.head}
  }

  /** The bodies a possibly missing chaser stands for. */
  function ChaserBodyOf(chaser: RottenPumpkin?): (s: set<Body>)
    ensures chaser == null <==> s == {}
    ensures chaser != null ==> s == {chaser.body}
  {
    if chaser == null then {} else {chaser.body}
  }

  /**
   * The chaser's parts after one step from `head0` toward `target`: the
   * head at the step's end, facing along the normalised offset, with the
   * body on it.
   */
  predicate Chased(p: RottenPumpkin, head0: Vec3, target: Vec3,
                   normalize: Vec3 -> Vec3, heading: Vec3 -> Quat, deltaTime: real)
    reads p, p.head, p.body
  {
    p.head.position == StepToward(head0, target, normalize, p.speed * deltaTime) &&
    p.head.quaternion == heading(normalize(Sub(target, head0))) &&
    p.body.position == p.head.position
  }

  class Room8 {
    const base: RoomBase
    var rottenPumpkin: RottenPumpkin?
    var flower: SceneNode?
    var pendingFlowerDrop: bool
    var lastPlayerPosition: Option<Vec3>
    var petal: SceneNode?
    /** How many times `triggerGameOver` has shown the game-over screen. */
    var gameOvers: nat

    /** The chaser lives in the room's scene and world, and its head is not the petal. */
    predicate Valid()
      reads this
    {
      rottenPumpkin != null ==>
        rottenPumpkin.scene == base.scene && rottenPumpkin.world == base.world && rottenPumpkin.head != petal
    }

    /**
     * The room's own fields as the constructor sets them. The room also
     * keeps the shared input handle here (Room8.js:24); in this model that
     * handle arrives through `setInput`, which the manager calls on every
     * entry before the room is updated (RoomManager.js:85), so the fresh
     * room starts without one and every use reads the manager's handle.
     */
    constructor(config: RoomConfig, scene: Scene, world: World)
      ensures fresh(base) && base.scene == scene && base.world == world
      ensures base.id == config.id && base.size == config.size && base.position == config.position
      ensures base.connections == config.connections && base.doors == Some(Room8Doors)
      ensures base.mesh == null && base.physicsBodies == [] && base.decorativeObjects == [] && base.input == null
      ensures !base.texturesLoaded
      ensures rottenPumpkin == null && flower == null && petal == null
      ensures !pendingFlowerDrop && lastPlayerPosition == None && gameOvers == 0 && Valid()
    {
      base := new RoomBase(config, Some(Room8Doors), scene, world);
      rottenPumpkin := null;
      flower := null;
      pendingFlowerDrop := false;
      lastPlayerPosition := None;
      petal := null;
      gameOvers := 0;
    }

    /**
     * The synchronous part of `decorate`: the stand's collider, then the
     * chaser, which joins the decorations. The door, stand, petal and number
     * models arrive later through their load callbacks.
     */
    method Decorate() returns (standBody: Body)
      requires Valid()
      modifies this`rottenPumpkin, base`decorativeObjects, base.scene, base.world
      ensures Valid()
      ensures fresh(standBody) && standBody.mass == 0.0
      ensures standBody.halfExtents == StandHalfExtents && standBody.position == StandPosition
      ensures rottenPumpkin != null && fresh(rottenPumpkin) && fresh(rottenPumpkin.head) && fresh(rottenPumpkin.body)
      ensures rottenPumpkin.speed == DefaultSpeed && rottenPumpkin.target.None?
      ensures rottenPumpkin.head.position == HeadStart
      ensures base.decorativeObjects == old(base.decorativeObjects) + [Collider(standBody), Unattached]
      ensures base.scene.nodes == old(base.scene.nodes) + {rottenPumpkin.head}
      ensures base.world.bodies == old(base.world.bodies) + {standBody, rottenPumpkin.body}
    {
      standBody := base.AddStaticBox(StandHalfExtents, StandPosition);
      var chaser := new RottenPumpkin(base.scene, base.world, DefaultSpeed);
      rottenPumpkin := chaser;
      base.AddDecorativeObject(Unattached);
    }

    /** The petal's load callback: placed on the stand, attached, recorded and remembered. */
    method OnPetalLoaded(n: SceneNode)
      requires Valid() && (rottenPumpkin != null ==> n != rottenPumpkin.head)
      modifies this`petal, n`position, base`decorativeObjects, base.scene
      ensures Valid()
      ensures petal == n && n.position == PetalPosition
      ensures base.decorativeObjects == old(base.decorativeObjects) + [Node(n)]
      ensures base.scene.nodes == old(base.scene.nodes) + {n}
    {
      base.PlaceLoadedModel(n, PetalPosition);
      petal := n;
    }

    /**
     * The chase half of `update`: the chaser, when there is one, steps toward
     * the flower on the floor or else the player, and a catch shows the
     * game-over screen.
     */
    method Chase(deltaTime: real, playerPosition: Vec3, normalize: Vec3 -> Vec3, heading: Vec3 -> Quat)
      returns (caught: bool)
      requires Valid()
      modifies this`gameOvers
      modifies if rottenPumpkin != null then {rottenPumpkin, rottenPumpkin.head, rottenPumpkin.body} else {}
      ensures Valid()
      ensures rottenPumpkin == null ==> !caught
      ensures rottenPumpkin != null ==>
        rottenPumpkin.target == Some(Target(playerPosition, old(FlowerAt(flower)))) &&
        Chased(rottenPumpkin, old(rottenPumpkin.head.position), Target(playerPosition, old(FlowerAt(flower))),
               normalize, heading, deltaTime) &&
        (caught <==> Catches(rottenPumpkin.head.position, playerPosition, old(FlowerAt(flower))))
      ensures flower != null ==> !caught
      ensures gameOvers == old(gameOvers) + (if caught then 1 else 0)
    {
      caught := false;
      if rottenPumpkin != null {
        caught := rottenPumpkin.Update(deltaTime, playerPosition, FlowerAt(flower), normalize, heading);
        if caught {
          gameOvers := gameOvers + 1;
        }
      }
    }

    /**
     * `update`: the player's position is remembered, the chaser moves, a held
     * 'f' while carrying the flower asks for a drop at that position, and
     * within reach of the petal with 'e' held the petal is taken.
     */
    method Update(deltaTime: real, playerPosition: Vec3, player: CharacterModel,
                  normalize: Vec3 -> Vec3, heading: Vec3 -> Quat)
      returns (caught: bool, dropRequested: bool, picked: bool)
      requires Valid() && base.input != null && player.PetalsValid()
      modifies this`lastPlayerPosition, this`gameOvers, this`pendingFlowerDrop, this`petal, base.scene
      modifies player`petalCount, player`hasAllPetals
      modifies if rottenPumpkin != null then {rottenPumpkin, rottenPumpkin.head, rottenPumpkin.body} else {}
      ensures rottenPumpkin == old(rottenPumpkin) && flower == old(flower)
      ensures player.isHoldingFlower == old(player.isHoldingFlower)
      ensures Valid() && player.PetalsValid()
      ensures lastPlayerPosition == Some(playerPosition) && !pendingFlowerDrop
      ensures rottenPumpkin == null ==> !caught
      ensures rottenPumpkin != null ==>
        rottenPumpkin.target == Some(Target(playerPosition, old(FlowerAt(flower)))) &&
        Chased(rottenPumpkin, old(rottenPumpkin.head.position), Target(playerPosition, old(FlowerAt(flower))),
               normalize, heading, deltaTime) &&
        (caught <==> Catches(rottenPumpkin.head.position, playerPosition, old(FlowerAt(flower))))
      ensures flower != null ==> !caught
      ensures gameOvers == old(gameOvers) + (if caught then 1 else 0)
      ensures dropRequested <==>
        player.isHoldingFlower && (old(pendingFlowerDrop) || Pressed(base.input.keys, "f"))
      ensures picked == (old(PetalWithin(petal, playerPosition)) && Pressed(base.input.keys, "e"))
      ensures picked ==>
        petal == null && base.scene.nodes == old(base.scene.nodes) - {old(petal)} &&
        player.petalCount == PetalsAfterAdd(old(player.petalCount))
      ensures !picked ==>
        petal == old(petal) && base.scene.nodes == old(base.scene.nodes) &&
        player.petalCount == old(player.petalCount) && player.hasAllPetals == old(player.hasAllPetals)
    {
      lastPlayerPosition := Some(playerPosition);
      caught := Chase(deltaTime, playerPosition, normalize, heading);
      dropRequested := DropStep(player);
      picked := PetalStep(playerPosition, player);
    }

    /** The drop half of `update`: 'f' while carrying the flower marks a drop, and a marked drop is made once. */
    method DropStep(player: CharacterModel) returns (dropRequested: bool)
      requires base.input != null && lastPlayerPosition.Some?
      modifies this`pendingFlowerDrop
      ensures !pendingFlowerDrop
      ensures dropRequested <==>
        player.isHoldingFlower && (old(pendingFlowerDrop) || Pressed(base.input.keys, "f"))
    {
      if player.isHoldingFlower && Pressed(base.input.keys, "f") {
        pendingFlowerDrop := true;
      }
      dropRequested := false;
      if pendingFlowerDrop && lastPlayerPosition.Some? {
        dropRequested := DropFlower(lastPlayerPosition.value, player);
        pendingFlowerDrop := false;
      }
    }

    /** The petal half of `update`: within reach of the petal with 'e' held the petal is taken. */
    method PetalStep(playerPosition: Vec3, player: CharacterModel) returns (picked: bool)
      requires base.input != null && player.PetalsValid()
      modifies this`petal, base.scene, player`petalCount, player`hasAllPetals
      ensures player.PetalsValid()
      ensures picked == (old(PetalWithin(petal, playerPosition)) && Pressed(base.input.keys, "e"))
      ensures picked ==>
        petal == null && base.scene.nodes == old(base.scene.nodes) - {old(petal)} &&
        player.petalCount == PetalsAfterAdd(old(player.petalCount))
      ensures !picked ==>
        petal == old(petal) && base.scene.nodes == old(base.scene.nodes) &&
        player.petalCount == old(player.petalCount) && player.hasAllPetals == old(player.hasAllPetals)
    {
      picked := PetalWithin(petal, playerPosition) && Pressed(base.input.keys, "e");
      if picked {
        PickupPetal(player);
      }
    }

    /**
     * `dropFlower`, as the drop evidently means it: a player carrying the
     * flower asks for a flower model; the model joins the scene when it
     * arrives (`OnDroppedFlowerLoaded`). Nothing changes at once.
     */
    method DropFlower(position: Vec3, player: CharacterModel) returns (requested: bool)
      ensures requested == player.isHoldingFlower
    {
      requested := player.isHoldingFlower;
    }

    /**
     * The load callback of a drop: the new flower lies at the drop position,
     * joins the scene and the decorations, and the player no longer holds it.
     */
    method OnDroppedFlowerLoaded(n: SceneNode, position: Vec3, player: CharacterModel)
      requires Valid() && (rottenPumpkin != null ==> n != rottenPumpkin.head)
      modifies this`flower, n`position, base`decorativeObjects, base.scene, player`isHoldingFlower
      ensures Valid()
      ensures flower == n && n.position == position && !player.isHoldingFlower
      ensures base.decorativeObjects == old(base.decorativeObjects) + [Node(n)]
      ensures base.scene.nodes == old(base.scene.nodes) + {n}
    {
      flower := n;
      base.PlaceLoadedModel(n, position);
      player.isHoldingFlower := false;
    }

    /**
     * `dropFlower` as written: besides asking for the model, it adds the
     * flower the room already remembers to the scene, which on a first drop
     * is no flower at all.
     */
    method DropFlowerAsWritten(position: Vec3, player: CharacterModel) returns (requested: bool)
      modifies base.scene
      ensures requested == player.isHoldingFlower
      ensures requested ==> base.scene.nodes == old(base.scene.nodes) + MeshOf(flower)
      ensures !requested ==> base.scene.nodes == old(base.scene.nodes)
    {
      requested := player.isHoldingFlower;
      if requested && flower != null {
        base.scene.Add(flower);
      }
    }

    /** The load callback as written: the flower is placed and recorded but never added to the scene. */
    method OnDroppedFlowerLoadedAsWritten(n: SceneNode, position: Vec3, player: CharacterModel)
      modifies this`flower, n`position, base`decorativeObjects, player`isHoldingFlower
      ensures flower == n && n.position == position && !player.isHoldingFlower
      ensures base.decorativeObjects == old(base.decorativeObjects) + [Node(n)]
    {
      flower := n;
      n.position := position;
      base.AddDecorativeObject(Node(n));
      player.isHoldingFlower := false;
    }

    /**
     * A first drop as written, request then callback: the chaser now heads
     * for a flower that is nowhere in the scene.
     */
    method FirstDropAsWritten(n: SceneNode, position: Vec3, player: CharacterModel)
      requires flower == null && player.isHoldingFlower && n !in base.scene.nodes
      modifies this`flower, n`position, base`decorativeObjects, base.scene, player`isHoldingFlower
      ensures flower == n && FlowerAt(flower) == Some(position) && !player.isHoldingFlower
      ensures Node(n) in base.decorativeObjects && n !in base.scene.nodes
    {
      var requested := DropFlowerAsWritten(position, player);
      assert requested;
      OnDroppedFlowerLoadedAsWritten(n, position, player);
      assert base.decorativeObjects[|base.decorativeObjects| - 1] == Node(n);
    }

    /** `pickupPetal`: the petal leaves the scene, is forgotten, and the player gains a petal. */
    method PickupPetal(player: CharacterModel)
      requires player.PetalsValid()
      modifies this`petal, base.scene, player`petalCount, player`hasAllPetals
      ensures player.PetalsValid() && petal == null
      ensures old(petal) != null ==>
        base.scene.nodes == old(base.scene.nodes) - {old(petal)} &&
        player.petalCount == PetalsAfterAdd(old(player.petalCount))
      ensures old(petal) == null ==>
        base.scene.nodes == old(base.scene.nodes) && player.petalCount == old(player.petalCount) &&
        player.hasAllPetals == old(player.hasAllPetals)
    {
      if petal != null {
        base.scene.Remove(petal);
        petal := null;
        player.AddPetal();
      }
    }

    /**
     * `removeFromScene`: the base teardown, then the chaser leaves the scene
     * and the world, and a dropped flower is removed from the scene.
     */
    method RemoveFromScene()
      requires Valid()
      modifies base`decorativeObjects, base.scene, base.world
      ensures base.decorativeObjects == []
      ensures base.scene.nodes ==
        old(base.scene.nodes) - MeshOf(base.mesh) - NodesOf(old(base.decorativeObjects))
          - HeadOf(rottenPumpkin) - MeshOf(flower)
      ensures base.world.bodies ==
        old(base.world.bodies) - BodiesOf(old(base.decorativeObjects)) - ChaserBodyOf(rottenPumpkin)
    {
      base.RemoveFromScene();
      if rottenPumpkin != null {
        rottenPumpkin.RemoveFromScene();
      }
      if flower != null {
        base.scene.Remove(flower);
      }
    }
  }
}
