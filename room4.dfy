/**
 * `Room4`: the hub with the black rose. With all three petals collected,
 * standing at the rose and pressing 'e' completes the game, once. The
 * guardian pumpkin talks through the shared interaction. Lights other than
 * the textured light cone, and sound, are left out.
 */
module RoseRoom {
  import opened Wrappers
  import opened Vectors
  import opened SceneGraph
  import opened InputController
  import opened Doors
  import opened Rooms
  import opened Npc
  import opened PumpkinTalk
  import opened Character

  const Room4Doors: seq<Door> := [
    Door(Vec3(1.5, -0.17, 0.0), HalfPi, 7),
    Door(Vec3(-1.5, -0.17, 0.0), NegHalfPi, 5),
    Door(Vec3(0.0, -0.17, 1.5), Zero, 2),
    Door(Vec3(0.0, -0.17, -1.5), Pi, 9)
  ]

  const Room4Dialogues: seq<string> := [
    "Welcome to Room 4! I'm the guardian pumpkin.",
    "Did you know that the rose in this room is special?",
    "It would be nice if you could help us pumpkins rescue all its petals.",
    "When you have all the petals, bring them to the rose.",
    "Explore other rooms, but beware, some pumpkins are rotten by the radiations."
  ]

  const PedestalPosition: Vec3 := Vec3(0.0, -0.5, 0.0)
  const RosePosition: Vec3 := Vec3(0.0, -0.35, 0.0)
  /** The rose's collider: a 0.2 × 0.5 × 0.2 box. */
  const RoseBodyHalfExtents: Vec3 := Vec3(0.1, 0.25, 0.1)
  const RoseBodyPosition: Vec3 := Vec3(0.0, -0.27, 0.0)
  const LightConePosition: Vec3 := Vec3(0.0, 0.15, 0.0)
  const PumpkinPosition: Vec3 := Vec3(0.8, -0.45, 0.935)
  /** The distance under which the rose can be used. */
  const RoseRadius: real := 0.5

  /** The completion test of `update`, before the key is read. */
  predicate CanComplete(rose: SceneNode?, gameCompleted: bool, playerPosition: Vec3, hasAllPetals: bool)
    reads rose
  {
    rose != null && !gameCompleted && Near(rose.position, playerPosition, RoseRadius) && hasAllPetals
  }

  class Room4 {
    const base: RoomBase
    var pumpkins: seq<PumpkinNPC>
    var rose: SceneNode?
    var pedestal: SceneNode?
    var doorObjects: seq<SceneNode>
    var gameCompleted: bool
    /** How many times the completion screen has been requested. */
    var completions: nat

    predicate Valid()
      reads this
    {
      Distinct(pumpkins) && LivesIn(pumpkins, base.scene, base.world)
    }

    constructor(config: RoomConfig, scene: Scene, world: World)
      ensures fresh(base) && base.scene == scene && base.world == world
      ensures base.id == config.id && base.size == config.size && base.position == config.position
      ensures base.connections == config.connections && base.doors == Some(Room4Doors)
      ensures base.mesh == null && base.physicsBodies == [] && base.decorativeObjects == [] && base.input == null
      ensures !base.texturesLoaded
      ensures pumpkins == [] && rose == null && pedestal == null && doorObjects == []
      ensures !gameCompleted && completions == 0 && Valid()
    {
      base := new RoomBase(config, Some(Room4Doors), scene, world);
      pumpkins := [];
      rose := null;
      pedestal := null;
      doorObjects := [];
      gameCompleted := false;
      completions := 0;
    }

    /**
     * The synchronous part of `decorate`: the rose's collider, the light
     * cone, and a new guardian pumpkin in the pumpkin list and the decorations.
     */
    method Decorate() returns (roseBody: Body, lightCone: SceneNode, pumpkin: PumpkinNPC)
      requires Valid()
      modifies this`pumpkins, base`decorativeObjects, base.scene, base.world
      ensures Valid()
      ensures fresh(roseBody) && roseBody.mass == 0.0
      ensures roseBody.halfExtents == RoseBodyHalfExtents && roseBody.position == RoseBodyPosition
      ensures fresh(lightCone) && lightCone.position == LightConePosition
      ensures fresh(pumpkin) && fresh(pumpkin.group) && fresh(pumpkin.body)
      ensures pumpkin.group.position == PumpkinPosition && pumpkin.dialogues == Room4Dialogues
      ensures !pumpkin.isDialogueActive && !pumpkin.isTalking
      ensures pumpkins == old(pumpkins) + [pumpkin]
      ensures base.decorativeObjects ==
        old(base.decorativeObjects) + [Collider(roseBody), Node(lightCone), Unattached]
      ensures base.scene.nodes == old(base.scene.nodes) + {lightCone, pumpkin.group}
      ensures base.world.bodies == old(base.world.bodies) + {roseBody, pumpkin.body}
    {
      roseBody := base.AddStaticBox(RoseBodyHalfExtents, RoseBodyPosition);
      lightCone := base.AddSceneObject(LightConePosition);
      pumpkin := new PumpkinNPC(base.scene, base.world, PumpkinPosition, Room4Dialogues);
      pumpkins := pumpkins + [pumpkin];
      base.AddDecorativeObject(Unattached);
    }

    method OnPedestalLoaded(n: SceneNode)
      modifies this`pedestal, n`position, base`decorativeObjects, base.scene
      ensures pedestal == n && n.position == PedestalPosition
      ensures base.decorativeObjects == old(base.decorativeObjects) + [Node(n)]
      ensures base.scene.nodes == old(base.scene.nodes) + {n}
    {
      pedestal := n;
      base.PlaceLoadedModel(n, PedestalPosition);
    }

    method OnRoseLoaded(n: SceneNode)
      modifies this`rose, n`position, base`decorativeObjects, base.scene
      ensures rose == n && n.position == RosePosition
      ensures base.decorativeObjects == old(base.decorativeObjects) + [Node(n)]
      ensures base.scene.nodes == old(base.scene.nodes) + {n}
    {
      rose := n;
      base.PlaceLoadedModel(n, RosePosition);
    }

    /** A door model's callback: placed at its door, and tracked both as a door object and as a decoration. */
    method OnDoorLoaded(n: SceneNode, door: Door)
      modifies this`doorObjects, n`position, base`decorativeObjects, base.scene
      ensures n.position == door.position && doorObjects == old(doorObjects) + [n]
      ensures base.decorativeObjects == old(base.decorativeObjects) + [Node(n)]
      ensures base.scene.nodes == old(base.scene.nodes) + {n}
    {
      n.position := door.position;
      base.scene.Add(n);
      doorObjects := doorObjects + [n];
      base.AddDecorativeObject(Node(n));
    }

    /**
     * `update`: at the rose with every petal and 'e' held the game is
     * completed, at most once; then the pumpkins handle the talk key.
     */
    method Update(playerPosition: Vec3, player: CharacterModel) returns (completed: bool)
      requires Valid() && base.input != null
      modifies this`gameCompleted, this`completions, base.input`keys, set p | p in pumpkins
      ensures completed ==
        (old(CanComplete(rose, gameCompleted, playerPosition, player.HasAllPetalsCollected())) &&
         Pressed(old(base.input.keys), "e"))
      ensures completed ==> !old(gameCompleted) && gameCompleted && completions == old(completions) + 1
      ensures completed && player.PetalsValid() ==> player.petalCount == MaxPetals
      ensures !completed ==> gameCompleted == old(gameCompleted) && completions == old(completions)
      ensures base.input.keys ==
        KeysAfter(old(base.input.keys),
                  Pressed(old(base.input.keys), "t") && old(NearBefore(pumpkins, playerPosition, |pumpkins|)))
      ensures forall i :: 0 <= i < |pumpkins| ==>
        Handled(pumpkins[i], old(pumpkins[i].CheckPlayerProximity(playerPosition)),
                old(TalkReaches(Pressed(base.input.keys, "t"), pumpkins, playerPosition, i)))
    {
      completed := CanComplete(rose, gameCompleted, playerPosition, player.HasAllPetalsCollected()) &&
        Pressed(base.input.keys, "e");
      if completed {
        gameCompleted := true;
        completions := completions + 1;
      }
      Interact(pumpkins, playerPosition, base.input);
    }

    /**
     * `removeFromScene`: the base teardown; a second pass over the (now empty)
     * decorations; the pumpkins; the door objects; then all three lists are emptied.
     */
    method RemoveFromScene()
      requires Valid()
      modifies this`pumpkins, this`doorObjects, base`decorativeObjects, base.scene, base.world
      ensures Valid() && pumpkins == [] && doorObjects == [] && base.decorativeObjects == []
      ensures base.scene.nodes ==
        old(base.scene.nodes) - MeshOf(base.mesh) - NodesOf(old(base.decorativeObjects)) -
        Groups(old(pumpkins)) - Elements(old(doorObjects))
      ensures base.world.bodies ==
        old(base.world.bodies) - BodiesOf(old(base.decorativeObjects)) - PumpkinBodies(old(pumpkins))
    {
      base.RemoveFromScene();
      base.RemoveDecorativeObjects();
      RemovePumpkins(pumpkins, base.scene, base.world);
      RemoveDoorObjects();
      pumpkins := [];
      doorObjects := [];
    }

    /** The door loop of `removeFromScene`: every door object leaves the scene. */
    method RemoveDoorObjects()
      modifies base.scene
      ensures base.scene.nodes == old(base.scene.nodes) - Elements(doorObjects)
    {
      var i := 0;
      while i < |doorObjects|
        invariant 0 <= i <= |doorObjects|
        invariant base.scene.nodes == old(base.scene.nodes) - Elements(doorObjects[..i])
      {
        assert doorObjects[..i + 1] == doorObjects[..i] + [doorObjects[i]];
        base.scene.Remove(doorObjects[i]);
        i := i + 1;
      }
      assert doorObjects[..i] == doorObjects;
    }
  }
}
