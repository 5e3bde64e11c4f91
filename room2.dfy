/**
 * `Room2`: the first talking pumpkin and a petal on a stand. Walking up to
 * the petal and pressing 'e' takes it; the pumpkin talks through the
 * interaction every talking room shares. Lights and sound are left out.
 */
module PetalRoom {
  import opened Wrappers
  import opened Vectors
  import opened SceneGraph
  import opened InputController
  import opened Doors
  import opened Rooms
  import opened Npc
  import opened PumpkinTalk
  import opened Character

  const Room2Doors: seq<Door> := [
    Door(Vec3(-1.5, -0.17, 0.0), NegHalfPi, 1),
    Door(Vec3(0.0, -0.17, 1.5), Zero, 4)
  ]

  const Room2Dialogues: seq<string> := [
    "Welcome to Room 2... You're not lost, are you?",
    "May you check the next room for me?",
    "... I know there are two petals in there ...",
    "I can't go there, but you can help me, right?",
    "Good luck... eheheh"
  ]

  /** The collider of the cardboard boxes: a 0.6 × 0.3 × 0.5 box. */
  const BoxesHalfExtents: Vec3 := Vec3(0.3, 0.15, 0.25)
  const BoxesPosition: Vec3 := Vec3(0.9, -0.5, 1.2)
  /** The collider of the petal stand: a 0.1 × 0.2 × 0.1 box. */
  const StandHalfExtents: Vec3 := Vec3(0.05, 0.1, 0.05)
  const StandPosition: Vec3 := Vec3(0.5, -0.5, 0.5)
  const PetalPosition: Vec3 := Vec3(0.5, -0.35, 0.5)
  const PumpkinPosition: Vec3 := Vec3(-0.99, -0.45, 0.5)
  /** The distance under which the petal can be picked up. */
  const PetalRadius: real := 0.3

  /** A petal is there and the player is within reach of it. */
  predicate PetalWithin(petal: SceneNode?, playerPosition: Vec3)
    reads petal
  {
    petal != null && Near(petal.position, playerPosition, PetalRadius)
  }

  class Room2 {
    const base: RoomBase
    var pumpkins: seq<PumpkinNPC>
    var petal: SceneNode?

    /** The pumpkins are distinct and live in the room's scene and world. */
    predicate Valid()
      reads this
    {
      Distinct(pumpkins) && LivesIn(pumpkins, base.scene, base.world)
    }

    constructor(config: RoomConfig, scene: Scene, world: World)
      ensures fresh(base) && base.scene == scene && base.world == world
      ensures base.id == config.id && base.size == config.size && base.position == config.position
      ensures base.connections == config.connections && base.doors == Some(Room2Doors)
      ensures base.mesh == null && base.physicsBodies == [] && base.decorativeObjects == [] && base.input == null
      ensures !base.texturesLoaded
      ensures pumpkins == [] && petal == null && Valid()
    {
      base := new RoomBase(config, Some(Room2Doors), scene, world);
      pumpkins := [];
      petal := null;
    }

    /**
     * The synchronous part of `decorate`: the colliders of the boxes and of
     * the stand, then a new pumpkin that joins the pumpkin list and the
     * decorations. The models arrive later through their load callbacks.
     */
    method Decorate() returns (boxesBody: Body, standBody: Body, pumpkin: PumpkinNPC)
      requires Valid()
      modifies this`pumpkins, base`decorativeObjects, base.scene, base.world
      ensures Valid()
      ensures fresh(boxesBody) && boxesBody.mass == 0.0
      ensures boxesBody.halfExtents == BoxesHalfExtents && boxesBody.position == BoxesPosition
      ensures fresh(standBody) && standBody.mass == 0.0
      ensures standBody.halfExtents == StandHalfExtents && standBody.position == StandPosition
      ensures fresh(pumpkin) && fresh(pumpkin.group) && fresh(pumpkin.body)
      ensures pumpkin.group.position == PumpkinPosition && pumpkin.dialogues == Room2Dialogues
      ensures !pumpkin.isDialogueActive && !pumpkin.isTalking
      ensures pumpkins == old(pumpkins) + [pumpkin]
      ensures base.decorativeObjects == old(base.decorativeObjects) + [Collider(boxesBody), Collider(standBody), Unattached]
      ensures base.scene.nodes == old(base.scene.nodes) + {pumpkin.group}
      ensures base.world.bodies == old(base.world.bodies) + {boxesBody, standBody, pumpkin.body}
    {
      boxesBody := base.AddStaticBox(BoxesHalfExtents, BoxesPosition);
      standBody := base.AddStaticBox(StandHalfExtents, StandPosition);
      pumpkin := new PumpkinNPC(base.scene, base.world, PumpkinPosition, Room2Dialogues);
      pumpkins := pumpkins + [pumpkin];
      base.AddDecorativeObject(Unattached);
    }

    /** The petal's load callback: placed on the stand, attached, recorded and remembered. */
    method OnPetalLoaded(n: SceneNode)
      modifies this`petal, n`position, base`decorativeObjects, base.scene
      ensures petal == n && n.position == PetalPosition
      ensures base.decorativeObjects == old(base.decorativeObjects) + [Node(n)]
      ensures base.scene.nodes == old(base.scene.nodes) + {n}
    {
      petal := n;
      base.PlaceLoadedModel(n, PetalPosition);
    }

    /** `pickupPetal`: the petal leaves the scene, is forgotten, and the player gains a petal. */
    method PickupPetal(player: CharacterModel)
      requires player.PetalsValid()
      modifies this`petal, base.scene, player`petalCount, player`hasAllPetals
      ensures player.PetalsValid() && petal == null
      ensures old(petal) != null ==>
        base.scene.nodes == old(base.scene.nodes) - {old(petal)} &&
        player.petalCount == PetalsAfterAdd(old(player.petalCount))
      ensures old(petal) == null ==>
        base.scene.nodes == old(base.scene.nodes) && player.petalCount == old(player.petalCount) &&
        player.hasAllPetals == old(player.hasAllPetals)
    {
      if petal != null {
        base.scene.Remove(petal);
        petal := null;
        player.AddPetal();
      }
    }

    /**
     * `update`: within reach of the petal with 'e' held the petal is taken;
     * then the pumpkins handle the talk key.
     */
    method Update(playerPosition: Vec3, player: CharacterModel) returns (picked: bool)
      requires Valid() && base.input != null && player.PetalsValid()
      modifies this`petal, base.scene, player`petalCount, player`hasAllPetals
      modifies base.input`keys, set p | p in pumpkins
      ensures Valid() && player.PetalsValid()
      ensures picked == (old(PetalWithin(petal, playerPosition)) && Pressed(old(base.input.keys), "e"))
      ensures picked ==>
        petal == null && base.scene.nodes == old(base.scene.nodes) - {old(petal)} &&
        player.petalCount == PetalsAfterAdd(old(player.petalCount))
      ensures !picked ==>
        petal == old(petal) && base.scene.nodes == old(base.scene.nodes) &&
        player.petalCount == old(player.petalCount) && player.hasAllPetals == old(player.hasAllPetals)
      ensures base.input.keys ==
        KeysAfter(old(base.input.keys),
                  Pressed(old(base.input.keys), "t") && old(NearBefore(pumpkins, playerPosition, |pumpkins|)))
      ensures forall i :: 0 <= i < |pumpkins| ==>
        Handled(pumpkins[i], old(pumpkins[i].CheckPlayerProximity(playerPosition)),
                old(TalkReaches(Pressed(base.input.keys, "t"), pumpkins, playerPosition, i)))
    {
      picked := PetalWithin(petal, playerPosition) && Pressed(base.input.keys, "e");
      if picked {
        PickupPetal(player);
      }
      Interact(pumpkins, playerPosition, base.input);
    }

    /** `removeFromScene`: the base teardown, then every pumpkin leaves and the list is emptied. */
    method RemoveFromScene()
      requires Valid()
      modifies this`pumpkins, base`decorativeObjects, base.scene, base.world
      ensures Valid() && pumpkins == [] && base.decorativeObjects == []
      ensures base.scene.nodes ==
        old(base.scene.nodes) - MeshOf(base.mesh) - NodesOf(old(base.decorativeObjects)) - Groups(old(pumpkins))
      ensures base.world.bodies ==
        old(base.world.bodies) - BodiesOf(old(base.decorativeObjects)) - PumpkinBodies(old(pumpkins))
    {
      base.RemoveFromScene();
      RemovePumpkins(pumpkins, base.scene, base.world);
      pumpkins := [];
    }
  }
}
