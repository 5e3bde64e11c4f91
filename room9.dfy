/**
 * `Room9`: the warning room. One pumpkin tells the player about the rotten
 * pumpkin next door and that flowers calm it; the talk interaction runs
 * every frame. The beat sway, the lights, the dialogue overlay and the
 * sound are left out.
 */
module WarningRoom {
  import opened Wrappers
  import opened Vectors
  import opened SceneGraph
  import opened InputController
  import opened Doors
  import opened Rooms
  import opened Npc
  import opened PumpkinTalk

  const Room9Doors: seq<Door> := [
    Door(Vec3(-1.5, -0.17, 0.0), HalfPi, 4),
    Door(Vec3(0.0, -0.17, 1.5), Pi, 8)
  ]

  const Room9Dialogues: seq<string> := [
    "Beware next door! There is a rotten pumpkin",
    "If you find the yellow flowers, you can go beyond, but be careful",
    "rotten pumpkins are dangerous",
    "they can calm down only with flowers",
    "We all pumpkins like flowers, but they...",
    "... they are obsessed with them"
  ]

  /** The collider of the pumpkin pile: a 0.4 box. */
  const PileHalfExtents: Vec3 := Vec3(0.2, 0.2, 0.2)
  const PilePosition: Vec3 := Vec3(0.0, -0.5, 0.0)
  const PumpkinPosition: Vec3 := Vec3(-0.99, -0.45, 0.5)

  class Room9 {
    const base: RoomBase
    var pumpkins: seq<PumpkinNPC>
    var pumpkin: PumpkinNPC?

    /** The pumpkins are distinct and live in the room's scene and world. */
    predicate Valid()
      reads this
    {
      Distinct(pumpkins) && LivesIn(pumpkins, base.scene, base.world)
    }

    constructor(config: RoomConfig, scene: Scene, world: World)
      ensures fresh(base) && base.scene == scene && base.world == world
      ensures base.id == config.id && base.size == config.size && base.position == config.position
      ensures base.connections == config.connections && base.doors == Some(Room9Doors)
      ensures base.mesh == null && base.physicsBodies == [] && base.decorativeObjects == [] && base.input == null
      ensures !base.texturesLoaded
      ensures pumpkins == [] && pumpkin == null && Valid()
    {
      base := new RoomBase(config, Some(Room9Doors), scene, world);
      pumpkins := [];
      pumpkin := null;
    }

    /**
     * The synchronous part of `decorate`: the collider of the pumpkin pile,
     * then a new pumpkin that joins the pumpkin list and the decorations.
     * The models arrive later through their load callbacks.
     */
    method Decorate() returns (pileBody: Body)
      requires Valid()
      modifies this`pumpkins, this`pumpkin, base`decorativeObjects, base.scene, base.world
      ensures Valid()
      ensures fresh(pileBody) && pileBody.mass == 0.0
      ensures pileBody.halfExtents == PileHalfExtents && pileBody.position == PilePosition
      ensures pumpkin != null && fresh(pumpkin) && fresh(pumpkin.group) && fresh(pumpkin.body)
      ensures pumpkin.group.position == PumpkinPosition && pumpkin.dialogues == Room9Dialogues
      ensures !pumpkin.isDialogueActive && !pumpkin.isTalking
      ensures pumpkins == old(pumpkins) + [pumpkin]
      ensures base.decorativeObjects == old(base.decorativeObjects) + [Collider(pileBody), Unattached]
      ensures base.scene.nodes == old(base.scene.nodes) + {pumpkin.group}
      ensures base.world.bodies == old(base.world.bodies) + {pileBody, pumpkin.body}
    {
      pileBody := base.AddStaticBox(PileHalfExtents, PilePosition);
      var p := new PumpkinNPC(base.scene, base.world, PumpkinPosition, Room9Dialogues);
      pumpkin := p;
      pumpkins := pumpkins + [p];
      base.AddDecorativeObject(Unattached);
    }

    /** `update`: the pumpkins handle the talk key, as in every talking room. */
    method Update(playerPosition: Vec3)
      requires Valid() && base.input != null
      modifies base.input`keys, set p | p in pumpkins
      ensures base.input.keys ==
        KeysAfter(old(base.input.keys),
                  Pressed(old(base.input.keys), "t") && old(NearBefore(pumpkins, playerPosition, |pumpkins|)))
      ensures forall i :: 0 <= i < |pumpkins| ==>
        Handled(pumpkins[i], old(pumpkins[i].CheckPlayerProximity(playerPosition)),
                old(TalkReaches(Pressed(base.input.keys, "t"), pumpkins, playerPosition, i)))
    {
      Interact(pumpkins, playerPosition, base.input);
    }

    /** `removeFromScene`: the base teardown, then every pumpkin leaves and the list is emptied. */
    method RemoveFromScene()
      requires Valid()
      modifies this`pumpkins, base`decorativeObjects, base.scene, base.world
      ensures Valid() && pumpkins == [] && base.decorativeObjects == []
      ensures base.scene.nodes ==
        old(base.scene.nodes) - MeshOf(base.mesh) - NodesOf(old(base.decorativeObjects)) - Groups(old(pumpkins))
      ensures base.world.bodies ==
        old(base.world.bodies) - BodiesOf(old(base.decorativeObjects)) - PumpkinBodies(old(pumpkins))
    {
      base.RemoveFromScene();
      RemovePumpkins(pumpkins, base.scene, base.world);
      pumpkins := [];
    }
  }
}
