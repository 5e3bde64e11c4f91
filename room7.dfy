/**
 * `Room7`: a narcissus in a vase and a pumpkin with one line. Walking up to
 * the flower and pressing 'e' takes it, and the player then carries it into
 * room 8. This room never runs the talk interaction, so its pumpkin stays
 * silent. The beat sway of the pumpkins and the sound are left out.
 */
module FlowerRoom {
  import opened Wrappers
  import opened Vectors
  import opened SceneGraph
  import opened InputController
  import opened Doors
  import opened Rooms
  import opened Npc
  import opened PumpkinTalk
  import opened Character

  const Room7Doors: seq<Door> := [
    Door(Vec3(-1.5, -0.17, 0.0), NegHalfPi, 8),
    Door(Vec3(0.0, -0.17, 1.5), Zero, 4)
  ]

  const Room7Dialogues: seq<string> := ["test"]

  const PumpkinPosition: Vec3 := Vec3(-0.99, -0.45, 0.5)
  const FlowerPosition: Vec3 := Vec3(0.5, -0.42, 1.0)
  /** The distance under which the flower can be picked up. */
  const FlowerRadius: real := 0.5

  /** A flower is there and the player is within reach of it. */
  predicate FlowerWithin(flower: SceneNode?, playerPosition: Vec3)
    reads flower
  {
    flower != null && Near(flower.position, playerPosition, FlowerRadius)
  }

  class Room7 {
    const base: RoomBase
    var pumpkins: seq<PumpkinNPC>
    var pumpkin: PumpkinNPC?
    var flower: SceneNode?

    /** The pumpkins are distinct and live in the room's scene and world. */
    predicate Valid()
      reads this
    {
      Distinct(pumpkins) && LivesIn(pumpkins, base.scene, base.world)
    }

    constructor(config: RoomConfig, scene: Scene, world: World)
      ensures fresh(base) && base.scene == scene && base.world == world
      ensures base.id == config.id && base.size == config.size && base.position == config.position
      ensures base.connections == config.connections && base.doors == Some(Room7Doors)
      ensures base.mesh == null && base.physicsBodies == [] && base.decorativeObjects == [] && base.input == null
      ensures !base.texturesLoaded
      ensures pumpkins == [] && pumpkin == null && flower == null && Valid()
    {
      base := new RoomBase(config, Some(Room7Doors), scene, world);
      pumpkins := [];
      pumpkin := null;
      flower := null;
    }

    /**
     * The synchronous part of `decorate`: a new pumpkin joins the pumpkin
     * list and the decorations. The door, box, number, flower and vase
     * models arrive later through their load callbacks.
     */
    method Decorate()
      requires Valid()
      modifies this`pumpkins, this`pumpkin, base`decorativeObjects, base.scene, base.world
      ensures Valid()
      ensures pumpkin != null && fresh(pumpkin) && fresh(pumpkin.group) && fresh(pumpkin.body)
      ensures pumpkin.group.position == PumpkinPosition && pumpkin.dialogues == Room7Dialogues
      ensures !pumpkin.isDialogueActive && !pumpkin.isTalking
      ensures pumpkins == old(pumpkins) + [pumpkin]
      ensures base.decorativeObjects == old(base.decorativeObjects) + [Unattached]
      ensures base.scene.nodes == old(base.scene.nodes) + {pumpkin.group}
      ensures base.world.bodies == old(base.world.bodies) + {pumpkin.body}
    {
      var p := new PumpkinNPC(base.scene, base.world, PumpkinPosition, Room7Dialogues);
      pumpkin := p;
      pumpkins := pumpkins + [p];
      base.AddDecorativeObject(Unattached);
    }

    /** The flower's load callback: placed by the vase, attached, recorded and remembered. */
    method OnFlowerLoaded(n: SceneNode)
      modifies this`flower, n`position, base`decorativeObjects, base.scene
      ensures flower == n && n.position == FlowerPosition
      ensures base.decorativeObjects == old(base.decorativeObjects) + [Node(n)]
      ensures base.scene.nodes == old(base.scene.nodes) + {n}
    {
      base.PlaceLoadedModel(n, FlowerPosition);
      flower := n;
    }

    /** `pickupFlower`: the flower leaves the scene, is forgotten, and the player holds it. */
    method PickupFlower(player: CharacterModel)
      modifies this`flower, base.scene, player`isHoldingFlower
      ensures flower == null
      ensures old(flower) != null ==>
        base.scene.nodes == old(base.scene.nodes) - {old(flower)} && player.isHoldingFlower
      ensures old(flower) == null ==>
        base.scene.nodes == old(base.scene.nodes) && player.isHoldingFlower == old(player.isHoldingFlower)
    {
      if flower != null {
        base.scene.Remove(flower);
        flower := null;
        player.isHoldingFlower := true;
      }
    }

    /** `update`: within reach of the flower with 'e' held the flower is taken; nothing else changes. */
    method Update(playerPosition: Vec3, player: CharacterModel) returns (picked: bool)
      requires base.input != null
      modifies this`flower, base.scene, player`isHoldingFlower
      ensures picked == (old(FlowerWithin(flower, playerPosition)) && Pressed(base.input.keys, "e"))
      ensures picked ==>
        flower == null && player.isHoldingFlower &&
        base.scene.nodes == old(base.scene.nodes) - {old(flower)}
      ensures !picked ==>
        flower == old(flower) && base.scene.nodes == old(base.scene.nodes) &&
        player.isHoldingFlower == old(player.isHoldingFlower)
    {
      picked := FlowerWithin(flower, playerPosition) && Pressed(base.input.keys, "e");
      if picked {
        PickupFlower(player);
      }
    }

    /**
     * `removeFromScene`: the base teardown, every pumpkin leaves and the list
     * is emptied, and a flower still lying there is removed once more. The
     * flower is not forgotten.
     */
    method RemoveFromScene()
      requires Valid()
      modifies this`pumpkins, base`decorativeObjects, base.scene, base.world
      ensures Valid() && pumpkins == [] && base.decorativeObjects == [] && flower == old(flower)
      ensures flower != null ==> flower !in base.scene.nodes
      ensures base.scene.nodes ==
        old(base.scene.nodes) - MeshOf(base.mesh) - NodesOf(old(base.decorativeObjects))
          - Groups(old(pumpkins)) - MeshOf(flower)
      ensures base.world.bodies ==
        old(base.world.bodies) - BodiesOf(old(base.decorativeObjects)) - PumpkinBodies(old(pumpkins))
    {
      base.RemoveFromScene();
      RemovePumpkins(pumpkins, base.scene, base.world);
      pumpkins := [];
      if flower != null {
        base.scene.Remove(flower);
      }
    }
  }
}
