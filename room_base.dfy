/**
 * `RoomBase`: what every room tracks. These are its cube mesh, the static
 * wall bodies of `createPhysics` and the `decorativeObjects` list of
 * everything decorating added; teardown empties the last two.
 */
module Rooms {
  import opened Wrappers
  import opened Vectors
  import opened SceneGraph
  import opened InputController
  import opened Doors

  /**
   * An entry of `decorativeObjects`: a scene object, a physics body, or
   * something that is neither (a pumpkin character), which removal skips.
   */
  datatype Decoration = Node(node: SceneNode) | Collider(body: Body) | Unattached

  /** A room's entry of the configuration table. */
  datatype RoomConfig = RoomConfig(id: int, size: RoomSize, position: Vec3, connections: seq<int>)

  /** The scene objects among the decorations. */
  function NodesOf(ds: seq<Decoration>): set<SceneNode> {
    set d | d in ds && d.Node? :: d.node
  }

  /** The bodies among the decorations. */
  function BodiesOf(ds: seq<Decoration>): set<Body> {
    set d | d in ds && d.Collider? :: d.body
  }

  function Elements<T>(s: seq<T>): set<T> {
    set x | x in s
  }

  /** One box of `createPhysics`: its half extents and its centre relative to the room. */
  datatype Surface = Surface(halfExtents: Vec3, offset: Vec3)

  const WallThickness: real := 0.2
  /** How far beyond the room's half extent each wall's centre sits. */
  const WallGap: real := 0.07

  /** The six surfaces, in order front, back, right, left, ceiling, floor. */
  function Surfaces(s: RoomSize): (r: seq<Surface>)
    ensures |r| == 6
  {
    var hw := s.width / 2.0;
    var hh := s.height / 2.0;
    var hd := s.depth / 2.0;
    var t := WallThickness / 2.0;
    [ Surface(Vec3(hw, hh, t), Vec3(0.0, 0.0, hd + WallGap)),
      Surface(Vec3(hw, hh, t), Vec3(0.0, 0.0, -hd - WallGap)),
      Surface(Vec3(t, hh, hd), Vec3(hw + WallGap, 0.0, 0.0)),
      Surface(Vec3(t, hh, hd), Vec3(-hw - WallGap, 0.0, 0.0)),
      Surface(Vec3(hw, t, hd), Vec3(0.0, hh + WallGap, 0.0)),
      Surface(Vec3(hw, t, hd), Vec3(0.0, -hh - WallGap, 0.0)) ]
  }

  /**
   * The walls come in mirrored pairs of equal boxes. Each sits on one axis,
   * at the room's half extent plus the gap, and is a slab 0.1 thick on that axis.
   */
  lemma SurfacesEncloseRoom(s: RoomSize, k: nat)
    requires k < 3
    ensures Surfaces(s)[2 * k].halfExtents == Surfaces(s)[2 * k + 1].halfExtents
    ensures Surfaces(s)[2 * k + 1].offset == Scale(Surfaces(s)[2 * k].offset, -1.0)
    ensures k == 0 ==>
      Surfaces(s)[0].offset == Vec3(0.0, 0.0, s.depth / 2.0 + WallGap) &&
      Surfaces(s)[0].halfExtents.z == WallThickness / 2.0
    ensures k == 1 ==>
      Surfaces(s)[2].offset == Vec3(s.width / 2.0 + WallGap, 0.0, 0.0) &&
      Surfaces(s)[2].halfExtents.x == WallThickness / 2.0
    ensures k == 2 ==>
      Surfaces(s)[4].offset == Vec3(0.0, s.height / 2.0 + WallGap, 0.0) &&
      Surfaces(s)[4].halfExtents.y == WallThickness / 2.0
  {
  }

  /** Body `b` is the static wall box `k` of a room at `p` of size `s`. */
  predicate WallBody(b: Body, p: Vec3, s: RoomSize, k: nat)
    requires k < 6
    reads b
  {
    b.mass == 0.0 && b.halfExtents == Surfaces(s)[k].halfExtents && b.position == Add(p, Surfaces(s)[k].offset)
  }

  class RoomBase {
    const id: int
    const size: RoomSize
    const position: Vec3
    const connections: seq<int>
    /** `doors`: set by each room; the plain base room leaves it `undefined`. */
    const doors: Option<seq<Door>>
    /** The room manager's scene and world, which every room method works on. */
    const scene: Scene
    const world: World
    var mesh: SceneNode?
    var physicsBodies: seq<Body>
    var decorativeObjects: seq<Decoration>
    var input: Input?
    var texturesLoaded: bool

    constructor(config: RoomConfig, doors: Option<seq<Door>>, scene: Scene, world: World)
      ensures id == config.id && size == config.size && position == config.position
      ensures connections == config.connections && this.doors == doors
      ensures this.scene == scene && this.world == world
      ensures mesh == null && physicsBodies == [] && decorativeObjects == [] && input == null && !texturesLoaded
    {
      id := config.id;
      size := config.size;
      position := config.position;
      connections := config.connections;
      this.doors := doors;
      this.scene := scene;
      this.world := world;
      mesh := null;
      physicsBodies := [];
      decorativeObjects := [];
      input := null;
      texturesLoaded := false;
    }

    /** `addDecorativeObject`: exactly one entry, at the end. */
    method AddDecorativeObject(d: Decoration)
      modifies this`decorativeObjects
      ensures decorativeObjects == old(decorativeObjects) + [d]
    {
      decorativeObjects := decorativeObjects + [d];
    }

    /** A scene object a room creates and tracks: a new node at `p`, attached and recorded. */
    method AddSceneObject(p: Vec3) returns (n: SceneNode)
      modifies this`decorativeObjects, scene
      ensures fresh(n) && n.position == p && n.visible
      ensures decorativeObjects == old(decorativeObjects) + [Node(n)]
      ensures scene.nodes == old(scene.nodes) + {n}
    {
      n := new SceneNode(p);
      scene.Add(n);
      AddDecorativeObject(Node(n));
    }

    /** A loaded model the room only displays: attached and recorded. */
    method AddLoadedModel(n: SceneNode)
      modifies this`decorativeObjects, scene
      ensures decorativeObjects == old(decorativeObjects) + [Node(n)]
      ensures scene.nodes == old(scene.nodes) + {n}
    {
      scene.Add(n);
      AddDecorativeObject(Node(n));
    }

    /** A loaded model placed at `p`, then attached and recorded. */
    method PlaceLoadedModel(n: SceneNode, p: Vec3)
      modifies n`position, this`decorativeObjects, scene
      ensures n.position == p
      ensures decorativeObjects == old(decorativeObjects) + [Node(n)]
      ensures scene.nodes == old(scene.nodes) + {n}
    {
      n.position := p;
      AddLoadedModel(n);
    }

    /** A static box a room adds to the world and tracks. */
    method AddStaticBox(halfExtents: Vec3, p: Vec3) returns (b: Body)
      modifies this`decorativeObjects, world
      ensures fresh(b) && b.mass == 0.0 && b.halfExtents == halfExtents && b.position == p
      ensures decorativeObjects == old(decorativeObjects) + [Collider(b)]
      ensures world.bodies == old(world.bodies) + {b}
    {
      b := new Body(0.0, halfExtents, p);
      world.AddBody(b);
      AddDecorativeObject(Collider(b));
    }

    /**
     * `removeDecorativeObjects`: every tracked scene object leaves the scene
     * and every tracked body the world; other entries are skipped; the list
     * is left empty.
     */
    method RemoveDecorativeObjects()
      modifies this`decorativeObjects, scene, world
      ensures scene.nodes == old(scene.nodes) - NodesOf(old(decorativeObjects))
      ensures world.bodies == old(world.bodies) - BodiesOf(old(decorativeObjects))
      ensures decorativeObjects == []
    {
      var i := 0;
      while i < |decorativeObjects|
        invariant 0 <= i <= |decorativeObjects|
        invariant decorativeObjects == old(decorativeObjects)
        invariant scene.nodes == old(scene.nodes) - NodesOf(decorativeObjects[..i])
        invariant world.bodies == old(world.bodies) - BodiesOf(decorativeObjects[..i])
      {
        var d := decorativeObjects[i];
        assert decorativeObjects[..i + 1] == decorativeObjects[..i] + [d];
        if d.Node? {
          scene.Remove(d.node);
        } else if d.Collider? {
          world.RemoveBody(d.body);
        }
        i := i + 1;
      }
      assert decorativeObjects[..i] == decorativeObjects;
      decorativeObjects := [];
    }

    /** `loadTextures`: the flag is set only when all three textures loaded. */
    method LoadTextures(allLoaded: bool)
      modifies this`texturesLoaded
      ensures texturesLoaded == (old(texturesLoaded) || allLoaded)
    {
      if allLoaded {
        texturesLoaded := true;
      }
    }

    /**
     * `createGeometry`: textures are requested only while not yet loaded;
     * then a new cube mesh at the room's position is attached and tracked.
     */
    method CreateGeometry(texturesOk: bool)
      modifies this`mesh, this`texturesLoaded, this`decorativeObjects, scene
      ensures texturesLoaded == (old(texturesLoaded) || texturesOk)
      ensures mesh != null && fresh(mesh) && mesh.position == position
      ensures decorativeObjects == old(decorativeObjects) + [Node(mesh)]
      ensures scene.nodes == old(scene.nodes) + {mesh}
    {
      if !texturesLoaded {
        LoadTextures(texturesOk);
      }
      var m := new SceneNode(position);
      mesh := m;
      scene.Add(m);
      AddDecorativeObject(Node(m));
    }

    method SetInput(input: Input)
      modifies this`input
      ensures this.input == input
    {
      this.input := input;
    }

    /**
     * `createPhysics`: six new static wall boxes are added to the world and
     * appended to `physicsBodies`, whatever was tracked before.
     */
    method CreatePhysics()
      modifies this`physicsBodies, world
      ensures |physicsBodies| == |old(physicsBodies)| + 6
      ensures physicsBodies[..|old(physicsBodies)|] == old(physicsBodies)
      ensures var added := physicsBodies[|old(physicsBodies)|..];
        (forall k :: 0 <= k < |added| ==> WallBody(added[k], position, size, k)) &&
        (forall b :: b in added ==> fresh(b)) &&
        world.bodies == old(world.bodies) + Elements(added)
    {
      var surfaces := Surfaces(size);
      var added: seq<Body> := [];
      var i := 0;
      while i < 6
        invariant 0 <= i <= 6 && |added| == i
        invariant physicsBodies == old(physicsBodies) + added
        invariant forall k :: 0 <= k < |added| ==> WallBody(added[k], position, size, k)
        invariant forall b :: b in added ==> fresh(b)
        invariant world.bodies == old(world.bodies) + Elements(added)
      {
        var s := surfaces[i];
        var b := new Body(0.0, s.halfExtents, Add(position, s.offset));
        world.AddBody(b);
        physicsBodies := physicsBodies + [b];
        added := added + [b];
        i := i + 1;
      }
      assert physicsBodies[|old(physicsBodies)|..] == added;
    }

    /** `removePhysics`: every tracked wall leaves the world and the list is left empty. */
    method RemovePhysics()
      modifies this`physicsBodies, world
      ensures world.bodies == old(world.bodies) - Elements(old(physicsBodies))
      ensures physicsBodies == []
    {
      var i := 0;
      while i < |physicsBodies|
        invariant 0 <= i <= |physicsBodies|
        invariant physicsBodies == old(physicsBodies)
        invariant world.bodies == old(world.bodies) - Elements(physicsBodies[..i])
      {
        assert physicsBodies[..i + 1] == physicsBodies[..i] + [physicsBodies[i]];
        world.RemoveBody(physicsBodies[i]);
        i := i + 1;
      }
      assert physicsBodies[..i] == physicsBodies;
      physicsBodies := [];
    }

    /** `removeFromScene`: the mesh leaves the scene, then the decorations are removed. */
    method RemoveFromScene()
      modifies this`decorativeObjects, scene, world
      ensures mesh != null ==> mesh !in scene.nodes
      ensures scene.nodes == old(scene.nodes) - MeshOf(mesh) - NodesOf(old(decorativeObjects))
      ensures world.bodies == old(world.bodies) - BodiesOf(old(decorativeObjects))
      ensures decorativeObjects == []
    {
      if mesh != null {
        scene.Remove(mesh);
      }
      RemoveDecorativeObjects();
    }

    /** `getDoors`. */
    function GetDoors(): (r: Option<seq<Door>>)
      ensures r == doors
    {
      doors
    }
  }
}
