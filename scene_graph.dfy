/**
 * The parts of the Three.js scene graph and the cannon-es world the game's
 * state machines touch: object positions and visibility, bodies and their
 * motion, the set of objects in the scene and of bodies in the world.
 */
module SceneGraph {
  import opened Vectors

  /** A Three.js `Object3D` (mesh or group). */
  class SceneNode {
    var position: Vec3
    var quaternion: Quat
    var visible: bool

    constructor(position: Vec3)
      ensures this.position == position && quaternion == Quat(0.0, 0.0, 0.0, 1.0) && visible
    {
      this.position := position;
      quaternion := Quat(0.0, 0.0, 0.0, 1.0);
      visible := true;
    }

    method SetPosition(p: Vec3)
      modifies this`position
      ensures position == p
    {
      position := p;
    }
  }

  /** A cannon-es `Body`; a mass of 0 is a static body. */
  class Body {
    const mass: real
    /** Half extents of its box shape. */
    const halfExtents: Vec3
    var position: Vec3
    var velocity: Vec3
    var quaternion: Quat

    constructor(mass: real, halfExtents: Vec3, position: Vec3)
      ensures this.mass == mass && this.halfExtents == halfExtents && this.position == position
      ensures velocity == Origin && quaternion == Quat(0.0, 0.0, 0.0, 1.0)
    {
      this.mass := mass;
      this.halfExtents := halfExtents;
      this.position := position;
      velocity := Origin;
      quaternion := Quat(0.0, 0.0, 0.0, 1.0);
    }

    method SetPosition(p: Vec3)
      modifies this`position
      ensures position == p
    {
      position := p;
    }
  }

  /** A Three.js `Scene`: which objects are attached to it. */
  class Scene {
    var nodes: set<SceneNode>

    constructor()
      ensures nodes == {}
    {
      nodes := {};
    }

    method Add(n: SceneNode)
      modifies this
      ensures nodes == old(nodes) + {n}
    {
      nodes := nodes + {n};
    }

    /** `scene.remove`: removing an object that is not attached does nothing. */
    method Remove(n: SceneNode)
      modifies this
      ensures nodes == old(nodes) - {n}
    {
      nodes := nodes - {n};
    }
  }

  /** A cannon-es `World`: which bodies are simulated. */
  class World {
    var bodies: set<Body>

    constructor()
      ensures bodies == {}
    {
      bodies := {};
    }

    method AddBody(b: Body)
      modifies this
      ensures bodies == old(bodies) + {b}
    {
      bodies := bodies + {b};
    }

    method RemoveBody(b: Body)
      modifies this
      ensures bodies == old(bodies) - {b}
    {
      bodies := bodies - {b};
    }
  }

  /** The perspective camera; `defaultFov` is the field the character adds to it. */
  class Camera {
    var fov: real
    var defaultFov: real
    var position: Vec3

    constructor(fov: real)
      ensures this.fov == fov && defaultFov == fov && position == Origin
    {
      this.fov := fov;
      defaultFov := fov;
      position := Origin;
    }
  }

  /** The scene nodes a possibly missing mesh stands for: none, or the mesh itself. */
  function MeshOf(n: SceneNode?): (s: set<SceneNode>)
    ensures n == null <==> s == {}
    ensures n != null ==> s == {n}
  {
    if n == null then {} else {n}
  }

  /** `MeshOf` for bodies: none, or the body itself. */
  function BodyOf(b: Body?): set<Body> {
    if b == null then {} else {b}
  }
}
