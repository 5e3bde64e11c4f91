/**
 * `RottenPumpkin`: the chaser of room 8. It heads for a dropped flower when
 * there is one and for the player otherwise, and catches the player only
 * while no flower is on the floor. The unit vector toward the target
 * (`normalize`) and the head's turn toward it (`atan2`) are function-typed
 * inputs; the textures are left out.
 */
module RottenPumpkins {
  import opened Wrappers
  import opened Vectors
  import opened SceneGraph

  /** The default `speed` argument. */
  const DefaultSpeed: real := 0.35
  const CatchRadius: real := 0.3
  const BodyMass: real := 1.0
  const BodyHalfExtents: Vec3 := Vec3(0.1, 0.1, 0.1)
  /** The head is placed at height -0.1 on the origin; the constructor's position argument is never read. */
  const HeadStart: Vec3 := Vec3(0.0, -0.1, 0.0)

  /** The target `update` chooses: the flower when one is given, otherwise the player. */
  function Target(playerPosition: Vec3, flowerPosition: Option<Vec3>): (t: Vec3)
    ensures flowerPosition.Some? ==> t == flowerPosition.value
    ensures flowerPosition.None? ==> t == playerPosition
  {
    if flowerPosition.Some? then flowerPosition.value else playerPosition
  }

  /** The catch verdict of `update`, taken after the move. */
  predicate Catches(head: Vec3, playerPosition: Vec3, flowerPosition: Option<Vec3>) {
    flowerPosition.None? && Near(head, playerPosition, CatchRadius)
  }

  /** A flower on the floor protects the player wherever the pumpkin is; without one, only distance counts. */
  lemma FlowerProtects(head: Vec3, playerPosition: Vec3, flower: Vec3)
    ensures !Catches(head, playerPosition, Some(flower))
    ensures Catches(head, playerPosition, None) <==> DistSq(head, playerPosition) < CatchRadius * CatchRadius
  {
  }

  /**
   * Where one `update` step of length `step` takes the head: along the
   * offset to the target, as `normalize` scales it.
   */
  function StepToward(head: Vec3, target: Vec3, normalize: Vec3 -> Vec3, step: real): Vec3 {
    Add(head, Scale(normalize(Sub(target, head)), step))
  }

  /**
   * A true normaliser scales the offset to the target by one over its
   * length, some `k`. Then the step keeps the head on the straight line to
   * the target, a fraction `k * step` of the way, and the squared distance
   * left shrinks by the square of what remains; a step no longer than the
   * distance never takes the head farther away.
   */
  lemma StepApproaches(head: Vec3, target: Vec3, normalize: Vec3 -> Vec3, step: real, k: real)
    requires normalize(Sub(target, head)) == Scale(Sub(target, head), k)
    ensures StepToward(head, target, normalize, step) == LerpVec(head, target, k * step)
    ensures DistSq(StepToward(head, target, normalize, step), target) ==
      (1.0 - k * step) * (1.0 - k * step) * DistSq(head, target)
    ensures 0.0 <= k * step <= 1.0 ==>
      DistSq(StepToward(head, target, normalize, step), target) <= DistSq(head, target)
  {
    var d := Sub(head, target);
    var n := StepToward(head, target, normalize, step);
    StepIsLerp(head, target, k, step);
    LerpRemains(head, target, k * step);
    ScaledLength(d, 1.0 - k * step);
    var c, q := 1.0 - k * step, DistSq(head, target);
    assert DistSq(n, target) == c * c * q;
    if 0.0 <= k * step <= 1.0 {
      ShrinkFactor(c, q);
      assert DistSq(n, target) <= q;
    }
  }

  /** The step along the offset scaled by `k` is a lerp by `k * step`. */
  lemma StepIsLerp(head: Vec3, target: Vec3, k: real, step: real)
    ensures Add(head, Scale(Scale(Sub(target, head), k), step)) == LerpVec(head, target, k * step)
  {
    StepComponent(head.x, target.x, k, step);
    StepComponent(head.y, target.y, k, step);
    StepComponent(head.z, target.z, k, step);
  }

  /** One coordinate of the step: moving by `(g - h) * k * s` is a lerp by `k * s`. */
  lemma StepComponent(h: real, g: real, k: real, s: real)
    ensures h + ((g - h) * k) * s == Lerp(h, g, k * s)
  {
    calc {
      h + ((g - h) * k) * s;
      h + (g - h) * (k * s);
      (1.0 - k * s) * h + (k * s) * g;
    }
  }

  /** What a lerp by `t` leaves of the way to the target. */
  lemma LerpRemains(head: Vec3, target: Vec3, t: real)
    ensures Sub(LerpVec(head, target, t), target) == Scale(Sub(head, target), 1.0 - t)
  {
    LerpLeft(head.x, target.x, t);
    LerpLeft(head.y, target.y, t);
    LerpLeft(head.z, target.z, t);
  }

  /** What a lerp by `t` leaves of the way to `g`. */
  lemma LerpLeft(h: real, g: real, t: real)
    ensures Lerp(h, g, t) - g == (h - g) * (1.0 - t)
  {
  }

  lemma ScaledLength(d: Vec3, c: real)
    ensures LengthSq(Scale(d, c)) == c * c * LengthSq(d)
  {
    calc {
      LengthSq(Scale(d, c));
      (d.x * c) * (d.x * c) + (d.y * c) * (d.y * c) + (d.z * c) * (d.z * c);
      (c * c) * (d.x * d.x) + (c * c) * (d.y * d.y) + (c * c) * (d.z * d.z);
      c * c * LengthSq(d);
    }
  }

  lemma ShrinkFactor(c: real, q: real)
    requires 0.0 <= c <= 1.0 && 0.0 <= q
    ensures c * c * q <= q
  {
    assert c * c <= c * 1.0;
    assert c * c * q <= 1.0 * q;
  }

  class RottenPumpkin {
    const scene: Scene
    const world: World
    const speed: real
    const head: SceneNode
    const body: Body
    /** `target`, `undefined` until the first update. */
    var target: Option<Vec3>

    /** The constructor: the head goes into the scene and a box body at the head into the world. */
    constructor(scene: Scene, world: World, speed: real)
      modifies scene, world
      ensures this.scene == scene && this.world == world && this.speed == speed && target.None?
      ensures fresh(head) && fresh(body) && head.position == HeadStart && body.position == HeadStart
      ensures body.mass == BodyMass && body.halfExtents == BodyHalfExtents
      ensures scene.nodes == old(scene.nodes) + {head} && world.bodies == old(world.bodies) + {body}
    {
      this.scene := scene;
      this.world := world;
      this.speed := speed;
      target := None;
      head := new SceneNode(HeadStart);
      body := new Body(BodyMass, BodyHalfExtents, HeadStart);
      new;
      scene.Add(head);
      world.AddBody(body);
    }

    /** `checkPlayerProximity`: true within 0.3; otherwise `undefined`, which is falsy. */
    function CheckPlayerProximity(playerPosition: Vec3): (near: bool)
      reads head
      ensures near <==> DistSq(head.position, playerPosition) < CatchRadius * CatchRadius
    {
      Near(head.position, playerPosition, CatchRadius)
    }

    /**
     * `update`: the target is chosen, the head moves `speed * deltaTime`
     * along the normalised offset to it and the body follows; the head turns
     * to face along that direction (`heading`: the quaternion of the yaw
     * `atan2(x, z)`, the head's only rotation). The result says whether the
     * player was caught.
     */
    method Update(deltaTime: real, playerPosition: Vec3, flowerPosition: Option<Vec3>,
                  normalize: Vec3 -> Vec3, heading: Vec3 -> Quat)
      returns (caught: bool)
      modifies this`target, head`position, head`quaternion, body`position
      ensures target == Some(Target(playerPosition, flowerPosition))
      ensures head.position ==
        StepToward(old(head.position), Target(playerPosition, flowerPosition), normalize, speed * deltaTime)
      ensures head.quaternion ==
        heading(normalize(Sub(Target(playerPosition, flowerPosition), old(head.position))))
      ensures body.position == head.position
      ensures caught <==> Catches(head.position, playerPosition, flowerPosition)
    {
      target := Some(Target(playerPosition, flowerPosition));
      var direction := normalize(Sub(target.value, head.position));
      head.position := Add(head.position, Scale(direction, speed * deltaTime));
      body.position := head.position;
      head.quaternion := heading(direction);
      caught := !flowerPosition.Some? && CheckPlayerProximity(playerPosition);
    }

    /** `removeFromScene`: the head leaves the scene and the body the world. */
    method RemoveFromScene()
      modifies scene, world
      ensures scene.nodes == old(scene.nodes) - {head} && world.bodies == old(world.bodies) - {body}
    {
      scene.Remove(head);
      world.RemoveBody(body);
    }
  }
}
