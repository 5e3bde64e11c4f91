/**
 * `EnemySkeleton`: a walking skeleton of room 5 with hit points, an attack
 * cooldown and a hit sphere that follows its mesh. The direction toward the
 * player (`normalize`) and the turned orientation (`atan2`, `slerp`) are
 * inputs; `performance.now()` is the `now` parameter.
 */
module Enemies {
  import opened Wrappers
  import opened Vectors
  import opened Keyframes
  import opened SceneGraph
  import opened Skeletons
  import opened Poses
  import opened SkeletonAnimation

  const InitialHp: int := 20
  /** `attackCooldown`, in milliseconds. */
  const AttackCooldown: real := 2000.0
  const Speed: real := 0.2
  const HitBoxRadius: real := 0.25
  /** The distance under which `update` attempts an attack. */
  const AttackRange: real := 0.3
  const BodyMass: real := 1.0
  const BodyHalfExtents: Vec3 := Vec3(0.05, 0.005, 0.05)

  /** `currentState`: 'idle', 'walk' or 'attack'. */
  datatype EnemyState = Idle | Walking | Attacking

  /** The gate of `attack`: the cooldown has run out and no attack is under way. */
  predicate AttackAllowed(now: real, lastAttackTime: real, isAttacking: bool) {
    now - lastAttackTime > AttackCooldown && !isAttacking
  }

  /** The chase step of `update`: x and z move along the direction; the height is kept. */
  function ChaseStep(p: Vec3, direction: Vec3, deltaTime: real): (q: Vec3)
    ensures q.y == p.y
    ensures deltaTime == 0.0 || (direction.x == 0.0 && direction.z == 0.0) ==> q == p
    ensures Sub(q, p) == Scale(Vec3(direction.x, 0.0, direction.z), Speed * deltaTime)
  {
    Vec3(p.x + direction.x * Speed * deltaTime, p.y, p.z + direction.z * Speed * deltaTime)
  }

  /**
   * The attacks that a run of `attack` calls at the times `times` makes,
   * starting from the flag and the time of the last attack: an allowed call
   * sets the flag and records its time, a refused one changes nothing, and
   * no call clears the flag.
   */
  function AttackCount(isAttacking: bool, lastAttackTime: real, times: seq<real>): nat
    decreases |times|
  {
    if times == [] then 0
    else if AttackAllowed(times[0], lastAttackTime, isAttacking) then 1 + AttackCount(true, times[0], times[1..])
    else AttackCount(isAttacking, lastAttackTime, times[1..])
  }

  /**
   * Once an attack has started no later attack is allowed: the callback that
   * would clear `isAttacking` is passed to `setAnimation`, which takes only
   * a name and never calls it, and no method clears the flag.
   */
  lemma {:induction false} AttackingBlocksForever(lastAttackTime: real, times: seq<real>)
    ensures AttackCount(true, lastAttackTime, times) == 0
    decreases |times|
  {
    if times != [] {
      AttackingBlocksForever(lastAttackTime, times[1..]);
    }
  }

  /**
   * So a skeleton attacks at most once in its life: exactly once when it was
   * not attacking and some call comes more than the cooldown after the last
   * attack time, and never otherwise.
   */
  lemma {:induction false} AtMostOneAttack(isAttacking: bool, lastAttackTime: real, times: seq<real>)
    ensures AttackCount(isAttacking, lastAttackTime, times) <= 1
    ensures AttackCount(isAttacking, lastAttackTime, times) == 1 <==>
      !isAttacking && exists i :: 0 <= i < |times| && times[i] - lastAttackTime > AttackCooldown
    decreases |times|
  {
    if times == [] {
    } else if AttackAllowed(times[0], lastAttackTime, isAttacking) {
      AttackingBlocksForever(times[0], times[1..]);
    } else {
      AtMostOneAttack(isAttacking, lastAttackTime, times[1..]);
      if !isAttacking {
        if exists i :: 0 <= i < |times| && times[i] - lastAttackTime > AttackCooldown {
          var i :| 0 <= i < |times| && times[i] - lastAttackTime > AttackCooldown;
          assert i > 0 && times[1..][i - 1] == times[i];
        }
        if exists i :: 0 <= i < |times[1..]| && times[1..][i] - lastAttackTime > AttackCooldown {
          var i :| 0 <= i < |times[1..]| && times[1..][i] - lastAttackTime > AttackCooldown;
          assert times[i + 1] == times[1..][i];
        }
      } else {
        AttackingBlocksForever(lastAttackTime, times);
      }
    }
  }

  /**
   * After `setAnimation(name)`: a loaded clip `name` is current from its
   * start; otherwise the animation and its progress are as they were.
   */
  predicate Switched(name: string, animations: map<string, seq<Pose>>, current0: string, progress0: real,
                     current: string, progress: real)
  {
    (name in animations ==> current == name && progress == 0.0) &&
    (name !in animations ==> current == current0 && progress == progress0)
  }

  class EnemySkeleton {
    const scene: Scene
    const world: World
    var mesh: SceneNode?
    var body: Body?
    var hp: int
    var isAttacking: bool
    var lastAttackTime: real
    var animationSystem: SkeletonAnimationSystem?
    var currentState: EnemyState
    var isLoaded: bool
    /**
     * The hit sphere's centre. The sphere is built around the spawn position
     * vector itself, so this is also `this.position`: the two always move together.
     */
    var hitCenter: Vec3

    /** Everything `update` needs is present. */
    predicate Ready()
      reads this
    {
      isLoaded && mesh != null && body != null && animationSystem != null
    }

    constructor(scene: Scene, world: World, position: Vec3)
      ensures this.scene == scene && this.world == world && hitCenter == position
      ensures mesh == null && body == null && animationSystem == null && !isLoaded && Paired()
      ensures hp == InitialHp && !isAttacking && lastAttackTime == 0.0 && currentState == Idle
    {
      this.scene := scene;
      this.world := world;
      mesh := null;
      body := null;
      hp := InitialHp;
      isAttacking := false;
      lastAttackTime := 0.0;
      animationSystem := null;
      currentState := Idle;
      isLoaded := false;
      hitCenter := position;
    }

    /**
     * The `loadModel` callback: the mesh at the spawn point joins the scene, a
     * box body there joins the world, and an animation system is created only
     * when the model holds a skinned mesh.
     */
    method OnModelLoaded(skinned: Skeleton?)
      modifies this`mesh, this`body, this`animationSystem, this`isLoaded, scene, world
      ensures mesh != null && fresh(mesh) && mesh.position == hitCenter
      ensures body != null && fresh(body) && body.position == hitCenter && Paired()
      ensures body.mass == BodyMass && body.halfExtents == BodyHalfExtents
      ensures scene.nodes == old(scene.nodes) + {mesh} && world.bodies == old(world.bodies) + {body}
      ensures skinned == null ==> animationSystem == old(animationSystem)
      ensures skinned != null ==>
        animationSystem != null && fresh(animationSystem) &&
        animationSystem.skeleton == skinned && animationSystem.animationLoader.animations == map[]
      ensures isLoaded
    {
      var m := new SceneNode(hitCenter);
      mesh := m;
      scene.Add(m);
      var b := new Body(BodyMass, BodyHalfExtents, hitCenter);
      body := b;
      world.AddBody(b);
      if skinned != null {
        animationSystem := new SkeletonAnimationSystem(skinned);
      }
      isLoaded := true;
    }

    /** The `loadAnimations().then` callback: both lists are loaded and the walk starts. */
    method OnAnimationsLoaded(walk: seq<Option<Pose>>, attack: seq<Option<Pose>>)
      requires animationSystem != null && |walk| == 2 && |attack| == 2
      modifies animationSystem, animationSystem.animationLoader
      ensures animationSystem.animationLoader.animations == old(animationSystem.animationLoader.animations)
        [WalkAnimation := CloseCycle(Successes(walk))][AttackAnimation := CloseCycle(Successes(attack))]
      ensures animationSystem.currentAnimation == WalkAnimation && animationSystem.animationProgress == 0.0
    {
      animationSystem.LoadAnimations(walk, attack);
      animationSystem.SetAnimation(WalkAnimation);
    }

    /**
     * `attack`: allowed only after the cooldown and when no attack is under
     * way; it then records the time and switches to the attack state. A
     * refused attack changes nothing.
     */
    method Attack(now: real) returns (ok: bool)
      requires animationSystem != null
      modifies this`isAttacking, this`lastAttackTime, this`currentState
      modifies animationSystem`currentAnimation, animationSystem`animationProgress
      ensures ok == AttackAllowed(now, old(lastAttackTime), old(isAttacking))
      ensures ok ==> isAttacking && lastAttackTime == now && currentState == Attacking
      ensures old(isAttacking) ==> isAttacking
      ensures ok && AttackAnimation in animationSystem.animationLoader.animations ==>
        animationSystem.currentAnimation == AttackAnimation && animationSystem.animationProgress == 0.0
      ensures ok && AttackAnimation !in animationSystem.animationLoader.animations ==>
        animationSystem.currentAnimation == old(animationSystem.currentAnimation) &&
        animationSystem.animationProgress == old(animationSystem.animationProgress)
      ensures !ok ==>
        isAttacking == old(isAttacking) && lastAttackTime == old(lastAttackTime) &&
        currentState == old(currentState)
      ensures !ok ==>
        animationSystem.currentAnimation == old(animationSystem.currentAnimation) &&
        animationSystem.animationProgress == old(animationSystem.animationProgress)
    {
      if AttackAllowed(now, lastAttackTime, isAttacking) {
        isAttacking := true;
        lastAttackTime := now;
        currentState := Attacking;
        animationSystem.SetAnimation(AttackAnimation);
        return true;
      }
      return false;
    }

    /** The move half of `update`: step the body, copy it to the mesh, turn both. */
    method Move(deltaTime: real, direction: Vec3, turned: Quat)
      requires Ready()
      modifies mesh, body
      ensures body.position == ChaseStep(old(body.position), direction, deltaTime)
      ensures mesh.position == body.position
      ensures mesh.quaternion == turned && body.quaternion == turned
      ensures mesh.visible == old(mesh.visible) && body.velocity == old(body.velocity)
    {
      body.position := ChaseStep(body.position, direction, deltaTime);
      mesh.position := body.position;
      mesh.quaternion := turned;
      body.quaternion := mesh.quaternion;
    }

    /**
     * The decision half of `update`: within range an attack is attempted;
     * otherwise the skeleton walks, restarting the walk animation only when
     * it was not already walking.
     */
    method Decide(playerPosition: Vec3, now: real) returns (attacked: bool)
      requires Ready()
      modifies this`isAttacking, this`lastAttackTime, this`currentState
      modifies animationSystem`currentAnimation, animationSystem`animationProgress
      ensures Near(mesh.position, playerPosition, AttackRange) ==>
        attacked == AttackAllowed(now, old(lastAttackTime), old(isAttacking))
      ensures attacked ==> isAttacking && lastAttackTime == now && currentState == Attacking
      ensures !attacked ==> isAttacking == old(isAttacking) && lastAttackTime == old(lastAttackTime)
      ensures old(isAttacking) ==> isAttacking
      ensures !Near(mesh.position, playerPosition, AttackRange) ==> !attacked && currentState == Walking
      ensures Near(mesh.position, playerPosition, AttackRange) && !attacked ==> currentState == old(currentState)
      ensures !attacked && currentState == old(currentState) ==>
        animationSystem.currentAnimation == old(animationSystem.currentAnimation) &&
        animationSystem.animationProgress == old(animationSystem.animationProgress)
      ensures attacked || currentState != old(currentState) ==>
        Switched(if attacked then AttackAnimation else WalkAnimation, animationSystem.animationLoader.animations,
                 old(animationSystem.currentAnimation), old(animationSystem.animationProgress),
                 animationSystem.currentAnimation, animationSystem.animationProgress)
    {
      attacked := false;
      if Near(mesh.position, playerPosition, AttackRange) {
        attacked := Attack(now);
      } else if currentState != Walking {
        currentState := Walking;
        animationSystem.SetAnimation(WalkAnimation);
      }
    }

    /**
     * `update`: nothing happens until the model and the animation system are
     * there; then the skeleton steps toward the player and turns, its
     * animation advances and the pose there is applied, the hit sphere
     * follows, and it attacks or walks, an attack or a new walk restarting
     * that clip. When the animation's sample throws (`crashed`), the
     * exception leaves `update` after the step and the pose: the hit sphere
     * stays behind and no attack or walk decision is made.
     */
    method Update(deltaTime: real, playerPosition: Vec3, now: real, direction: Vec3, turned: Quat)
      returns (attacked: bool, crashed: bool)
      modifies this`hitCenter, this`isAttacking, this`lastAttackTime, this`currentState, mesh, body
      modifies animationSystem, if animationSystem != null then {animationSystem.skeleton} else {}
      ensures !old(Ready()) ==>
        !attacked && !crashed && hitCenter == old(hitCenter) && currentState == old(currentState) &&
        isAttacking == old(isAttacking) && lastAttackTime == old(lastAttackTime)
      ensures !old(Ready()) ==>
        (mesh != null ==> unchanged(mesh)) && (body != null ==> unchanged(body)) &&
        (animationSystem != null ==> unchanged(animationSystem) && unchanged(animationSystem.skeleton))
      ensures old(Ready()) ==> Ready() && body.position == ChaseStep(old(body.position), direction, deltaTime)
      ensures old(Ready()) ==> mesh.position == body.position
      ensures old(Ready()) ==> mesh.quaternion == turned && body.quaternion == turned
      ensures old(Ready()) ==>
        var a := animationSystem;
        a.animationSpeed == old(a.animationSpeed) && crashed == old(a.WillThrow(deltaTime)) &&
        a.skeleton.bones == Applied(old(a.skeleton.bones),
          PoseToApply(a.animationLoader.GetInterpolatedPose(old(a.currentAnimation), old(a.NextProgress(deltaTime)))))
      ensures old(Ready()) && (crashed || (!attacked && currentState == old(currentState))) ==>
        var a := animationSystem;
        a.currentAnimation == old(a.currentAnimation) && a.animationProgress == old(a.NextProgress(deltaTime))
      ensures old(Ready()) && !crashed && (attacked || currentState != old(currentState)) ==>
        var a := animationSystem;
        Switched(if attacked then AttackAnimation else WalkAnimation, a.animationLoader.animations,
                 old(a.currentAnimation), old(a.NextProgress(deltaTime)), a.currentAnimation, a.animationProgress)
      ensures crashed ==>
        !attacked && hitCenter == old(hitCenter) && currentState == old(currentState) &&
        isAttacking == old(isAttacking) && lastAttackTime == old(lastAttackTime)
      ensures old(Ready()) && !crashed ==> hitCenter == mesh.position
      ensures old(Ready()) && !crashed ==>
        (!Near(mesh.position, playerPosition, AttackRange) ==> !attacked && currentState == Walking)
      ensures old(Ready()) && !crashed && Near(mesh.position, playerPosition, AttackRange) ==>
        attacked == AttackAllowed(now, old(lastAttackTime), old(isAttacking))
      ensures attacked ==> isAttacking && lastAttackTime == now && currentState == Attacking
      ensures !attacked ==> isAttacking == old(isAttacking) && lastAttackTime == old(lastAttackTime)
      ensures old(isAttacking) ==> isAttacking
    {
      attacked := false;
      crashed := false;
      if !Ready() {
        return;
      }
      crashed := MoveAndAnimate(deltaTime, direction, turned);
      if crashed {
        return;
      }
      hitCenter := mesh.position;
      attacked := Decide(playerPosition, now);
    }

    /** The first half of `update` for a ready skeleton: `Move`, then the animation system's `update`. */
    method MoveAndAnimate(deltaTime: real, direction: Vec3, turned: Quat) returns (crashed: bool)
      requires Ready()
      modifies mesh, body, animationSystem`animationProgress, animationSystem.skeleton
      ensures body.position == ChaseStep(old(body.position), direction, deltaTime)
      ensures mesh.position == body.position
      ensures mesh.quaternion == turned && body.quaternion == turned
      ensures crashed == old(animationSystem.WillThrow(deltaTime))
      ensures animationSystem.animationProgress == old(animationSystem.NextProgress(deltaTime))
      ensures animationSystem.skeleton.bones == Applied(old(animationSystem.skeleton.bones),
        PoseToApply(animationSystem.animationLoader.GetInterpolatedPose(animationSystem.currentAnimation,
                                                                        animationSystem.animationProgress)))
    {
      Move(deltaTime, direction, turned);
      crashed := animationSystem.Update(deltaTime);
    }

    /**
     * `takeDamage`: one hit point; at zero or below the skeleton dies, and
     * the death throws (`crashed`) when there is no body.
     */
    method TakeDamage() returns (crashed: bool)
      modifies this`hp, scene, world
      ensures hp == old(hp) - 1
      ensures crashed <==> hp <= 0 && body == null
      ensures hp <= 0 ==> (mesh != null ==> mesh !in scene.nodes) && (body != null ==> body !in world.bodies)
      ensures hp > 0 ==> scene.nodes == old(scene.nodes) && world.bodies == old(world.bodies)
      ensures hp <= 0 ==> scene.nodes == old(scene.nodes) - MeshOf(mesh) && world.bodies == old(world.bodies) - BodyOf(body)
    {
      hp := hp - 1;
      crashed := false;
      if hp <= 0 {
        crashed := Die();
      }
    }

    /**
     * `die`: the mesh, if any, leaves the scene (removing a missing mesh
     * from a Three.js scene does nothing), then the body leaves the world.
     * cannon-es's `removeBody` writes to the body it is given, so a missing
     * body throws (`crashed`) and the world keeps every body it had.
     */
    method Die() returns (crashed: bool)
      modifies scene, world
      ensures crashed <==> body == null
      ensures scene.nodes == old(scene.nodes) - MeshOf(mesh)
      ensures world.bodies == old(world.bodies) - BodyOf(body)
      ensures crashed ==> world.bodies == old(world.bodies)
    {
      if mesh != null {
        scene.Remove(mesh);
      }
      if body == null {
        return true;
      }
      world.RemoveBody(body);
      return false;
    }

    /** The load callback sets the mesh and the body together: a skeleton with a mesh has a body. */
    predicate Paired()
      reads this`mesh, this`body
    {
      mesh != null ==> body != null
    }
  }
}
