/**
 * `CharacterModel`: the player. Its counters (hit points, petals, the held
 * flower, the shot cooldown, aiming) and the wiring of its subsystems once
 * the model file has loaded. `performance.now()` is the parameter `now`;
 * whether the audio context runs is the parameter `audioRunning`.
 */
module Character {
  import opened Wrappers
  import opened Vectors
  import opened SceneGraph
  import opened InputController
  import opened Movement
  import opened Skeletons
  import opened HybridAnimation
  import opened ShootAnimation
  import opened PoseControl

  const InitialHp: int := 100
  const MaxPetals: int := 3
  /** Milliseconds between two shots. */
  const ShootCooldown: real := 500.0
  /** Zooming in divides the default field of view by this. */
  const AimZoom: real := 1.5
  const SpawnPosition: Vec3 := Vec3(1.0, -0.47, -1.0)
  const BodyHalfExtents: Vec3 := Vec3(0.03, 0.005, 0.03)
  const BodyMass: real := 5.0

  /** The `character-shoot` event; the ray it carries is left out. */
  datatype ShootEvent = ShootEvent(currentRoomId: Option<int>)

  /** The petal counter after `addPetal`: one more, but never past the cap. */
  function PetalsAfterAdd(count: int): (r: int)
    ensures count < MaxPetals ==> r == count + 1
    ensures count >= MaxPetals ==> r == count
    ensures r <= MaxPetals || r == count
  {
    if count < MaxPetals then count + 1 else count
  }

  /** Adding petals from any count in range saturates at the cap and stays there. */
  lemma {:induction false} PetalsSaturate(count: int, n: nat)
    requires 0 <= count <= MaxPetals
    ensures Iterate(count, n) == if count + n <= MaxPetals then count + n else MaxPetals
    decreases n
  {
    if n > 0 {
      PetalsSaturate(PetalsAfterAdd(count), n - 1);
    }
  }

  /** `n` calls to `addPetal` in a row. */
  function Iterate(count: int, n: nat): int
    decreases n
  {
    if n == 0 then count else Iterate(PetalsAfterAdd(count), n - 1)
  }

  /** The shooting gate of `handleShooting`: trigger held, system idle, cooldown passed. */
  predicate ShotAllowed(triggerHeld: bool, systemIdle: bool, now: real, lastShootingTime: real) {
    triggerHeld && systemIdle && now - lastShootingTime > ShootCooldown
  }

  class CharacterModel {
    const scene: Scene
    const world: World
    const camera: Camera
    const input: Input
    var mesh: SceneNode?
    var body: Body?
    var movement: CharacterMovement?
    var hybrid: HybridAnimationSystem?
    var poseControl: PoseControlSystem?
    var shootSystem: ShootAnimationSystem?
    var lastShootingTime: real
    var isAiming: bool
    var hp: int
    var isHoldingFlower: bool
    var petalCount: int
    var hasAllPetals: bool
    /** `currentRoomId`, `undefined` until the first room is entered. */
    var currentRoomId: Option<int>

    /** The petal counter stays in range and the all-petals flag tracks the cap. */
    predicate PetalsValid()
      reads this
    {
      0 <= petalCount <= MaxPetals && (hasAllPetals <==> petalCount == MaxPetals)
    }

    /** The field of view matches the aiming flag. */
    predicate FovMatchesAim()
      reads this, camera
    {
      camera.fov == if isAiming then camera.defaultFov / AimZoom else camera.defaultFov
    }

    /** The movement handler drives this character's own mesh, body, camera and input. */
    predicate Wired()
      reads this, movement
    {
      movement != null ==>
        movement.mesh == mesh && movement.body == body && movement.camera == camera && movement.input == input
    }

    constructor(scene: Scene, world: World, camera: Camera, input: Input)
      modifies camera`defaultFov
      ensures this.scene == scene && this.world == world && this.camera == camera && this.input == input
      ensures camera.defaultFov == camera.fov
      ensures mesh == null && body == null && movement == null
      ensures hybrid == null && poseControl == null && shootSystem == null
      ensures hp == InitialHp && petalCount == 0 && !hasAllPetals && !isHoldingFlower
      ensures lastShootingTime == 0.0 && !isAiming && currentRoomId.None?
      ensures PetalsValid() && Wired()
    {
      this.scene := scene;
      this.world := world;
      this.camera := camera;
      this.input := input;
      mesh, body, movement := null, null, null;
      hybrid, poseControl, shootSystem := null, null, null;
      lastShootingTime := 0.0;
      isAiming := false;
      hp := InitialHp;
      isHoldingFlower := false;
      petalCount := 0;
      hasAllPetals := false;
      currentRoomId := None;
      camera.defaultFov := camera.fov;
    }

    /**
     * The callback of `loadModel`: the mesh is placed at the spawn point and
     * attached, a 5 kg body is created at the same point (`bodyQuaternion` is
     * the quaternion of Euler (0, -pi/2, 0)) and added to the world, and the
     * movement handler is created. Without a skinned mesh the animation
     * system's constructor throws, so none of the three animation systems is
     * created.
     */
    method OnModelLoaded(skinned: Skeleton?, bodyQuaternion: Quat)
      modifies this`mesh, this`body, this`movement, this`hybrid, this`poseControl, this`shootSystem
      modifies scene, world
      ensures mesh != null && fresh(mesh) && mesh.position == SpawnPosition
      ensures body != null && fresh(body) && body.mass == BodyMass && body.halfExtents == BodyHalfExtents
      ensures body.position == SpawnPosition && body.quaternion == bodyQuaternion
      ensures mesh.quaternion == body.quaternion
      ensures scene.nodes == old(scene.nodes) + {mesh} && world.bodies == old(world.bodies) + {body}
      ensures movement != null && fresh(movement) && Wired()
      ensures movement.rotationAngle == 2.0 * Pi && !movement.isWalking
      ensures skinned == null ==>
        hybrid == old(hybrid) && poseControl == old(poseControl) && shootSystem == old(shootSystem)
      ensures skinned != null ==>
        hybrid != null && fresh(hybrid) && hybrid.skeleton == skinned &&
        poseControl != null && fresh(poseControl) && poseControl.skeleton == skinned &&
        shootSystem != null && fresh(shootSystem) && shootSystem.skeleton == skinned && !shootSystem.isAnimating
    {
      var m := new SceneNode(SpawnPosition);
      scene.Add(m);
      var b := new Body(BodyMass, BodyHalfExtents, m.position);
      b.quaternion := bodyQuaternion;
      world.AddBody(b);
      m.quaternion := b.quaternion;
      mesh, body := m, b;
      movement := new CharacterMovement(m, b, camera, input);
      CreateAnimationSystems(skinned);
    }

    /** The animation half of `onModelLoaded`: the three systems on the model's skeleton, if it has one. */
    method CreateAnimationSystems(skinned: Skeleton?)
      modifies this`hybrid, this`poseControl, this`shootSystem
      ensures skinned == null ==>
        hybrid == old(hybrid) && poseControl == old(poseControl) && shootSystem == old(shootSystem)
      ensures skinned != null ==>
        hybrid != null && fresh(hybrid) && hybrid.skeleton == skinned &&
        poseControl != null && fresh(poseControl) && poseControl.skeleton == skinned &&
        shootSystem != null && fresh(shootSystem) && shootSystem.skeleton == skinned && !shootSystem.isAnimating
    {
      if skinned != null {
        hybrid := new HybridAnimationSystem(skinned);
        poseControl := new PoseControlSystem(skinned);
        shootSystem := new ShootAnimationSystem(skinned);
      }
    }

    /** `getPosition`: a copy of the mesh position, or null before the model has loaded. */
    function GetPosition(): (p: Option<Vec3>)
      reads this, mesh
      ensures p.Some? <==> mesh != null
      ensures p.Some? ==> p.value == mesh.position
    {
      if mesh != null then Some(mesh.position) else None
    }

    method SetCurrentRoomId(roomId: int)
      modifies this`currentRoomId
      ensures currentRoomId == Some(roomId)
    {
      currentRoomId := Some(roomId);
    }

    /** `addPetal`: one more petal while fewer than three are held; the third sets the flag. */
    method AddPetal()
      requires PetalsValid()
      modifies this`petalCount, this`hasAllPetals
      ensures PetalsValid()
      ensures petalCount == PetalsAfterAdd(old(petalCount))
      ensures old(hasAllPetals) ==> hasAllPetals
    {
      if petalCount < MaxPetals {
        petalCount := petalCount + 1;
        if petalCount == MaxPetals {
          hasAllPetals := true;
        }
      }
    }

    function GetPetalCount(): int
      reads this
    {
      petalCount
    }

    /** `hasAllPetalsCollected`: the flag, which under the invariant means three petals. */
    function HasAllPetalsCollected(): (r: bool)
      reads this
      ensures PetalsValid() ==> (r <==> petalCount == MaxPetals)
    {
      hasAllPetals
    }

    /** `takeDamage`: one hit point, with no floor. */
    method TakeDamage()
      modifies this`hp
      ensures hp == old(hp) - 1
    {
      hp := hp - 1;
    }

    /**
     * `shoot`: nothing when the audio context is not running; otherwise the
     * `character-shoot` event, carrying the current room id.
     */
    function Shoot(audioRunning: bool): (event: Option<ShootEvent>)
      reads this
      ensures event.Some? <==> audioRunning
      ensures event.Some? ==> event.value.currentRoomId == currentRoomId
    {
      if audioRunning then Some(ShootEvent(currentRoomId)) else None
    }

    /**
     * `handleShooting`: when the gate is open the recoil starts (it always
     * does, the gate having checked the system is idle) and the shot time is
     * stamped, even when `shoot` then gives up for want of audio.
     */
    twostate predicate GateWasOpen(now: real)
      reads this, input, shootSystem
    {
      old(shootSystem) != null && shootSystem == old(shootSystem) &&
      ShotAllowed(old(input.isMouseDownLeft), !old(shootSystem.isAnimating), now, old(lastShootingTime))
    }

    method HandleShooting(now: real, audioRunning: bool) returns (event: Option<ShootEvent>)
      modifies this`lastShootingTime, shootSystem
      ensures lastShootingTime == if GateWasOpen(now) then now else old(lastShootingTime)
      ensures event.Some? <==> GateWasOpen(now) && audioRunning
      ensures event.Some? ==> event.value.currentRoomId == currentRoomId
      ensures GateWasOpen(now) ==> shootSystem.isAnimating && shootSystem.animationProgress == 0.0
      ensures shootSystem != null && !GateWasOpen(now) ==> shootSystem.start == old(shootSystem.start)
      ensures shootSystem != null && !GateWasOpen(now) ==> shootSystem.isAnimating == old(shootSystem.isAnimating)
      ensures shootSystem != null && !GateWasOpen(now) ==>
        shootSystem.animationProgress == old(shootSystem.animationProgress)
      ensures shootSystem != null ==> shootSystem.recoil == old(shootSystem.recoil)
    {
      event := None;
      if input.isMouseDownLeft && shootSystem != null && shootSystem.CanShoot() &&
         now - lastShootingTime > ShootCooldown {
        var started := shootSystem.StartShootAnimation();
        if started {
          event := Shoot(audioRunning);
          lastShootingTime := now;
        }
      }
    }

    /** `handleAiming`: the aiming flag follows the right button; the zoom changes only on an edge. */
    method HandleAiming()
      modifies this`isAiming, camera`fov
      ensures isAiming == input.isRightMouseDown
      ensures isAiming && !old(isAiming) ==> camera.fov == camera.defaultFov / AimZoom
      ensures !isAiming && old(isAiming) ==> camera.fov == camera.defaultFov
      ensures isAiming == old(isAiming) ==> camera.fov == old(camera.fov)
      ensures old(FovMatchesAim()) ==> FovMatchesAim()
    {
      if input.isRightMouseDown {
        if !isAiming {
          isAiming := true;
          camera.fov := camera.defaultFov / AimZoom;
        }
      } else {
        if isAiming {
          isAiming := false;
          camera.fov := camera.defaultFov;
        }
      }
    }

    /** Copying the body's pose onto the mesh. */
    method MirrorBody()
      requires mesh != null && body != null
      modifies mesh
      ensures mesh.position == body.position && mesh.quaternion == body.quaternion
      ensures mesh.visible == old(mesh.visible)
    {
      mesh.position := body.position;
      mesh.quaternion := body.quaternion;
    }

    /**
     * The animation step of `update`: the walk system runs with the movement
     * flags, then once more while walking with no arguments, which reads them
     * all as false; `hasMoved` is the `undefined` that the movement update
     * returns, so no IK request is ever made. Then the recoil advances;
     * `crashed` is the TypeError its blend throws when the recoil pose is
     * missing or lacks a captured bone, which leaves `update` at once.
     */
    method UpdateAnimations(deltaTime: real) returns (crashed: bool)
      requires hybrid != null ==> movement != null
      modifies hybrid, if hybrid != null then {hybrid.skeleton, hybrid.walkCycleLoader} else {}
      modifies shootSystem, if shootSystem != null then {shootSystem.skeleton} else {}
      ensures hybrid != null ==> !hybrid.needsIKUpdate
      ensures hybrid != null ==>
        hybrid.walkProgress == NextWalkProgress(old(hybrid.walkProgress), deltaTime * hybrid.walkSpeed,
                                                movement.isMovingForward, movement.isMovingBackward, movement.isWalking)
      ensures crashed == old(RecoilWillCrash(deltaTime))
    {
      if hybrid != null {
        StepWalk(deltaTime);
      }
      crashed := false;
      if shootSystem != null {
        crashed := shootSystem.Update(deltaTime);
      }
    }

    /** The walk half of the animation step: the flagged update, then the flagless one while walking. */
    method StepWalk(deltaTime: real)
      requires hybrid != null && movement != null
      modifies hybrid, hybrid.skeleton, hybrid.walkCycleLoader
      ensures !hybrid.needsIKUpdate
      ensures hybrid.walkProgress == NextWalkProgress(old(hybrid.walkProgress), deltaTime * hybrid.walkSpeed,
                                                      movement.isMovingForward, movement.isMovingBackward, movement.isWalking)
    {
      var h, m := hybrid, movement;
      ghost var p0, step := h.walkProgress, deltaTime * h.walkSpeed;
      assert old(hybrid.walkProgress) == p0;
      var forward, backward, walking := m.GetIsMovingForward(), m.GetIsMovingBackward(), m.GetIsWalking();
      h.Update(deltaTime, forward, backward, walking);
      ghost var p1 := h.walkProgress;
      assert p1 == NextWalkProgress(p0, step, forward, backward, walking);
      if walking {
        h.Update(deltaTime, false, false, false);
        assert h.walkProgress == p1;
      }
      assert hybrid == h && movement == m;
      assert deltaTime * hybrid.walkSpeed == step;
      assert forward == m.isMovingForward && backward == m.isMovingBackward && walking == m.isWalking;
    }

    /**
     * The recoil is running and its next step, `deltaTime` later, reaches a
     * blend that throws.
     */
    predicate RecoilWillCrash(deltaTime: real)
      reads this, shootSystem
    {
      shootSystem != null && shootSystem.isAnimating &&
      var progress := shootSystem.animationProgress + deltaTime / Duration;
      BlendProgress(progress).Some? &&
      ShootBlend(shootSystem.start, shootSystem.recoil, BlendProgress(progress).value).None?
    }

    /**
     * `update`, once the mesh and body exist: movement (with the geometry
     * oracles described at `CharacterMovement.Update`), the mesh copying the
     * body, the animations, then shooting and aiming. Before the model has
     * loaded nothing happens. A recoil blend that throws (`crashed`) ends the
     * call before shooting and aiming, and the exception travels on to the
     * caller.
     */
    method Update(deltaTime: real, now: real, audioRunning: bool,
                  geometry: Geometry)
      returns (event: Option<ShootEvent>, crashed: bool)
      requires Wired() && (hybrid != null ==> movement != null)
      modifies this`lastShootingTime, this`isAiming, mesh, body, movement, camera, input
      modifies hybrid, if hybrid != null then {hybrid.skeleton, hybrid.walkCycleLoader} else {}
      modifies shootSystem, if shootSystem != null then {shootSystem.skeleton} else {}
      ensures mesh == null || body == null ==> !crashed
      ensures mesh == null || body == null || crashed ==>
        event.None? && lastShootingTime == old(lastShootingTime) && isAiming == old(isAiming)
      ensures mesh != null && body != null ==>
        mesh.position == body.position && mesh.quaternion == body.quaternion
      ensures mesh != null && body != null ==> crashed == old(RecoilWillCrash(deltaTime))
      ensures mesh != null && body != null && !crashed ==> isAiming == input.isRightMouseDown
      ensures event.Some? ==> event.value.currentRoomId == currentRoomId && lastShootingTime == now
      ensures lastShootingTime == old(lastShootingTime) || lastShootingTime == now
    {
      event := None;
      crashed := false;
      if mesh != null && body != null {
        if movement != null {
          movement.Update(geometry);
        }
        MirrorBody();
        crashed := UpdateAnimations(deltaTime);
        if crashed {
          return;
        }
        event := HandleShooting(now, audioRunning);
        HandleAiming();
      }
    }
  }
}
