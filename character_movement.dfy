/**
 * `CharacterMovement`: the player's yaw, smoothed velocity, movement flags
 * and third-person camera. Rotating a vector about the vertical axis,
 * normalising it, the quaternion for the yaw and the camera ray cast are
 * floating-point geometry and arrive as parameters.
 */
module Movement {
  import opened Wrappers
  import opened Vectors
  import opened SceneGraph
  import opened InputController

  const MoveSpeed: real := 8.0
  const MouseSensitivity: real := 0.004
  const MaxCameraDistance: real := 0.2
  /** The share of the gap to the target velocity closed each frame. */
  const VelocitySmoothing: real := 0.1
  /** The squared length below which a vector counts as no movement. */
  const StillThreshold: real := 0.001

  /** `cameraOffset`: the camera's place behind the character before the yaw turns it. */
  const CameraOffset: Vec3 := Vec3(-0.1, 0.15, -0.32)
  /** The vector the yaw turns into the character's forward direction. */
  const Ahead: Vec3 := Vec3(0.0, 0.0, -1.0)

  /**
   * The floating-point geometry the movement takes from Three.js and
   * cannon-es: `turn(v, a)` is `v.applyAxisAngle((0, 1, 0), a)`,
   * `normalize` is `Vector3.normalize`, `yawQuaternion(a)` is
   * `setFromAxisAngle((0, 1, 0), a)`, and `raycast(from, to)` is the
   * distance from `from` to the closest hit of `raycastClosest`, if any.
   */
  datatype Geometry = Geometry(turn: (Vec3, real) -> Vec3, normalize: Vec3 -> Vec3,
                               yawQuaternion: real -> Quat, raycast: (Vec3, Vec3) -> Option<real>)

  /** `movementDirection`: the key vector turned by the yaw and normalised. */
  function MoveDirection(g: Geometry, keys: map<string, bool>, yaw: real): Vec3 {
    g.normalize(g.turn(MovementVector(keys), yaw))
  }

  /** `forwardVector`: straight ahead, turned by the yaw. */
  function Forward(g: Geometry, yaw: real): Vec3 {
    g.turn(Ahead, yaw)
  }

  /** `desiredCameraPosition`: the camera offset turned by the yaw, placed at the character. */
  function DesiredCamera(g: Geometry, at: Vec3, yaw: real): Vec3 {
    Add(g.turn(CameraOffset, yaw), at)
  }

  /**
   * With the keys at rest (or cancelling) and geometry that keeps the zero
   * vector (a rotation does, and three.js's `normalize` leaves a zero
   * vector unchanged), the target velocity is zero and neither direction
   * flag is raised.
   */
  lemma IdleKeysStill(g: Geometry, keys: map<string, bool>, yaw: real)
    requires !KeysMove(keys) && g.turn(Origin, yaw) == Origin && g.normalize(Origin) == Origin
    ensures MoveDirection(g, keys, yaw) == Origin
    ensures !MovingForward(Forward(g, yaw), MoveDirection(g, keys, yaw))
    ensures !MovingBackward(Forward(g, yaw), MoveDirection(g, keys, yaw))
  {
    IdleKeyVector(keys);
    var d := MoveDirection(g, keys, yaw);
    assert d == Origin;
  }

  /** Keys that cancel or rest give the zero key vector. */
  lemma IdleKeyVector(keys: map<string, bool>)
    requires !KeysMove(keys)
    ensures MovementVector(keys) == Origin
  {
    var v := MovementVector(keys);
    assert v.x == 0.0 && v.z == 0.0;
  }

  /** The camera distance on a ray hit: 0.1 short of the hit, never beyond the maximum. */
  function CameraDistance(hitDistance: real): (d: real)
    ensures d <= MaxCameraDistance && d <= hitDistance - 0.1
    ensures d == MaxCameraDistance || d == hitDistance - 0.1
  {
    if hitDistance - 0.1 < MaxCameraDistance then hitDistance - 0.1 else MaxCameraDistance
  }

  /** There is no lower clamp: a wall closer than 0.1 puts the camera behind the character. */
  lemma CloseWallGivesNegativeDistance()
    ensures CameraDistance(0.05) < 0.0
  {
  }

  /** The direction flags of `handleMovement`, from the yaw's forward vector and the movement direction. */
  function MovingForward(forward: Vec3, direction: Vec3): bool {
    Dot(forward, direction) < 0.0 && LengthSq(direction) > StillThreshold
  }

  function MovingBackward(forward: Vec3, direction: Vec3): bool {
    Dot(forward, direction) > 0.0 && LengthSq(direction) > StillThreshold
  }

  /** The two direction flags exclude each other, and either one means real movement. */
  lemma DirectionFlagsExclusive(forward: Vec3, direction: Vec3)
    ensures !(MovingForward(forward, direction) && MovingBackward(forward, direction))
    ensures MovingForward(forward, direction) || MovingBackward(forward, direction) ==> direction != Origin
  {
  }

  /** The velocity after one smoothing step, toward `target`. */
  lemma SmoothingClosesTenthOfGap(current: Vec3, target: Vec3)
    ensures Sub(target, LerpVec(current, target, VelocitySmoothing)) == Scale(Sub(target, current), 0.9)
  {
  }

  class CharacterMovement {
    const mesh: SceneNode
    const body: Body
    const camera: Camera
    const input: Input
    var isWalking: bool
    var isMovingForward: bool
    var isMovingBackward: bool
    var currentVelocity: Vec3
    var rotationAngle: real

    constructor(mesh: SceneNode, body: Body, camera: Camera, input: Input)
      ensures this.mesh == mesh && this.body == body && this.camera == camera && this.input == input
      ensures !isWalking && !isMovingForward && !isMovingBackward
      ensures currentVelocity == Origin && rotationAngle == 2.0 * Pi
    {
      this.mesh := mesh;
      this.body := body;
      this.camera := camera;
      this.input := input;
      isWalking, isMovingForward, isMovingBackward := false, false, false;
      currentVelocity := Origin;
      rotationAngle := 2.0 * Pi;
    }

    /** `onMouseMove`: the yaw turns against the horizontal mouse delta, without any clamp. */
    method OnMouseMove(movementX: real)
      modifies this`rotationAngle
      ensures rotationAngle == old(rotationAngle) - movementX * MouseSensitivity
    {
      rotationAngle := rotationAngle - movementX * MouseSensitivity;
    }

    /**
     * `handleMovement`: the direction is the key vector turned by the yaw and
     * normalised, the forward vector (0, 0, -1) turned by the yaw. The
     * walking flag is decided on the raw key vector, whose squared length
     * passes 0.001 exactly when some pair of opposite keys does not cancel.
     * Only x and z of the body's velocity are written.
     */
    method HandleMovement(g: Geometry) returns (walking: bool)
      modifies this`currentVelocity, this`isMovingForward, this`isMovingBackward, this`isWalking, body, mesh
      ensures currentVelocity == LerpVec(old(currentVelocity),
        Scale(MoveDirection(g, input.keys, rotationAngle), MoveSpeed), VelocitySmoothing)
      ensures isMovingForward == MovingForward(Forward(g, rotationAngle), MoveDirection(g, input.keys, rotationAngle))
      ensures isMovingBackward == MovingBackward(Forward(g, rotationAngle), MoveDirection(g, input.keys, rotationAngle))
      ensures walking == isWalking
      ensures isWalking <==> KeysMove(input.keys)
      ensures body.velocity == Vec3(currentVelocity.x, old(body.velocity).y, currentVelocity.z)
      ensures body.position == old(body.position) && body.quaternion == old(body.quaternion)
      ensures mesh.position == body.position
      ensures mesh.quaternion == old(mesh.quaternion) && mesh.visible == old(mesh.visible)
    {
      var moving := KeyVectorMoves();
      var direction := g.normalize(g.turn(input.GetMovementVector(), rotationAngle));
      var forward := g.turn(Ahead, rotationAngle);
      var targetVelocity := Scale(direction, MoveSpeed);
      currentVelocity := LerpVec(currentVelocity, targetVelocity, VelocitySmoothing);
      isMovingForward := MovingForward(forward, direction);
      isMovingBackward := MovingBackward(forward, direction);
      isWalking := moving;
      body.velocity := Vec3(currentVelocity.x, body.velocity.y, currentVelocity.z);
      mesh.position := body.position;
      return isWalking;
    }

    /** The walking test of `handleMovement`: the key vector's squared length passes the threshold. */
    method KeyVectorMoves() returns (moving: bool)
      ensures moving <==> KeysMove(input.keys)
    {
      var moveVector := input.GetMovementVector();
      OppositeKeysCancel(input.keys);
      moving := LengthSq(moveVector) > StillThreshold;
    }

    /**
     * `updateCharacterRotation`: the mesh's yaw angle is set, and the body
     * takes the quaternion of the same yaw. The mesh's only rotation is a
     * yaw (it is copied from the body, which starts as one), so setting its
     * yaw angle gives it that quaternion too.
     */
    method UpdateCharacterRotation(yawQuaternion: real -> Quat)
      modifies mesh`quaternion, body`quaternion
      ensures mesh.quaternion == yawQuaternion(rotationAngle) && body.quaternion == yawQuaternion(rotationAngle)
    {
      var quaternion := yawQuaternion(rotationAngle);
      mesh.quaternion := quaternion;
      body.quaternion := quaternion;
    }

    /**
     * `updateCamera`: the camera goes to the desired point (the offset
     * turned by the yaw, at the character), or, when the ray from the
     * character toward it hits something, along the unit vector toward
     * that point by the clamped distance. The mouse deltas are consumed.
     */
    method UpdateCamera(g: Geometry)
      modifies camera`position, input`mouseX, input`mouseY
      ensures var desired := DesiredCamera(g, mesh.position, rotationAngle);
        var hit := g.raycast(mesh.position, desired);
        (hit.None? ==> camera.position == desired) &&
        (hit.Some? ==>
           camera.position ==
           Add(mesh.position, Scale(g.normalize(Sub(desired, mesh.position)), CameraDistance(hit.value))))
      ensures input.mouseX == 0.0 && input.mouseY == 0.0
    {
      var desired := Add(g.turn(CameraOffset, rotationAngle), mesh.position);
      var hitDistance := g.raycast(mesh.position, desired);
      if hitDistance.Some? {
        var direction := g.normalize(Sub(desired, mesh.position));
        camera.position := Add(mesh.position, Scale(direction, CameraDistance(hitDistance.value)));
      } else {
        camera.position := desired;
      }
      input.ResetMouseMovement();
    }

    /**
     * `update`: movement, rotation and camera in that order. It returns
     * nothing, although `handleMovement` reports whether the player walks.
     */
    method Update(g: Geometry)
      modifies this`currentVelocity, this`isMovingForward, this`isMovingBackward, this`isWalking, body, mesh
      modifies camera`position, input`mouseX, input`mouseY
      ensures var direction := MoveDirection(g, input.keys, rotationAngle);
        currentVelocity == LerpVec(old(currentVelocity), Scale(direction, MoveSpeed), VelocitySmoothing) &&
        isMovingForward == MovingForward(Forward(g, rotationAngle), direction) &&
        isMovingBackward == MovingBackward(Forward(g, rotationAngle), direction)
      ensures isWalking <==> KeysMove(input.keys)
      ensures body.velocity == Vec3(currentVelocity.x, old(body.velocity).y, currentVelocity.z)
      ensures body.position == old(body.position) && body.quaternion == g.yawQuaternion(rotationAngle)
      ensures mesh.position == body.position
      ensures mesh.quaternion == g.yawQuaternion(rotationAngle) && mesh.visible == old(mesh.visible)
      ensures var desired := DesiredCamera(g, mesh.position, rotationAngle);
        var hit := g.raycast(mesh.position, desired);
        (hit.None? ==> camera.position == desired) &&
        (hit.Some? ==>
           camera.position ==
           Add(mesh.position, Scale(g.normalize(Sub(desired, mesh.position)), CameraDistance(hit.value))))
      ensures input.keys == old(input.keys) && input.mouseX == 0.0 && input.mouseY == 0.0
      ensures rotationAngle == old(rotationAngle)
    {
      var _ := HandleMovement(g);
      UpdateCharacterRotation(g.yawQuaternion);
      UpdateCamera(g);
    }

    function GetIsWalking(): bool reads this { isWalking }

    function GetIsMovingForward(): bool reads this { isMovingForward }

    function GetIsMovingBackward(): bool reads this { isMovingBackward }
  }
}
