# A verified model of the pumpkin-house room game

This project models the game logic of a small Three.js / cannon-es
browser game. The player walks through a house of rooms connected by doors,
collects three rose petals, carries a flower past a rotten pumpkin, shoots
skeletons, and finally reaches the rose. The model covers:

- the room manager: building the room table, switching rooms, door
  transitions and entry points, and pumpkin conversations;
- the room base class and the seven concrete rooms (1, 2, 4, 5, 7, 8, 9):
  decorations, walls and floor bodies, pickups, the trap timer, the
  skeleton fight, the flower chase and the end condition;
- the characters: the player model, the pumpkin NPC with its dialogue
  cycle, the enemy skeleton and the rotten pumpkin;
- the controllers: the keyboard/mouse input map and character movement;
- the animation layer: the shoot recoil animation, the hybrid walk system,
  the walk-cycle and skeleton animation loaders, the skeleton animation
  system and the pose save/load panel;
- the offline pose tools: the Blender-to-Three.js converters (Python and
  JavaScript) and the pose-file quote cleaner.

Objects whose fields the game updates in place are Dafny classes. Each
method has a `modifies` frame and an `ensures` that states the new state.
Pure computations are functions, and lemmas prove the properties that link
operations (caps, at-most-once flags, round trips, cyclic indices and
emptiness after teardown).

A room subclass is a class holding its `RoomBase` part
(`const base: RoomBase`). The manager keeps its rooms in a
`map<int, RoomRef>`, where `RoomRef` is a datatype with one case per room
class.

Positions and angles are exact `real`s. Distances are compared as squared
distances against squared thresholds.

Clock readings (`Date.now()`, `performance.now()`) are `real` parameters.

The following are function-typed or boolean parameters (oracles) supplied
by the caller:
- ray and sphere hit tests;
- asset loads;
- vector normalisation (`normalize`), which the player's movement and camera
  and the rotten pumpkin's chase apply to vectors they compute themselves;
- rotation about the vertical axis (`applyAxisAngle`, `setFromAxisAngle`),
  gathered with normalisation and the camera ray in `Movement.Geometry`;
- the rotten pumpkin's turn toward its step direction (`atan2` written into
  `head.rotation.y`), as a function from that direction to a quaternion;
- slerp.

An asynchronous GLTF load callback is a separate `On...Loaded` method,
which the environment may or may not call.

JavaScript's `%` (truncating, and NaN for a zero divisor) is written out
in `JsMath` and `Npc.JsIndex`, because Dafny's `%` is Euclidean.

## Model

| member | source | states |
|---|---|---|
| JsMath.Trunc | src/animations/HybridAnimationSystem.js:65 | the integer part toward zero: between zero and the value, and less than one away from it |
| JsMath.RealRem | src/animations/HybridAnimationSystem.js:62 | JavaScript's `%` on numbers: the sign of the dividend, and smaller in magnitude than the divisor |
| JsMath.IntRem | src/characters/pumpkinNPC.js:109 | JavaScript's `%` on integers: the sign of the dividend, smaller in magnitude than the divisor, and differing from the dividend by a multiple of it |
| JsMath.RealRemByOne | src/animations/HybridAnimationSystem.js:62 | for a non-negative number, JavaScript's `% 1` is its fractional part, in [0, 1) |
| JsMath.IntRemAgrees | src/characters/pumpkinNPC.js:109 | on a non-negative dividend and a positive divisor, JavaScript's `%` agrees with Dafny's and lies in [0, divisor) |
| InputController.FirstTruthy | src/controllers/Input.js:28-29 | `a || b || c || 0`: the first of the three event fields that is present and non-zero, and 0 exactly when all three are missing or zero |
| InputController.MovementVector | src/controllers/Input.js:61-72 | x is 1 exactly for a without d and -1 exactly for d without a; z is 1 for w without s and -1 for s without w; y is 0 |
| InputController.OppositeKeysCancel | src/controllers/Input.js:61-72 | opposite keys cancel; the vector is zero exactly when no axis moves, and otherwise has length at least 1 |
| InputController.LowerIsNeverSpace | src/controllers/Input.js:33-34 | a lower-cased key name is never "Space", so no key event changes the Space entry |
| InputController.Input.constructor | src/controllers/Input.js:4-24 | the nine tracked keys start released; the mouse deltas and the wheel start at 0; both buttons start up |
| InputController.Input.OnMouseMove | src/controllers/Input.js:27-30 | the deltas are overwritten, not added to |
| InputController.Input.OnKeyDown | src/controllers/Input.js:32-35 | a tracked key, after lower-casing, becomes pressed; an untracked key changes nothing; the key set stays the same |
| InputController.Input.OnKeyUp | src/controllers/Input.js:37-40 | a tracked key, after lower-casing, is released; an untracked key changes nothing; the key set stays the same |
| InputController.Input.OnMouseDown | src/controllers/Input.js:42-47 | button 0 sets the trigger flag and button 2 the aim flag; other buttons change nothing |
| InputController.Input.OnMouseUp | src/controllers/Input.js:49-54 | button 0 clears the trigger flag and button 2 the aim flag; other buttons change nothing |
| InputController.Input.OnWheel | src/controllers/Input.js:56-58 | the wheel value becomes the event's deltaY |
| InputController.Input.ClearWheel | src/controllers/Input.js:74-76 | the wheel value becomes 0 |
| InputController.Input.ResetMouseMovement | src/controllers/Input.js:78-81 | both mouse deltas become 0 |
| Movement.CameraDistance | src/controllers/characterMovement.js:110 | the camera stops 0.1 short of a hit and never beyond 0.2: the result is the smaller of the two bounds |
| Movement.CloseWallGivesNegativeDistance | src/controllers/characterMovement.js:110 | there is no lower clamp: a hit 0.05 away gives a negative distance, so the camera goes behind the character |
| Movement.DirectionFlagsExclusive | src/controllers/characterMovement.js:62-63 | the forward and backward flags never hold together, and either one means the direction is not zero |
| Movement.SmoothingClosesTenthOfGap | src/controllers/characterMovement.js:57 | one lerp by 0.1 leaves nine tenths of the gap to the target velocity |
| Movement.CharacterMovement.constructor | src/controllers/characterMovement.js:6-36 | the flags start false, the velocity at zero and the yaw at 2π |
| Movement.CharacterMovement.OnMouseMove | src/controllers/characterMovement.js:38-40 | the yaw drops by movementX times 0.004, without a clamp |
| Movement.IdleKeysStill | src/controllers/characterMovement.js:48-63 | with the keys at rest or cancelling, and a rotation and normalisation that keep the zero vector, the move direction is zero and neither direction flag is raised |
| Movement.CharacterMovement.HandleMovement | src/controllers/characterMovement.js:48-72 | the velocity moves a tenth of the way to 8 times the direction, which is the key vector turned by the yaw and normalised; the flags compare it with straight ahead turned by the yaw; the flags follow the dot product; the player walks exactly when some opposite-key pair does not cancel; only x and z of the body velocity are written; the mesh moves to the body |
| Movement.CharacterMovement.KeyVectorMoves | src/controllers/characterMovement.js:64 | the key vector's squared length passes 0.001 exactly when some opposite-key pair does not cancel |
| Movement.CharacterMovement.UpdateCharacterRotation | src/controllers/characterMovement.js:82-90 | the mesh and the body both take the quaternion of the yaw about the vertical axis (the mesh's only rotation is its yaw) |
| Movement.CharacterMovement.UpdateCamera | src/controllers/characterMovement.js:96-123 | the desired point is the camera offset (-0.1, 0.15, -0.32) turned by the yaw, at the character; without a hit on the ray toward it the camera goes there; with one it goes along the unit vector toward it by the clamped distance; the mouse deltas are reset |
| Movement.CharacterMovement.Update | src/controllers/characterMovement.js:42-46 | movement, rotation and camera run in that order, with their combined effect, all computed from the same rotation, normalisation and camera ray; the mesh and the body take the yaw's quaternion; the yaw and the keys do not change |
| Npc.NextIndex | src/characters/pumpkinNPC.js:109 | `(index + 1) % length` as JavaScript computes it: it stays in range and steps forward, wraps from the last line to 0, and is NaN for an empty list or a NaN index |
| Npc.DialogueAt | src/characters/pumpkinNPC.js:103-105 | a line exactly when the index is an integer in range, and that line; otherwise undefined |
| Npc.PumpkinNPC.GetDialogueOptions | src/characters/pumpkinNPC.js:103-105 | a line exactly when the index is an in-range number, and then the line at that index |
| Npc.ProgressCycles | src/characters/pumpkinNPC.js:107-115 | from the first line, steps 1 to length-1 visit the lines in order and step `length` is back at the first |
| Npc.ToggleAlternates | src/characters/pumpkinNPC.js:141-147 | each toggle changes the face texture, and two toggles restore it |
| Npc.PumpkinNPC.constructor | src/characters/pumpkinNPC.js:5-63 | the group is added to the scene at the position; a static 0.1 half-extent box body at the same spot is added to the world; the conversation starts idle at index 0 with the normal face |
| Npc.PumpkinNPC.SetDialogue | src/characters/pumpkinNPC.js:65-68 | the dialogue becomes the one line, shown from the start |
| Npc.PumpkinNPC.CheckPlayerProximity | src/characters/pumpkinNPC.js:98-101 | true exactly when the player is closer than 0.3; the `undefined` of the other branch reads as false |
| Npc.PumpkinNPC.ProgressDialogue | src/characters/pumpkinNPC.js:107-115 | during a conversation the index moves on cyclically and the new line is reported; otherwise nothing changes and nothing is reported |
| Npc.PumpkinNPC.StartTalking | src/characters/pumpkinNPC.js:117-128 | the conversation opens at index 0 and the first line, if any, is reported |
| Npc.PumpkinNPC.StopTalking | src/characters/pumpkinNPC.js:130-139 | the conversation closes at index 0, the normal face comes back and null is reported |
| Npc.PumpkinNPC.ToggleTexture | src/characters/pumpkinNPC.js:141-147 | the face switches between the normal and the talking texture |
| Npc.PumpkinNPC.RemoveFromScene | src/characters/pumpkinNPC.js:173-176 | exactly the group leaves the scene and exactly the body leaves the world |
| RottenPumpkins.Target | src/characters/rottenPumpkin.js:50-54 | a given flower position is the target; otherwise the player is |
| RottenPumpkins.FlowerProtects | src/characters/rottenPumpkin.js:64-68 | with a flower on the floor the player is never caught; without one, the player is caught exactly when closer than 0.3 |
| RottenPumpkins.RottenPumpkin.constructor | src/characters/rottenPumpkin.js:12-37 | the head is added to the scene at (0, -0.1, 0) and a box body of mass 1 at the head is added to the world; the position argument is never read |
| RottenPumpkins.RottenPumpkin.CheckPlayerProximity | src/characters/rottenPumpkin.js:39-42 | true exactly when the head is closer than 0.3 to the player |
| RottenPumpkins.StepApproaches | src/characters/rottenPumpkin.js:57-59 | when the unit vector is the offset to the target scaled by k, the step is the lerp toward the target by k × step, its squared distance to the target is (1 − k × step)² times the old one, and a step no longer than the distance never moves the head away |
| RottenPumpkins.RottenPumpkin.Update | src/characters/rottenPumpkin.js:49-69 | the target is recorded; the head moves speed times deltaTime along the normalised offset from the head to the target and turns to the heading of that unit vector; the body follows; the result is true exactly when no flower is down and the moved head is within 0.3 |
| RottenPumpkins.RottenPumpkin.RemoveFromScene | src/characters/rottenPumpkin.js:81-84 | exactly the head leaves the scene and exactly the body leaves the world |
| Enemies.ChaseStep | src/characters/enemySkeleton.js:85-86 | only x and z move, by speed 0.2 times deltaTime along the direction; the height is kept; no time or no direction means no move |
| Enemies.AttackingBlocksForever | src/characters/enemySkeleton.js:114-122 | from a skeleton that is attacking, no run of `attack` calls at any times makes an attack: `setAnimation` ignores the reset callback and no method clears `isAttacking` |
| Enemies.AtMostOneAttack | src/characters/enemySkeleton.js:112-126 | any run of `attack` calls makes at most one attack, and exactly one when the skeleton was not attacking and some call comes more than 2000 ms after the last attack time |
| Enemies.EnemySkeleton.constructor | src/characters/enemySkeleton.js:7-31 | 20 hit points, no attack under way, last attack at 0, idle, nothing loaded, hit sphere centred on the spawn point |
| Enemies.EnemySkeleton.OnModelLoaded | src/characters/enemySkeleton.js:33-76 | the mesh at the spawn point is added to the scene and a mass-1 box body there is added to the world; an animation system exists exactly when the model has a skinned mesh; the skeleton counts as loaded |
| Enemies.EnemySkeleton.OnAnimationsLoaded | src/characters/enemySkeleton.js:58-60 | the walk and attack clips are stored and the walk clip starts from progress 0 |
| Enemies.EnemySkeleton.Attack | src/characters/enemySkeleton.js:112-126 | the attack succeeds exactly when the 2000 ms cooldown has passed and no attack is under way; then the time is recorded and the attack clip starts from the beginning if it is loaded, the animation being kept otherwise; a refused attack changes nothing; an attack under way is never cleared |
| Enemies.EnemySkeleton.Move | src/characters/enemySkeleton.js:81-98 | the body takes one chase step; the mesh and the hit centre follow it; both take the turned orientation |
| Enemies.EnemySkeleton.Decide | src/characters/enemySkeleton.js:103-109 | within 0.3 an attack is tried with the gate above, and a refused one keeps the state; out of range there is no attack and the state becomes walking; the clip switches (attack or walk, restarting it if loaded) exactly when an attack starts or the state changes, and otherwise the clip and its progress are kept; an attack under way is never cleared |
| Enemies.EnemySkeleton.Update | src/characters/enemySkeleton.js:78-110 | a skeleton that is not fully loaded changes nothing in itself, its mesh, its body, its animation system or its bones; otherwise it takes one chase step with the mesh following, mesh and body take the turned orientation, the bones take the pose sampled at the advanced progress, and it throws exactly when that sample throws, which leaves the hit centre, state, attack fields and clip as they were; without a throw the hit centre follows and it attacks within 0.3 when the gate allows or walks when out of range, the clip switching exactly then; an attack under way is never cleared |
| Enemies.EnemySkeleton.MoveAndAnimate | src/characters/enemySkeleton.js:85-96 | the chase step, the turned orientation of mesh and body, and one animation update: progress advances, the bones take the sampled pose, and the throw happens exactly when that sample throws |
| Enemies.EnemySkeleton.TakeDamage | src/characters/enemySkeleton.js:128-133 | one hit point is lost; at zero or below the mesh leaves the scene and the body the world, and this throws exactly when there is no body; above zero the scene and the world stay as they were |
| Enemies.EnemySkeleton.Die | src/characters/enemySkeleton.js:135-138 | exactly the mesh, if any, leaves the scene; the body leaves the world, and a missing body throws (the world's `removeBody` reads the missing body), leaving the world as it was |
| Skeletons.Skeleton.ApplyPose | src/animations/skeletonAnimationSystem.js:41-48 | every bone named in the pose takes the pose's rotation; a name the skeleton lacks is skipped; every other bone keeps its rotation |
| SkeletonAnimationLoading.SkeletonAnimationLoader.constructor | src/animations/skeletonanimationLoader.js:11-13 | no animation is loaded |
| SkeletonAnimationLoading.SkeletonAnimationLoader.LoadAnimation | src/animations/skeletonanimationLoader.js:15-36 | the named list becomes the successful fetches in order, closed into a cycle by repeating the first; other names are untouched |
| SkeletonAnimationLoading.SkeletonAnimationLoader.GetInterpolatedPose | src/animations/skeletonanimationLoader.js:38-61 | null exactly for an unknown name or a list shorter than two; otherwise the keyframe sample at that progress |
| SkeletonAnimationLoading.OneSuccessPlays | src/animations/skeletonanimationLoader.js:15-61 | one successful fetch is enough: the loaded list can be sampled, and at progress 1 it gives the first pose again |
| SkeletonAnimation.SkeletonAnimationSystem.constructor | src/animations/skeletonAnimationSystem.js:12-23 | an empty loader, the walk clip selected, progress 0, speed 1 |
| SkeletonAnimation.SkeletonAnimationSystem.LoadAnimations | src/animations/skeletonAnimationSystem.js:25-28 | the walk list and then the attack list are loaded, two poses each |
| SkeletonAnimation.SkeletonAnimationSystem.Update | src/animations/skeletonAnimationSystem.js:30-39 | progress advances by deltaTime times the speed and wraps past 1 (`NextProgress`); the update throws exactly when the sample at the new progress throws (two poses naming different bones), and then no bone changes; otherwise the sampled pose, if any, is applied to the bones |
| SkeletonAnimation.SkeletonAnimationSystem.ApplyCurrent | src/animations/skeletonAnimationSystem.js:34-37 | throws exactly when the sample at the current progress throws, and then no bone changes; otherwise the sampled pose is applied, and nothing when there is none |
| SkeletonAnimation.SkeletonAnimationSystem.ApplyPose | src/animations/skeletonAnimationSystem.js:41-48 | the bones become the pose applied over them |
| SkeletonAnimation.SkeletonAnimationSystem.SetAnimation | src/animations/skeletonAnimationSystem.js:50-57 | a loaded name becomes current and restarts at 0, even when its list is empty; an unloaded name changes nothing |
| SkeletonAnimation.SkeletonAnimationSystem.SetAnimationSpeed | src/animations/skeletonAnimationSystem.js:59-61 | the speed becomes the argument |
| SkeletonAnimation.PoseToApply | src/animations/skeletonAnimationSystem.js:34-37 | a sampled pose is applied as it is; no clip (null) or a throwing sample applies the empty pose |
| SkeletonAnimation.NothingLoadedAppliesNothing | src/animations/skeletonAnimationSystem.js:34-37 | an animation that was never loaded leaves every bone as it was |
| Poses.LerpPose | src/animations/walkCycleLoader.js:43-50 | defined exactly when every bone of the current pose is in the next one; then each of those bones is the lerp of its rotation toward the next pose, and no other bone appears |
| Poses.LerpPoseAtZero | src/animations/walkCycleLoader.js:43-50 | a blend factor of 0 gives back the current pose |
| Poses.LerpPoseAtOne | src/animations/walkCycleLoader.js:43-50 | a blend factor of 1 gives the next pose restricted to the current pose's bones |
| Poses.Applied | src/animations/HybridAnimationSystem.js:110-118 | the bone set is unchanged; each bone the pose names takes its rotation; the others keep theirs |
| Poses.AppliedCaptured | src/animations/pose-control-system.js:41-65 | applying a pose captured from the bones changes nothing |
| Poses.AppliedTwice | src/animations/HybridAnimationSystem.js:110-118 | when the second pose names every bone the first does, the second alone decides the result |
| Keyframes.Span | src/animations/skeletonanimationLoader.js:43 | the span `1 / (n - 1)` of a list of at least two poses is positive |
| Keyframes.SampleAt | src/animations/skeletonanimationLoader.js:38-61 | for non-negative progress the index is non-negative and the factor in [0, 1); progress in [0, 1) picks an index at most n − 2; negative progress gives a negative index; an index outside the list gives the empty pose; inside, the sample is defined exactly when the next pose names every bone of the current one, and then has the current pose's bones |
| Keyframes.ScaledProgress | src/animations/skeletonanimationLoader.js:43-45 | dividing progress by the span multiplies it by the number of spans |
| Keyframes.FactorIsFraction | src/animations/skeletonanimationLoader.js:45-46 | for non-negative progress the index is non-negative and the factor is the fractional part of progress times (n - 1), so it lies in [0, 1) |
| Keyframes.IndexInRange | src/animations/skeletonanimationLoader.js:45-49 | progress in [0, 1) picks a span whose successor lies inside the list |
| Keyframes.NegativeIndex | src/animations/skeletonanimationLoader.js:45 | negative progress truncates to a negative keyframe index, which reads undefined in the pose list |
| Keyframes.AtKeyframe | src/animations/walkCycleLoader.js:33-53 | progress k / (n - 1) lands on keyframe k with factor 0, so the sample is keyframe k itself |
| Keyframes.AtStart | src/animations/walkCycleLoader.js:33-53 | progress 0 samples the first keyframe exactly |
| Keyframes.CycleCloses | src/animations/walkCycleLoader.js:25-53 | when the list ends with a copy of its first pose, progress 1 samples the same pose as progress 0 |
| Keyframes.CloseCycle | src/animations/walkCycleLoader.js:25-30 | an empty list stays empty; otherwise the first pose is appended once more and nothing else changes |
| Keyframes.SuccessesCount | src/animations/walkCycleLoader.js:12-23 | the loop keeps at most one pose per fetch, all of them when every fetch succeeds, and none when all fail |
| Keyframes.SuccessesMembers | src/animations/walkCycleLoader.js:12-23 | a pose is kept exactly when some fetch returned it |
| Keyframes.LoadedCycleCloses | src/animations/skeletonanimationLoader.js:15-61 | a list loaded with at least one pose has at least two entries, and progress 1 samples the first pose again |
| Keyframes.WrapsStayInUnit | src/animations/HybridAnimationSystem.js:61-68 | for a non-negative step both wraps keep progress in [0, 1] |
| Keyframes.AdvanceCases | src/animations/HybridAnimationSystem.js:61-62 | `p += step; if (p > 1) p %= 1`: the sum while it is at most 1, and past 1 a value in [0, 1) that is the sum less a whole number |
| Keyframes.RetreatCases | src/animations/HybridAnimationSystem.js:64-65 | `p -= step; if (p < 0) p = 1 + (p % 1)`: the difference while it is not negative, and below 0 a value in (0, 1] that is the difference plus a whole number |
| WalkCycle.WalkSample | src/animations/walkCycleLoader.js:33-53 | with a single step the span is infinite and that step is returned; with none the bone loop over `undefined` yields an empty pose |
| WalkCycle.WalkCycleLoader.constructor | src/animations/walkCycleLoader.js:4-8 | no steps; index and factor 0 |
| WalkCycle.WalkCycleLoader.LoadSteps | src/animations/walkCycleLoader.js:10-31 | the successful fetches of the six files are appended in order to what was there, and the first pose is appended once more |
| WalkCycle.WalkCycleLoader.GetInterpolatedPose | src/animations/walkCycleLoader.js:33-53 | the pose is the keyframe sample at that progress, and the span index and factor are recorded |
| WalkCycle.FullLoad | src/animations/walkCycleLoader.js:10-31 | when all six fetches succeed, seven poses are loaded and the last is the first again |
| WalkCycle.SuccessesFirst | src/animations/walkCycleLoader.js:12-19 | when the first fetch succeeds, the first pose kept is the one it fetched |
| HybridAnimation.WalkProgressInUnit | src/animations/HybridAnimationSystem.js:58-73 | for a non-negative step, walk progress never leaves [0, 1] |
| HybridAnimation.ForwardIsPlainWalking | src/animations/HybridAnimationSystem.js:60-69 | walking forward and walking with neither direction flag step the cycle the same way |
| HybridAnimation.WalkProgressCases | src/animations/HybridAnimationSystem.js:59-69 | not walking keeps the progress; walking forward or with neither flag adds the step, and backward subtracts it, whenever no wrap is needed |
| HybridAnimation.WalkPoseCases | src/animations/HybridAnimationSystem.js:71-72 | no steps apply nothing, one step applies that step, negative progress applies nothing, and on a chained cycle with progress in [0, 1) the pose applied is the walk sample's pose |
| HybridAnimation.IKGuard | src/animations/HybridAnimationSystem.js:90-93 | the guard always exits: `!iks.length` is a boolean, which is always below 2 |
| HybridAnimation.HybridAnimationSystem.constructor | src/animations/HybridAnimationSystem.js:6-18 | an empty walk cycle, progress 0, speed 1, the idle state, no IK request |
| HybridAnimation.HybridAnimationSystem.Update | src/animations/HybridAnimationSystem.js:58-83 | while walking, progress steps forward, backward or forward as the flags say and the sampled pose is applied; standing still changes no bone; a pending IK request is consumed |
| HybridAnimation.HybridAnimationSystem.ApplyWalkPose | src/animations/HybridAnimationSystem.js:71-72 | the walk pose sampled at the current progress is applied; the loaded steps do not change |
| HybridAnimation.HybridAnimationSystem.SetNeedsIKUpdate | src/animations/HybridAnimationSystem.js:85-87 | an IK update is requested |
| HybridAnimation.HybridAnimationSystem.UpdateIKTargets | src/animations/HybridAnimationSystem.js:89-108 | the method always takes the warning exit, so no foot target moves |
| HybridAnimation.HybridAnimationSystem.ApplyPose | src/animations/HybridAnimationSystem.js:110-118 | the bones become the pose applied over them |
| HybridAnimation.HybridAnimationSystem.TransitionTo | src/animations/HybridAnimationSystem.js:120-123 | the state becomes the new state |
| Skeletons.Skeleton.Capture | src/animations/ShootAnimationSystem.js:39-49 | one entry per bone, and applying the capture to the bones changes nothing |
| ShootAnimation.ShootBlend | src/animations/ShootAnimationSystem.js:68-78 | no captured start gives an empty pose; with both poses it is their blend; a non-empty start with no recoil pose is the TypeError |
| ShootAnimation.BlendProgress | src/animations/ShootAnimationSystem.js:56-65 | up to 1 the blend runs outward, up to 2 it runs back at 2 - progress, beyond 2 there is none |
| ShootAnimation.ReturnMirrorsOutward | src/animations/ShootAnimationSystem.js:56-62 | progress 1 + u blends exactly like progress 1 - u |
| ShootAnimation.BlendEnds | src/animations/ShootAnimationSystem.js:68-78 | the blend starts at the captured pose and peaks at the recoil pose on the captured bones |
| ShootAnimation.PhaseEnds | src/animations/ShootAnimationSystem.js:51-78 | at progress 1 the recoil pose is shown on the captured bones, and at progress 2 the captured pose is back |
| ShootAnimation.ShootAnimationSystem.constructor | src/animations/ShootAnimationSystem.js:4-17 | no poses yet, not animating, progress 0 |
| ShootAnimation.ShootAnimationSystem.OnRecoilLoaded | src/animations/ShootAnimationSystem.js:19-27 | a fetched recoil pose is stored; a failed fetch changes nothing |
| ShootAnimation.ShootAnimationSystem.StartShootAnimation | src/animations/ShootAnimationSystem.js:29-37 | refused exactly while animating, and then nothing changes; otherwise it restarts at 0 from the captured current pose |
| ShootAnimation.ShootAnimationSystem.CaptureCurrentPose | src/animations/ShootAnimationSystem.js:39-49 | one entry per bone, and applying it changes no bone |
| ShootAnimation.ShootAnimationSystem.Update | src/animations/ShootAnimationSystem.js:51-66 | idle does nothing; otherwise progress grows by deltaTime / 0.2, the animation stays on exactly while progress is at most 2, and the phase's blend is applied unless it throws |
| ShootAnimation.ShootAnimationSystem.GetInterpolatedPose | src/animations/ShootAnimationSystem.js:68-78 | when the recoil pose covers the captured bones, the blend is defined on exactly those bones |
| ShootAnimation.ShootAnimationSystem.ApplyPose | src/animations/ShootAnimationSystem.js:80-88 | the bones become the pose applied over them |
| ShootAnimation.ShootAnimationSystem.CanShoot | src/animations/ShootAnimationSystem.js:90-92 | true exactly when no recoil is playing |
| PoseControl.PoseControlSystem.constructor | src/animations/pose-control-system.js:5-10 | the system works on the given skeleton |
| PoseControl.PoseControlSystem.SavePose | src/animations/pose-control-system.js:41-51 | one entry per bone, holding that bone's rotation |
| PoseControl.PoseControlSystem.LoadPose | src/animations/pose-control-system.js:53-65 | each bone the pose names takes its saved rotation; other bones and unknown names are left alone |
| PoseControl.PoseControlSystem.LoadBasePose | src/animations/pose-control-system.js:67-75 | a failed fetch or parse changes nothing; a fetched pose is loaded |
| Text.LowerChar | src/poses/blender/poseConverter.py:6 | an upper-case ASCII letter moves 32 code points down to its lower case; every other character is kept |
| Text.Lower | src/controllers/Input.js:33 | the same length, each character lower-cased |
| Text.LowerIdempotent | src/poses/blender/poseConverter.py:6 | lower-cased text has no upper-case letter, and lower-casing it again changes nothing |
| Text.StripLeft | src/utils/reFormattingPoses.py:7 | `str.lstrip()`: a suffix of the text whose removed prefix is all whitespace, and which is empty or starts with a non-space |
| Text.StripRight | src/utils/reFormattingPoses.py:7 | `str.rstrip()`: a prefix of the text whose removed suffix is all whitespace, and which is empty or ends with a non-space |
| Text.Strip | src/utils/reFormattingPoses.py:7 | `str.strip()`: a piece of the text with only whitespace around it, which neither starts nor ends with whitespace |
| Text.StripIsCore | src/utils/reFormattingPoses.py:7 | whitespace around a text that neither starts nor ends with whitespace strips to exactly that text |
| PoseConverterPy.CalculateOffset | src/poses/blender/poseConverter.py:18-27 | an entry for exactly the bones in both bases, each the Three.js rotation minus the Blender one on each axis |
| PoseConverterPy.ConvertAngles | src/poses/blender/poseConverter.py:29-38 | an entry for exactly the bones that have an offset, each the Blender rotation plus the offset |
| PoseConverterPy.BaseRoundTrip | src/poses/blender/poseConverter.py:18-38 | converting the Blender base with the offset gives back the Three.js base on every shared bone |
| PoseConverterPy.FindFileCaseInsensitive | src/poses/blender/poseConverter.py:4-8 | the first listed name equal to the wanted one ignoring case; none exactly when no listed name matches |
| PoseConverterPy.ReplaceAll | src/poses/blender/poseConverter.py:45 | `str.replace` left to right: a replacement of the pattern's length keeps the length, and a text without the pattern's first character is unchanged |
| PoseConverterPy.ReplaceTrailing | src/poses/blender/poseConverter.py:45 | a stem without the pattern's first character followed by the pattern becomes the stem followed by the replacement |
| PoseConverterPy.OutputNameReplacesSuffix | src/poses/blender/poseConverter.py:45 | a name whose stem has no `B` gets exactly its trailing "Blender.json" replaced by "ThreeJS.json"; a stem containing "Blender.json" itself would be changed too |
| PoseConverterPy.OutputName | src/poses/blender/poseConverter.py:45 | `str.replace("Blender.json", "ThreeJS.json")`: the name keeps its length, and a name with no `B` is unchanged |
| PoseConverterPy.BaseExclusionNeedsBareName | src/poses/blender/poseConverter.py:56-104 | the base export is skipped only when the base argument is its bare name; the later entry blocks pass a joined path, so the base export is then converted too |
| PoseConverterPy.ConversionsSelected | src/poses/blender/poseConverter.py:49-58 | every write comes from a selected, readable listing entry, converted with the offset and saved under the output name |
| PoseConverterPy.SelectedFiles | src/poses/blender/poseConverter.py:55-56 | exactly the listed names that end in "Blender.json" and are not the base argument |
| PoseConverterPy.Conversions | src/poses/blender/poseConverter.py:49-58 | at most one write per selected file, and one for each when no read fails |
| PoseConverterPy.ConversionsInOrder | src/poses/blender/poseConverter.py:49-58 | with every file readable the run does not fail and writes, in listing order, one pose per selected file: the file's angles plus the offset, under the file's output name |
| PoseConverterJs.ConvertAnglesWithBase | src/poses/blender/poseConverte.js:14-26 | an entry for exactly the Blender bones the base has, each the Blender rotation plus the base rotation |
| PoseConverterJs.ConvertersAgreeOnZeroBase | src/poses/blender/poseConverte.js:14-26 | the two converters agree exactly when the Blender base is zero on every bone converted |
| ReformattingPoses.Unquote | src/utils/reFormattingPoses.py:10-11 | text that starts and ends with a quote loses one quote at each end, and a lone quote leaves nothing; other text is kept |
| ReformattingPoses.Reformat | src/utils/reFormattingPoses.py:4-27 | a value is written back exactly when the cleaned text parses; ReformatWritesParsedCore says which text that is |
| ReformattingPoses.Cleaned | src/utils/reFormattingPoses.py:7-11 | a piece of the raw text, no longer than it |
| ReformattingPoses.CleanedText | src/utils/reFormattingPoses.py:7-11 | whitespace around a trimmed core is stripped and then one layer of quotes removed: the core without its quotes when quoted, otherwise the core itself |
| ReformattingPoses.UnquoteCases | src/utils/reFormattingPoses.py:10-11 | a quoted text of length at least 2 loses its first and last characters, and an unquoted one is kept |
| ReformattingPoses.ReformatWritesParsedCore | src/utils/reFormattingPoses.py:7-16 | for whitespace around a trimmed core, what is written is the parse of the unquoted core |
| ReformattingPoses.UnquoteOneLayer | src/utils/reFormattingPoses.py:10-11 | only one layer of quotes is removed |
| ReformattingPoses.JsonFiles | src/utils/reFormattingPoses.py:29-35 | exactly the files whose names end in ".json", and no more of them than were listed |
| Doors.OppositeEntryPoint | src/scenes/RoomManager.js:192-197 | yaw 0 enters from the south, π from the north, π/2 from the west and -π/2 from the east; any other yaw gives `undefined`, and only then |
| Doors.OppositeEntryPointBijective | src/scenes/RoomManager.js:192-197 | the four canonical yaws name four different walls, and every wall is named by one of them |
| Doors.EntryInsideRoom | src/scenes/RoomManager.js:118-131 | the entry point is 0.4 below the centre, 0.5 in from the named wall and centred along it, so it lies inside any room more than 1 wide and deep |
| Doors.EntryPosition | src/scenes/RoomManager.js:118-133 | 0.4 below the room centre, keeping x for a north or south wall and z for an east or west wall |
| Rooms.Surfaces | src/scenes/RoomBase.js:134-147 | there are six wall boxes |
| Rooms.SurfacesEncloseRoom | src/scenes/RoomBase.js:134-147 | the walls are mirrored pairs of equal boxes; each sits on one axis at the half extent plus 0.07 and is 0.1 thick on that axis |
| Rooms.RoomBase.constructor | src/scenes/RoomBase.js:5-35 | id, size, position and connections come from the configuration; no mesh, no bodies, no decorations, no input, textures not loaded |
| Rooms.RoomBase.AddDecorativeObject | src/scenes/RoomBase.js:37-39 | exactly one entry is appended to the decorations |
| Rooms.RoomBase.AddSceneObject | src/scenes/rooms/Room2.js:41-56 | a new visible node at the position is added to the scene and appended to the decorations |
| Rooms.RoomBase.AddLoadedModel | src/scenes/rooms/Room1.js:29-30 | the model is added to the scene and appended to the decorations |
| Rooms.RoomBase.PlaceLoadedModel | src/scenes/rooms/Room1.js:27-30 | the model is placed at the position, added to the scene and appended to the decorations |
| Rooms.RoomBase.AddStaticBox | src/scenes/rooms/Room4.js:80-90 | a new static box body at the position is added to the world and appended to the decorations |
| Rooms.RoomBase.RemoveDecorativeObjects | src/scenes/RoomBase.js:56-65 | every tracked scene object leaves the scene and every tracked body the world; other entries are skipped; the list ends empty |
| Rooms.RoomBase.LoadTextures | src/scenes/RoomBase.js:67-99 | the loaded flag is set exactly when all three textures arrive, and never cleared |
| Rooms.RoomBase.CreateGeometry | src/scenes/RoomBase.js:101-123 | textures load only while not yet loaded; a new cube mesh at the room's position is added to the scene and to the decorations |
| Rooms.RoomBase.SetInput | src/scenes/RoomBase.js:125-127 | the room keeps the input |
| Rooms.RoomBase.CreatePhysics | src/scenes/RoomBase.js:133-165 | six new static wall boxes, each placed as its surface says, are added to the world and appended to the tracked bodies, which keep their earlier entries |
| Rooms.RoomBase.RemovePhysics | src/scenes/RoomBase.js:180-183 | every tracked wall leaves the world and the list ends empty |
| Rooms.RoomBase.RemoveFromScene | src/scenes/RoomBase.js:167-174 | the mesh, if any, leaves the scene, then every decoration is removed and the list ends empty |
| TrapRoom.FiresAtMostOnce | src/scenes/rooms/Room1.js:42-56 | between resets the trap fires at most once, never once triggered, and exactly when the room was decorated and some update came more than 2000 ms later |
| TrapRoom.Room1.constructor | src/scenes/rooms/Room1.js:7-17 | a fresh base room with the one door to room 2; no start time; not triggered |
| TrapRoom.Room1.Decorate | src/scenes/rooms/Room1.js:19-21 | the trap's clock starts now |
| TrapRoom.Room1.Update | src/scenes/rooms/Room1.js:42-48 | the trap fires exactly when more than 2000 ms have passed since decoration and it has not fired yet; firing requests one game-over screen |
| TrapRoom.Room1.TriggerGameOver | src/scenes/rooms/Room1.js:50-56 | the game is over and one game-over screen is requested |
| TrapRoom.Room1.Reset | src/scenes/rooms/Room1.js:67-70 | the clock restarts and the trap is armed again |
| TrapRoom.Room1.RemoveFromScene | src/scenes/rooms/Room1.js:58-65 | the base teardown: mesh and decorations removed, list empty |
| PetalRoom.Room2.constructor | src/scenes/rooms/Room2.js:10-36 | a fresh base room with doors to rooms 1 and 4; no pumpkins; no petal |
| PetalRoom.Room2.Decorate | src/scenes/rooms/Room2.js:70-171 | the boxes' and the stand's static colliders are added to the world, and a new idle pumpkin with the five lines at (-0.99, -0.45, 0.5) joins the scene, the world and the pumpkin list; all three are appended to the decorations |
| PetalRoom.Room2.OnPetalLoaded | src/scenes/rooms/Room2.js:126-140 | the petal is placed at (0.5, -0.35, 0.5), added to the scene and the decorations, and remembered |
| PetalRoom.Room2.PickupPetal | src/scenes/rooms/Room2.js:235-243 | a present petal leaves the scene, is forgotten, and the player gains a petal; with no petal nothing changes |
| PetalRoom.Room2.Update | src/scenes/rooms/Room2.js:216-233 | the petal is taken exactly when it is within 0.3 and 'e' is held; then the talk key is handled by the pumpkins as the shared interaction says |
| PetalRoom.Room2.RemoveFromScene | src/scenes/rooms/Room2.js:245-260 | the base teardown, then every pumpkin's group leaves the scene and its body the world, and the list ends empty |
| RoseRoom.Room4.constructor | src/scenes/rooms/Room4.js:10-40 | a fresh base room with doors to rooms 7, 5, 2 and 9; no pumpkins, rose, pedestal or door models; the game not completed |
| RoseRoom.Room4.Decorate | src/scenes/rooms/Room4.js:79-151 | the rose's 0.2 × 0.5 × 0.2 static collider joins the world, the light cone at (0, 0.15, 0) the scene, and a new idle guardian pumpkin with the five lines at (0.8, -0.45, 0.935) the scene, the world and the pumpkin list; all are appended to the decorations |
| RoseRoom.Room4.OnPedestalLoaded | src/scenes/rooms/Room4.js:46-60 | the pedestal is remembered, placed at (0, -0.5, 0), added to the scene and the decorations |
| RoseRoom.Room4.OnRoseLoaded | src/scenes/rooms/Room4.js:63-77 | the rose is remembered, placed at (0, -0.35, 0), added to the scene and the decorations |
| RoseRoom.Room4.OnDoorLoaded | src/scenes/rooms/Room4.js:124-134 | a door model is placed at its door and tracked both as a door object and as a decoration |
| RoseRoom.Room4.Update | src/scenes/rooms/Room4.js:216-245 | the game is completed exactly when the rose is loaded, the game not yet completed, the player within 0.5 of the rose with every petal, and 'e' held; completion happens at most once and implies three petals; then the pumpkins handle the talk key |
| RoseRoom.Room4.RemoveFromScene | src/scenes/rooms/Room4.js:248-273 | the base teardown, then the pumpkins' groups and bodies and the door models leave the scene and the world, and all three lists end empty |
| RoseRoom.Room4.RemoveDoorObjects | src/scenes/rooms/Room4.js:264-266 | every door model leaves the scene |
| SkeletonRoom.UniqueDrop | src/scenes/rooms/Room5.js:255-261 | a suffix of a list without repeats has no repeats and shares no element with the dropped prefix |
| SkeletonRoom.UniqueRemove | src/scenes/rooms/Room5.js:255-261 | splicing one element out of a list without repeats leaves a list without repeats |
| SkeletonRoom.SweepWithin | src/scenes/rooms/Room5.js:215-226 | the list left by the shot loop is no longer than the list and holds, like the visited set, only its elements |
| SkeletonRoom.SweepRemovesVisitedDoomed | src/scenes/rooms/Room5.js:215-226 | for a list without repeats, an element survives the shot loop exactly when it is listed and was not both visited and lethal; the survivors have no repeats |
| SkeletonRoom.Filtered | src/scenes/rooms/Room5.js:215-226 | the reference removal: exactly the listed non-doomed elements, and only listed ones |
| SkeletonRoom.Sweep | src/scenes/rooms/Room5.js:215-226 | the splice-while-walking sweep: a first skeleton that is not doomed stays first, and a doomed first skeleton leaves the second first, passed over by the walk |
| SkeletonRoom.Visited | src/scenes/rooms/Room5.js:215-226 | the first skeleton is always visited |
| SkeletonRoom.SpacedSweepRemovesDoomed | src/scenes/rooms/Room5.js:215-226 | when no two lethal skeletons are adjacent, the in-loop splice removes exactly the lethal ones, in order |
| SkeletonRoom.NoKillVisitsAll | src/scenes/rooms/Room5.js:215-226 | a shot that kills nobody visits every skeleton and leaves the list as it was |
| SkeletonRoom.NeighbourPassedOver | src/scenes/rooms/Room5.js:215-226 | two lethal skeletons side by side: the second is passed over by the splice and survives the shot |
| SkeletonRoom.Hittable | src/scenes/rooms/Room5.js:216-218 | a listed skeleton can be hit exactly when it has a mesh and the ray meets it |
| SkeletonRoom.Lethal | src/scenes/rooms/Room5.js:216-223 | a listed skeleton is killed by a hit exactly when it can be hit and has at most one hit point |
| SkeletonRoom.PartsOfOneMore | src/scenes/rooms/Room5.js:298-300 | the meshes and bodies of one more skeleton are those of the others plus its own |
| SkeletonRoom.IndexOf | src/scenes/rooms/Room5.js:256 | `indexOf`: -1 exactly when absent; otherwise the first position holding the element |
| SkeletonRoom.IndexOfUnique | src/scenes/rooms/Room5.js:256 | in a list without repeats the first position of an element is its own position |
| SkeletonRoom.Attackers | src/scenes/rooms/Room5.js:264-267 | the `filter`: a listed skeleton is kept exactly when it attacks, in its attack state, with its mesh within 0.3 of the player |
| SkeletonRoom.Room5.constructor | src/scenes/rooms/Room5.js:10-36 | a fresh base room with a single door to room 4; no pumpkins, skeletons or petal; the four opening lines; not yet defeated; the bound shoot listener is registered and no other |
| SkeletonRoom.Room5.Decorate | src/scenes/rooms/Room5.js:70-149 | the stand's 0.1 × 0.2 × 0.1 static collider joins the world, a new pumpkin with the room's current lines at (-0.99, -0.45, 0.5) the scene, the world and the pumpkin list, and four skeletons are spawned; one more shoot listener, a fresh bind, is registered |
| SkeletonRoom.Room5.SpawnSkeletons | src/scenes/rooms/Room5.js:165-177 | four new unloaded skeletons of this room at the four spawn points are appended in order, the earlier list kept |
| SkeletonRoom.Room5.OnPetalLoaded | src/scenes/rooms/Room5.js:83-97 | the petal is remembered, placed at (-0.5, -0.35, -0.5), added to the scene and the decorations |
| SkeletonRoom.Room5.RemoveSkeletonFromScene | src/scenes/rooms/Room5.js:255-261 | a listed skeleton is spliced out at its first position and dies (its mesh leaves the scene, its body the world), throwing exactly when it has no body; an unlisted one changes nothing |
| SkeletonRoom.Room5.VisitSkeleton | src/scenes/rooms/Room5.js:216-224 | a loaded skeleton met by the ray loses one hit point and, at zero, is spliced out at the index visited and dies, without a throw since its body came with its mesh; any other changes nothing |
| SkeletonRoom.Room5.ShotSweep | src/scenes/rooms/Room5.js:215-226 | for skeletons whose body came with their mesh, the list left is the splice-while-walking sweep of the lethal skeletons; each visited hittable skeleton loses exactly one hit point and no other changes; exactly the visited lethal ones leave the scene and the world |
| SkeletonRoom.Room5.DispatchShoot | src/scenes/rooms/Room5.js:204-228 | one shoot event runs the handler once per registered listener (the bound one of line 35 and the binds of line 151): every skeleton loses at most one hit point per listener; an event from another room changes nothing; a lone skeleton in the ray's path with h hit points and n listeners loses min(n, h), and the list ends empty exactly when h ≤ n; the reward is counted once, exactly when the room becomes defeated |
| SkeletonRoom.Room5.ListenerRun | src/scenes/rooms/Room5.js:204-228 | one listener's run: every skeleton loses at most one hit point and the list only shrinks; another room's event changes nothing; a lone hittable skeleton loses exactly one and leaves the list exactly when it had one left; a reward only when the flag was newly set |
| SkeletonRoom.Room5.HandleCharacterShoot | src/scenes/rooms/Room5.js:204-228 | for skeletons whose body came with their mesh: a shot from another room changes nothing; one from this room runs the sweep and then the defeat check; the reward is given exactly when the list ends empty and was not yet defeated |
| SkeletonRoom.Room5.CheckAllSkeletonsDefeated | src/scenes/rooms/Room5.js:230-235 | the reward is given exactly when the list is empty and the flag unset, and then the flag is set; otherwise neither the flag nor the petals change |
| SkeletonRoom.Room5.RewardPlayerWithPetal | src/scenes/rooms/Room5.js:237-253 | a petal while fewer than three are held; with a pumpkin, its lines become the single thank-you line from the start; the petal on the stand is hidden |
| SkeletonRoom.Room5.CheckPlayerDamage | src/scenes/rooms/Room5.js:263-274 | the player loses exactly one hit point exactly when some listed skeleton attacks in range, and the game-over screen is requested exactly when that leaves no hit points |
| SkeletonRoom.Room5.UpdateSkeletons | src/scenes/rooms/Room5.js:194-198 | each skeleton updates in list order, stopping after one whose animation throws; no skeleton's hit points, mesh or body change, no attack under way is cleared, and one that was not ready starts no attack |
| SkeletonRoom.Room5.ChaseOne | src/scenes/rooms/Room5.js:195-197 | one skeleton's direction, orientation and update: hit points and parts are kept, an attack under way is kept, and an unready skeleton keeps its load flag and starts no attack |
| SkeletonRoom.Room5.Chase | src/scenes/rooms/Room5.js:194-200 | the skeletons move, then the damage check; a throw skips the check and hurts no one; otherwise the player loses one hit point exactly when some skeleton attacks within range, with a game over at zero; lists, keys, pumpkins and the skeletons' hit points are untouched |
| SkeletonRoom.Room5.Update | src/scenes/rooms/Room5.js:183-202 | the chase and damage as above; after a throw the talk key and the pumpkins are left as they were; otherwise the pumpkins handle the talk key as the shared interaction says, judged where they stand after the skeletons moved |
| SkeletonRoom.Room5.TalkUnless | src/scenes/rooms/Room5.js:201 | after a throw the talk key and the pumpkins are untouched; otherwise the talk sweep as the shared interaction says |
| SkeletonRoom.Room5.KillAll | src/scenes/rooms/Room5.js:298-301 | the skeletons die in list order up to and including the first one without a body, whose death throws; exactly those meshes leave the scene and those bodies the world; the list is emptied exactly when nothing threw, and kept otherwise |
| SkeletonRoom.Room5.DieInTurn | src/scenes/rooms/Room5.js:298-300 | the `forEach` over the skeletons: it stops after the first death that throws, or after the last skeleton; exactly the dead ones' meshes and bodies leave the scene and the world |
| SkeletonRoom.Room5.DieNext | src/scenes/rooms/Room5.js:299 | one more skeleton dies, extending the removals of the earlier ones by its mesh and body; it throws exactly when that skeleton has no body |
| SkeletonRoom.Room5.RemoveAllButSkeletons | src/scenes/rooms/Room5.js:284-292 | the base teardown, the pumpkins and the decorations leave the scene and the world, and the pumpkin and decoration lists end empty |
| SkeletonRoom.DeathCount | src/scenes/rooms/Room5.js:298-300 | how many skeletons the `forEach` kills: at most the list's length, and when fewer, the last of them is one without a body |
| SkeletonRoom.DeathCountPast | src/scenes/rooms/Room5.js:298-300 | skeletons that all have bodies each die and the count goes on past them |
| SkeletonRoom.DeathCountMeaning | src/scenes/rooms/Room5.js:298-300 | some skeleton lacks a body exactly when the count ends on one; every earlier one has a body; without a bodiless one all of them die |
| SkeletonRoom.DeathsReached | src/scenes/rooms/Room5.js:298-300 | the loop's stopping point is the count, and it throws exactly when some skeleton lacks a body |
| SkeletonRoom.Room5.RemoveFromScene | src/scenes/rooms/Room5.js:283-307 | the base teardown, the pumpkins and the decorations leave the scene and the world and their lists end empty; then the skeletons die in turn as in `KillAll`, the teardown throwing exactly when some skeleton has no body, so the skeleton list ends empty exactly when nothing threw; the constructor's bound listener is removed exactly when nothing threw, and the binds added by `decorate` stay |
| FlowerRoom.Room7.constructor | src/scenes/rooms/Room7.js:8-26 | a fresh base room with doors to rooms 8 and 4; no pumpkins and no flower |
| FlowerRoom.Room7.Decorate | src/scenes/rooms/Room7.js:42-56 | a new idle pumpkin with the single line at (-0.99, -0.45, 0.5) joins the scene, the world and the pumpkin list, and is appended to the decorations |
| FlowerRoom.Room7.OnFlowerLoaded | src/scenes/rooms/Room7.js:88-95 | the flower is placed at (0.5, -0.42, 1), added to the scene and the decorations, and remembered |
| FlowerRoom.Room7.PickupFlower | src/scenes/rooms/Room7.js:135-142 | a present flower leaves the scene and is forgotten, and the player holds a flower; with no flower nothing changes |
| FlowerRoom.Room7.Update | src/scenes/rooms/Room7.js:118-133 | the flower is taken exactly when it is there, within 0.5 of the player, and 'e' is held; otherwise nothing changes |
| FlowerRoom.Room7.RemoveFromScene | src/scenes/rooms/Room7.js:144-163 | the base teardown and the pumpkins leave the scene and the world; a flower still lying there leaves the scene but is not forgotten |
| ChaseRoom.FlowerAt | src/scenes/rooms/Room8.js:147 | the flower position handed to the chaser is present exactly when a flower lies on the floor, and is its position |
| ChaseRoom.Room8.constructor | src/scenes/rooms/Room8.js:10-29 | a fresh base room with doors to rooms 7 and 9; no chaser, flower or petal; no drop pending and no remembered position |
| ChaseRoom.Room8.Decorate | src/scenes/rooms/Room8.js:61-112 | the stand's 0.1 × 0.2 × 0.1 static collider joins the world, and a new chaser with the default speed and no target joins the scene, the world and the decorations |
| ChaseRoom.Room8.OnPetalLoaded | src/scenes/rooms/Room8.js:74-88 | the petal is remembered, placed at (0.5, -0.35, 0.5), added to the scene and the decorations |
| ChaseRoom.Room8.Chase | src/scenes/rooms/Room8.js:146-152 | with a chaser, it targets the flower on the floor or else the player, steps along the normalised offset to that target by speed × time and turns to face along it, and the game is over exactly when it catches the player, which never happens while a flower lies on the floor |
| ChaseRoom.Room8.Update | src/scenes/rooms/Room8.js:139-172 | with the corrected drop: the player's position is remembered; the chase as above, toward the flower on the floor before the drop; a drop is requested exactly when the player carries the flower and a drop was pending or 'f' is held, and none is left pending; the petal is taken exactly when it is within 0.3 and 'e' is held |
| ChaseRoom.Room8.DropStep | src/scenes/rooms/Room8.js:154-164 | with the corrected drop: a drop is requested exactly when the player carries the flower and a drop was pending or 'f' is held; none is left pending |
| ChaseRoom.Room8.PetalStep | src/scenes/rooms/Room8.js:166-171 | the petal is taken exactly when it is there, within 0.3, and 'e' is held; otherwise the scene and the petals are unchanged |
| ChaseRoom.Room8.DropFlower | src/scenes/rooms/Room8.js:182-195 | the corrected drop: a flower model is asked for exactly when the player carries the flower; nothing changes until it arrives |
| ChaseRoom.Room8.OnDroppedFlowerLoaded | src/scenes/rooms/Room8.js:184-191 | the corrected callback: the new flower lies at the drop position, joins the scene and the decorations, and the player no longer holds it |
| ChaseRoom.Room8.DropFlowerAsWritten | src/scenes/rooms/Room8.js:182-195 | as written: besides asking for the model, it adds whatever flower the room already remembers to the scene |
| ChaseRoom.Room8.OnDroppedFlowerLoadedAsWritten | src/scenes/rooms/Room8.js:184-191 | as written: the flower is placed and recorded but never added to the scene |
| ChaseRoom.Room8.FirstDropAsWritten | src/scenes/rooms/Room8.js:182-195 | a first drop as written: the chaser heads for a flower that is recorded as a decoration yet is not in the scene |
| ChaseRoom.Room8.PickupPetal | src/scenes/rooms/Room8.js:197-204 | a present petal leaves the scene and is forgotten, and the player gains a petal; with no petal nothing changes |
| ChaseRoom.Room8.RemoveFromScene | src/scenes/rooms/Room8.js:206-214 | the base teardown, then the chaser's head and body and a dropped flower leave the scene and the world |
| WarningRoom.Room9.constructor | src/scenes/rooms/Room9.js:9-32 | a fresh base room with doors to rooms 4 and 8; no pumpkins |
| WarningRoom.Room9.Decorate | src/scenes/rooms/Room9.js:63-101 | the pile's 0.4 static collider at (0, -0.5, 0) joins the world, and a new idle pumpkin with the six warning lines at (-0.99, -0.45, 0.5) the scene, the world and the pumpkin list; both are appended to the decorations |
| WarningRoom.Room9.Update | src/scenes/rooms/Room9.js:146-156 | the pumpkins handle the talk key as the shared interaction says |
| WarningRoom.Room9.RemoveFromScene | src/scenes/rooms/Room9.js:158-169 | the base teardown, then every pumpkin's group leaves the scene and its body the world, and the list ends empty |
| Character.PetalsAfterAdd | src/characters/characterModel.js:301-309 | one more petal below the cap of three; at or past the cap the count is unchanged |
| Character.PetalsSaturate | src/characters/characterModel.js:301-309 | any number of petal additions from a count in range reaches the sum or the cap of three, whichever is smaller |
| Character.CharacterModel.constructor | src/characters/characterModel.js:21-67 | no mesh, body or subsystems yet; 100 hit points, no petals, no flower, no shot yet, not aiming, no room; the default field of view is the camera's |
| Character.CharacterModel.OnModelLoaded | src/characters/characterModel.js:72-189 | a new mesh at (1, -0.47, -1) joins the scene and a new 5 kg body at the same point the world, with the mesh taking the body's orientation; a new movement handler drives them; with a skinned mesh the three animation systems are created on it, without one none is |
| Character.CharacterModel.GetPosition | src/characters/characterModel.js:167-172 | the mesh position exactly when the mesh exists, and nothing otherwise |
| Character.CharacterModel.SetCurrentRoomId | src/characters/characterModel.js:296-299 | the current room is the one given |
| Character.CharacterModel.AddPetal | src/characters/characterModel.js:301-309 | the petal count steps as `PetalsAfterAdd` says, the count stays within 0 to 3 and the all-petals flag holds exactly at three |
| Character.CharacterModel.HasAllPetalsCollected | src/characters/characterModel.js:315-317 | under the petal invariant, true exactly when three petals are held |
| Character.CharacterModel.TakeDamage | src/characters/characterModel.js:319-321 | exactly one hit point is lost, with no floor |
| Character.CharacterModel.Shoot | src/characters/characterModel.js:261-283 | an event exactly when the audio context runs, carrying the current room id |
| Character.CharacterModel.HandleShooting | src/characters/characterModel.js:229-243 | when the left button is held, the shoot system idle and more than 500 ms have passed, the recoil starts from zero and the shot time is stamped; an event is sent exactly then and with audio running; otherwise the recoil state and the shot time are unchanged |
| Character.CharacterModel.HandleAiming | src/characters/characterModel.js:245-259 | the aiming flag follows the right button; entering aim divides the default field of view by 1.5, leaving restores it, and no edge leaves it unchanged, so the view keeps matching the flag |
| Character.CharacterModel.MirrorBody | src/characters/characterModel.js:198-201 | the mesh takes the body's position and orientation |
| Character.CharacterModel.UpdateAnimations | src/characters/characterModel.js:203-222 | the walk progress advances as the walk rule says for the movement flags, no IK update is ever requested, since the movement update returns nothing, and the frame throws exactly when the recoil blend throws |
| Character.CharacterModel.StepWalk | src/characters/characterModel.js:203-218 | the walk progress advances as the walk rule says for the movement flags, and no IK update is requested |
| Character.CharacterModel.Update | src/characters/characterModel.js:191-227 | before the model has loaded nothing happens; afterwards the mesh mirrors the body and the frame throws exactly when the recoil blend throws, which skips shooting and aiming; otherwise the aiming flag follows the right button, and a sent event carries the current room and stamps the shot time |
| PumpkinTalk.TalkReachesFirstNearOnly | src/scenes/RoomManager.js:169-183 | once a pumpkin in range has been passed, a held 't' reaches no later pumpkin, because the first one in range clears it |
| PumpkinTalk.KeysAfter | src/scenes/RoomManager.js:182 | the key map after the sweep: 't' set to false when it was consumed, otherwise the map unchanged |
| PumpkinTalk.Interact | src/scenes/RoomManager.js:169-189 | 't' is cleared exactly when it was held and some pumpkin is in range; each pumpkin in turn, in range and reached by a held 't', starts talking at the first line when idle or moves on a line when talking; out of range, a talking pumpkin stops and shows its normal face; any other is unchanged |
| PumpkinTalk.NearBeforeStep | src/scenes/RoomManager.js:169-170 | a pumpkin is in range before position i + 1 exactly when one is before i or pumpkin i is |
| PumpkinTalk.Visit | src/scenes/RoomManager.js:170-188 | one pumpkin of the sweep: its range verdict is returned, its dialogue state changes as the step rule says, and 't' is cleared exactly when it is in range and 't' is held |
| PumpkinTalk.RemovePumpkins | src/scenes/rooms/Room2.js:255-258 | every pumpkin's group leaves the scene and its body the world, and nothing else does |
| RoomManagement.PumpkinsOf | src/scenes/RoomManager.js:167 | a room has no pumpkin list exactly when it is the trap room, room 8 or a plain room |
| RoomManagement.ConfigIdsAreTheRoomClasses | src/scenes/RoomManager.js:36-57 | the configured ids are exactly 1, 2, 4, 5, 7, 8 and 9, each of which has its own room class, and room 4 is among them |
| RoomManagement.LastConfigs | src/scenes/RoomManager.js:46-61 | what registering the configurations in order leaves: each kept configuration has its own id and is one of those given |
| RoomManagement.LastConfigsSnoc | src/scenes/RoomManager.js:58 | registering one more configuration overrides its id with it |
| RoomManagement.LastConfigsKeeps | src/scenes/RoomManager.js:58 | a configuration that no later one overrides is the one kept for its id |
| RoomManagement.TableIdsDistinct | src/scenes/RoomManager.js:36-44 | the configured ids are pairwise different |
| RoomManagement.LastConfigsOfTable | src/scenes/RoomManager.js:36-61 | registering the table keeps exactly the configured ids, each with its own configuration |
| RoomManagement.TableRegistered | src/scenes/RoomManager.js:46-63 | once the table's configurations are registered, the registry holds the earlier ids plus the configured ones and every configuration of the table is registered |
| RoomManagement.RegistryStep | src/scenes/RoomManager.js:58 | registering one configuration keeps every earlier registration it does not override |
| RoomManagement.DoorsMatchAt | src/scenes/RoomManager.js:37-43 | configured room k has a door table whose doors lead exactly to its configured connections |
| RoomManagement.DoorsMatchConnections | src/scenes/RoomManager.js:37-43 | every configured room's doors lead exactly to its configured connections |
| RoomManagement.DoorsLeadToRooms | src/scenes/RoomManager.js:37-43 | every door of a configured room has one of the four turns the opposite-entry lookup knows and leads to a configured room |
| RoomManagement.ConfigDoorsAtSpots | src/scenes/RoomManager.js:37-43 | every door of every configured room stands at the middle of one of the four walls |
| RoomManagement.EntryFarFromDoors | src/scenes/RoomManager.js:114-146 | every entry point of a standard room is out of a door's reach (0.5) from every door spot |
| RoomManagement.Lookup | src/scenes/RoomManager.js:80 | `this.rooms[roomId]`: the registered room exactly when the id is registered, and nothing otherwise |
| RoomManagement.TransitionToRoom | src/scenes/RoomManager.js:114-135 | a position exactly when the room is registered and the wall is known, and then the entry point of that wall of that room |
| RoomManagement.TransitionLandsInside | src/scenes/RoomManager.js:114-152 | going through a door with a known turn into a registered room wider and deeper than 1 lands strictly inside that room |
| RoomManagement.SweepWithoutKey | src/scenes/RoomManager.js:144-159 | without 'p' the door sweep switches nowhere, leaves the player where they are and does not throw |
| RoomManagement.NoSwitchFromEntry | src/scenes/RoomManager.js:144-159 | from an entry point of a standard room, no door at a door spot is in reach, so the sweep does nothing |
| RoomManagement.AtMostOneSwitch | src/scenes/RoomManager.js:144-159 | with standard rooms and doors at door spots, one call of the door sweep switches rooms at most once |
| RoomManagement.DoorStep | src/scenes/RoomManager.js:145-157 | one door: a switch only when in reach, 'p' is held, the player has a body, and then to the door's room; without a switch and without an error the player stays put; an error only when in reach with 'p' held |
| RoomManagement.SweepUnfold | src/scenes/RoomManager.js:144-159 | the sweep is the first door's step followed by the sweep of the other doors from where that step left the player, stopping at an error |
| RoomManagement.SweepAdvances | src/scenes/RoomManager.js:144-159 | one more door of the sweep either throws and ends it there, or adds its target to those already switched to |
| RoomManagement.DecorateRoom | src/scenes/RoomManager.js:84 | the room's own `decorate` keeps its cube, walls and input, only adds to the scene, and adds only new bodies to the world |
| RoomManagement.RemoveRoom | src/scenes/RoomManager.js:77 | the room's own `removeFromScene`: its cube and its decorations leave the scene and the world, its decoration list ends empty, and nothing is added |
| RoomManagement.ClearRoom | src/scenes/RoomManager.js:75-78 | leaving a room: its walls leave the world and its list of walls ends empty, then its cube and decorations leave too |
| RoomManagement.BuildRoom | src/scenes/RoomManager.js:82-85 | entering a room: its cube is in the scene at the room's position, its six walls are up, it holds the input, and only new bodies were added |
| RoomManagement.RoomManager.constructor | src/scenes/RoomManager.js:14-25 | on the given scene, world, input and player: no rooms, no current room, no ambient light |
| RoomManagement.RoomManager.SetPlayer | src/scenes/RoomManager.js:27-29 | the player is the one given |
| RoomManagement.RoomManager.SetAmbientLight | src/scenes/RoomManager.js:31-33 | the ambient light is the one given |
| RoomManagement.RoomManager.CreateRoom | src/scenes/RoomManager.js:48-57 | a new room of the class for the id (a plain room for other ids) on this scene and world, with the configuration and the class's door table, and no cube, walls, decorations or input yet |
| RoomManagement.RoomManager.Leave | src/scenes/RoomManager.js:75-78 | the current room's walls, cube and decorations leave the world and the scene; the registry and the other rooms are untouched |
| RoomManagement.RoomManager.Build | src/scenes/RoomManager.js:82-85 | the current room's cube and six walls are up, it is decorated and holds the input; the scene only grows and only new bodies join the world |
| RoomManagement.RoomManager.Enter | src/scenes/RoomManager.js:81-97 | the room is built; then an error exactly when there is a player without a mesh; otherwise the player's mesh and the ambient light are in the scene and the player knows the room id |
| RoomManagement.RoomManager.PlacePlayer | src/scenes/RoomManager.js:87-97 | an error exactly when there is a player without a mesh, and then the player's room id is unchanged; otherwise the mesh and the ambient light are in the scene and the player knows the room id |
| RoomManagement.RoomManager.SwitchTo | src/scenes/RoomManager.js:75-80 | a previous room's walls, cube and decorations leave the world and the scene, and the requested room, possibly missing, becomes current |
| RoomManagement.RoomManager.SetCurrentRoom | src/scenes/RoomManager.js:72-103 | the requested room, possibly missing, becomes current; the old room's walls and decoration bodies are out of the world; a found room is built with its cube, walls and input; an error exactly when a found room meets a player without a mesh; otherwise the player is in the scene and knows the room id |
| RoomManagement.RoomManager.CheckPumpkinInteraction | src/scenes/RoomManager.js:166-190 | without a current room or a pumpkin list nothing happens; otherwise the talk sweep over the current room's pumpkins, with 't' cleared exactly when it was held and some pumpkin is in range |
| RoomManagement.RoomManager.GoThrough | src/scenes/RoomManager.js:152-156 | the entry position is copied into the player's mesh and body, then the door's room becomes current |
| RoomManagement.RoomManager.TryDoor | src/scenes/RoomManager.js:145-157 | one door as `DoorStep` says: the mesh ends at the step's position, and the door's room becomes current exactly when the step names it |
| RoomManagement.RoomManager.SweepStep | src/scenes/RoomManager.js:144-159 | one turn of the door loop: the door is tried as `DoorStep` says and a switch through it is recorded |
| RoomManagement.RoomManager.SweepDoors | src/scenes/RoomManager.js:144-159 | the door loop ends as the sweep says, with the mesh where the sweep leaves it and the last room switched to current |
| RoomManagement.RoomManager.CheckRoomTransition | src/scenes/RoomManager.js:137-164 | nothing without a current room; an error when the player has no mesh or the room no door table; otherwise the door sweep with 'p' as held, its last switch current and the body moved with the mesh; 'p' is never cleared |
| RoomManagement.RoomManager.Register | src/scenes/RoomManager.js:46-61 | one configuration: a new room of its class registered under its id with its configuration and door table, with its cube in the scene |
| RoomManagement.RoomManager.Adopt | src/scenes/RoomManager.js:58 | the room is registered under the id, and the registry's invariant holds |
| RoomManagement.RoomManager.RegisterNext | src/scenes/RoomManager.js:46-61 | registering configuration i extends a registration of the first i configurations to the first i + 1 |
| RoomManagement.RoomManager.RegisterAll | src/scenes/RoomManager.js:46-63 | every configuration is registered in order, a later one with the same id replacing the earlier room, and every kept room has its cube in the scene |
| RoomManagement.RoomManager.CreateRooms | src/scenes/RoomManager.js:35-66 | the seven configured rooms are registered as their classes with their configurations and door tables, room 4 is current, and an error comes exactly when there is a player without a mesh |

## Left out

- Rendering: materials, textures, lights (the directional light and its target in room 2, and the spotlights of rooms 4, 5, 8 and 9), fog, the room-number signs, `createSpring`, the Room7 vase and other purely decorative model loads. These only change what is drawn. A decorative load is modelled only as the node it adds to the scene and to the decoration list.
- Physics stepping, body integration, raycasts and `THREE.Ray.intersectSphere` (`src/scenes/rooms/Room5.js:218`). Hits are a caller-supplied set of skeletons, and the camera ray result is a parameter.
- The CCD IK solver and the world-position queries of the feet. These are a foreign library call; only the guard around them (`updateIKTargets`) and the `needsIKUpdate` flag are modelled.
- Vector rotation and normalisation (`applyAxisAngle`, `normalize`, `setFromAxisAngle`, `slerp`, `atan2`). These are floating-point trigonometry, so they are function-typed parameters (`Movement.Geometry`, and the `normalize` and `heading` arguments of the rotten pumpkin and of Room8) and are not computed. The camera's orientation (`camera.lookAt` of the turned look-at offset, `src/controllers/characterMovement.js:118-121`) is not modelled: the camera's position is, its rotation is not. The write to `mesh.rotation.y` (`src/controllers/characterMovement.js:84`) is modelled as the mesh taking the yaw's quaternion, which holds because the player mesh has no rotation other than its yaw.
- Floating-point rounding: all arithmetic is on exact reals.
- `PumpkinNPC.update` (the beat sway, trigonometry only), the `setInterval` texture timer, and the pumpkin constructor's scale and rotation arguments. Only the texture toggle itself is modelled.
- Asynchronous ordering: `setCurrentRoom` is not awaited inside `checkRoomTransition`, and load callbacks may interleave. The model runs every call to completion in sequence. `RoomManagement.AtMostOneSwitch` shows that one door sweep of the fixed room table switches rooms at most once, so the interleavings the source allows are never exercised by more than one switch per frame.
- The window event bus: it is not modelled as an object. Room5 counts its own `character-shoot` listeners instead: the bound handler of the constructor (`src/scenes/rooms/Room5.js:35`), removed by `removeFromScene` (`src/scenes/rooms/Room5.js:303`), and one fresh bind per `decorate` (`src/scenes/rooms/Room5.js:151`) that is never removed, since `removeEventListener` only matches the constructor's function. `SkeletonRoom.Room5.DispatchShoot` runs the handler once per listener. So on the first visit each shot runs it twice, and on the k-th visit (k ≥ 2) k times. A skeleton of 20 hit points dies in 10 shots on the first visit. The other listeners (`skeletonLoaded`, the other rooms' events) remain direct calls.
- `RoomManager.update` and `RoomManager.getRoom`. These only forward to the current room; room `Update` methods are called directly instead.
- The manager's `currentRoomId` field, which is never read, and the `dialogueOptions` argument of `checkPumpkinInteraction`, which is never used.
- Room8's `update` reads `playerPosition` without a null check. The model takes the position as a value, so the TypeError a null position would raise is not modelled.
- `getObjectById`: scene membership is a flat set of nodes. Nesting in groups is not modelled.
- The `SceneGraph` classes (`SceneNode`, `Body`, `Scene`, `World`, `Camera`) stand in for the Three.js and cannon-es library objects. Only the fields the game reads and writes are kept.
- The camera object, `audioManager`, sounds, UI messages, dialogue overlays, the game-over and victory screens (each modelled only as a request count or flag) and console logging.
- I/O: `fetch`, `localStorage` (the pose panel's `savePose` builds the map, and storing it is left out), file reads and writes, `os.listdir` and `os.walk`. Directory listings are input sequences, and JSON parsing is a caller-supplied partial function.
- HybridAnimation.HybridAnimationSystem.Update: the walk pose of `HybridAnimationSystem.update` throws a TypeError when the sampled keyframe names a bone that the next keyframe lacks. The model applies nothing in that case (`HybridAnimation.WalkPoseToApply`) and does not pass the exception up to the frame, as it does for the skeleton animation and the recoil.
- Whole files outside the game logic: `src/utils/UI.js`, `src/utils/audioManager.js`, `main.js`, `src/utils/cannonDebugRender.js`, `src/utils/BonesSave.py`, `src/scenes/sceneSetup.js`, `src/scenes/environment.js`, `src/scenes/physicsSetup.js` and `vite.config.js`.
- RoomManagement.RemoveRoom: discards the throw of Room5's teardown (a skeleton without a body). In the source that throw rejects the `setCurrentRoom` promise before `this.currentRoom` is reassigned (`src/scenes/RoomManager.js:75-80`), so the old room stays current; the model's transition carries on.
- SkeletonRoom.Room5.HandleCharacterShoot: requires `AllPaired`, that every skeleton with a mesh has a body. The source has no such check. It holds because both are set together when the model loads (the constructor and `OnModelLoaded` ensure `Paired`) and no other method assigns them. Dafny has no class invariants, so the sweep takes this as a precondition, and the same goes for `SkeletonRoom.Room5.ShotSweep` and `SkeletonRoom.Room5.VisitSkeleton`.
- The cannon-es `World` itself: its `removeBody` is only the set difference on `SceneGraph.World`, and the TypeError it raises on a missing body is the `crashed` result of `Enemies.EnemySkeleton.Die`.
- Skeletons.Skeleton.ApplyPose: the bones are a map from name to rotation, so bone names are taken as unique. `getBoneByName` searches the bone array for the first bone of that name; a rig with duplicate names would have the later ones left untouched there.
- SkeletonRoom.Room5.UpdateSkeletons: states only that hit points and parts are kept, that no attack under way is cleared and that an unready skeleton starts no attack. It does not give each skeleton's new chase state, which `Enemies.EnemySkeleton.Update` states one skeleton at a time, nor which skeleton's throw stopped the loop; tying the whole list to them was too costly to prove. The throw itself is passed up, so `Chase` and `Update` skip the damage check and the talk sweep as the source does.
- ChaseRoom.Room8.Update: uses the corrected drop of the finding below. The source's `dropFlower` also re-adds a flower remembered from an earlier drop (`src/scenes/rooms/Room8.js:192`), so there a drop can add that old node to the scene; `ChaseRoom.Room8.DropFlowerAsWritten` models that behaviour on its own.
- ChaseRoom.Room8.DropStep: uses the corrected drop for the same reason, so its frame leaves the scene untouched where the source's drop would re-add a remembered flower.
- Text.Lower: maps only A–Z to a–z, where JavaScript's `toLowerCase` and Python's `str.lower` map every Unicode letter. The strings compared after lowering are the tracked key names and the pose file names, which are ASCII.
- Character.CharacterModel.UpdateAnimations: states the walk progress, the IK flag and whether the recoil throws, but not the bone rotations or the recoil progress after the frame; those are stated by the `Update` methods of `HybridAnimation` and `ShootAnimation`.

## Findings

| source | as written | input that shows it | evidently intended | confidence | as-written member | corrected member |
|---|---|---|---|---|---|---|
| src/scenes/rooms/Room8.js:182-195 | `dropFlower` calls `scene.add(this.flower)` right after starting the load, before the load callback has set `this.flower`, so the dropped flower model is never added to the scene | the first drop, when no flower is remembered yet (`this.flower` is null) | the loaded flower model is added to the scene once it has loaded | not executed | ChaseRoom.Room8.FirstDropAsWritten | ChaseRoom.Room8.OnDroppedFlowerLoaded |
