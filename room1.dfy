/**
 * `Room1`: the gas trap. Two seconds after the room is decorated the
 * player dies in the gas, once; `reset` rearms the trap. `Date.now()` is
 * the `now` parameter, and the game-over screen is counted in `gameOvers`.
 */
module TrapRoom {
  import opened Wrappers
  import opened Vectors
  import opened SceneGraph
  import opened Doors
  import opened Rooms

  /** How long the gas takes, in milliseconds. */
  const GasDelay: real := 2000.0

  /** The single door, to room 2. */
  const Room1Doors: seq<Door> := [Door(Vec3(-1.5, -0.17, 0.0), HalfPi, 2)]

  /**
   * The test of `update`: the elapsed time since decoration exceeds the
   * delay and the game is not over yet. Before decoration the start time is
   * `undefined`, the difference `NaN`, and the test false.
   */
  predicate GasFires(startTime: Option<real>, triggered: bool, now: real) {
    startTime.Some? && now - startTime.value > GasDelay && !triggered
  }

  /** How many times the trap fires over updates at the given times. */
  function FireCount(startTime: Option<real>, triggered: bool, times: seq<real>): nat
    decreases |times|
  {
    if times == [] then 0
    else if GasFires(startTime, triggered, times[0]) then 1 + FireCount(startTime, true, times[1..])
    else FireCount(startTime, triggered, times[1..])
  }

  /**
   * Between resets the trap fires at most once, and it fires exactly when it
   * was armed, the room was decorated and some update came after the delay.
   */
  lemma {:induction false} FiresAtMostOnce(startTime: Option<real>, triggered: bool, times: seq<real>)
    ensures FireCount(startTime, triggered, times) <= 1
    ensures triggered ==> FireCount(startTime, triggered, times) == 0
    ensures FireCount(startTime, triggered, times) == 1 <==>
      !triggered && startTime.Some? && exists k :: 0 <= k < |times| && times[k] - startTime.value > GasDelay
    decreases |times|
  {
    if times != [] {
      FiresAtMostOnce(startTime, true, times[1..]);
      FiresAtMostOnce(startTime, triggered, times[1..]);
      if !triggered && startTime.Some? {
        if exists k :: 0 <= k < |times[1..]| && times[1..][k] - startTime.value > GasDelay {
          var k :| 0 <= k < |times[1..]| && times[1..][k] - startTime.value > GasDelay;
          assert times[k + 1] == times[1..][k];
        }
        if exists k :: 0 <= k < |times| && times[k] - startTime.value > GasDelay {
          var k :| 0 <= k < |times| && times[k] - startTime.value > GasDelay;
          if k > 0 {
            assert times[1..][k - 1] == times[k];
          }
        }
      }
    }
  }

  class Room1 {
    const base: RoomBase
    /** `startTime`, `undefined` until the room is decorated. */
    var startTime: Option<real>
    /** `gameOverTriggered`, `undefined` (falsy) at first. */
    var gameOverTriggered: bool
    /** How many times the game-over screen has been requested. */
    var gameOvers: nat

    constructor(config: RoomConfig, scene: Scene, world: World)
      ensures fresh(base) && base.scene == scene && base.world == world
      ensures base.id == config.id && base.size == config.size && base.position == config.position
      ensures base.connections == config.connections && base.doors == Some(Room1Doors)
      ensures base.mesh == null && base.physicsBodies == [] && base.decorativeObjects == [] && base.input == null
      ensures !base.texturesLoaded
      ensures startTime.None? && !gameOverTriggered && gameOvers == 0
    {
      base := new RoomBase(config, Some(Room1Doors), scene, world);
      startTime := None;
      gameOverTriggered := false;
      gameOvers := 0;
    }

    /** `decorate`: the trap's clock starts (the fog is left out). */
    method Decorate(now: real)
      modifies this`startTime
      ensures startTime == Some(now)
    {
      startTime := Some(now);
    }

    /** `update`: the trap fires when the gas test holds, and then only. */
    method Update(now: real) returns (fired: bool)
      modifies this`gameOverTriggered, this`gameOvers
      ensures fired == GasFires(startTime, old(gameOverTriggered), now)
      ensures gameOverTriggered == (old(gameOverTriggered) || fired)
      ensures gameOvers == old(gameOvers) + (if fired then 1 else 0)
    {
      fired := GasFires(startTime, gameOverTriggered, now);
      if fired {
        TriggerGameOver();
      }
    }

    /** `triggerGameOver`: the game is over and the screen is requested. */
    method TriggerGameOver()
      modifies this`gameOverTriggered, this`gameOvers
      ensures gameOverTriggered && gameOvers == old(gameOvers) + 1
    {
      gameOverTriggered := true;
      gameOvers := gameOvers + 1;
    }

    /** `reset`: the clock restarts and the trap is armed again. */
    method Reset(now: real)
      modifies this`startTime, this`gameOverTriggered
      ensures startTime == Some(now) && !gameOverTriggered
    {
      startTime := Some(now);
      gameOverTriggered := false;
    }

    /** `removeFromScene`: the base teardown. */
    method RemoveFromScene()
      modifies base`decorativeObjects, base.scene, base.world
      ensures base.scene.nodes == old(base.scene.nodes) - MeshOf(base.mesh) - NodesOf(old(base.decorativeObjects))
      ensures base.world.bodies == old(base.world.bodies) - BodiesOf(old(base.decorativeObjects))
      ensures base.decorativeObjects == []
    {
      base.RemoveFromScene();
    }
  }
}
