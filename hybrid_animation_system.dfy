/** `HybridAnimationSystem`: the player's walk cycle driven by the movement flags. */
module HybridAnimation {
  import opened Wrappers
  import opened Poses
  import opened Keyframes
  import opened Skeletons
  import opened WalkCycle

  /**
   * The walk-progress step of `update`: forward and plain walking advance
   * and wrap past 1, backward walking retreats and wraps below 0, and
   * standing still leaves progress alone.
   */
  function NextWalkProgress(p: real, step: real, forward: bool, backward: bool, walking: bool): real
  {
    if !walking then p
    else if forward then Advance(p, step)
    else if backward then Retreat(p, step)
    else Advance(p, step)
  }

  /**
   * Standing still keeps progress; forward (which wins over backward) and
   * plain walking move it up by the step, backward walking down by it,
   * unless a wrap intervenes.
   */
  lemma WalkProgressCases(p: real, step: real, forward: bool, backward: bool, walking: bool)
    ensures !walking ==> NextWalkProgress(p, step, forward, backward, walking) == p
    ensures walking && (forward || !backward) && p + step <= 1.0 ==>
      NextWalkProgress(p, step, forward, backward, walking) == p + step
    ensures walking && !forward && backward && p - step >= 0.0 ==>
      NextWalkProgress(p, step, forward, backward, walking) == p - step
  {
    AdvanceCases(p, step);
    RetreatCases(p, step);
  }

  /** Walk progress never leaves [0, 1] for a non-negative step. */
  lemma WalkProgressInUnit(p: real, step: real, forward: bool, backward: bool, walking: bool)
    requires 0.0 <= p <= 1.0 && step >= 0.0
    ensures 0.0 <= NextWalkProgress(p, step, forward, backward, walking) <= 1.0
  {
    WrapsStayInUnit(p, step);
  }

  /** Moving forward and walking with neither flag set step the cycle identically. */
  lemma ForwardIsPlainWalking(p: real, step: real, backward: bool)
    ensures NextWalkProgress(p, step, true, backward, true) == NextWalkProgress(p, step, false, false, true)
  {
  }

  /**
   * The guard of `updateIKTargets`, `!solver || !iks || !iks.length < 2`:
   * `!iks.length` is a boolean, and a boolean is always below 2, so with
   * a solver present the method always takes its warning exit.
   */
  function IKGuard(hasSolver: bool, hasChains: bool, chainCount: nat): (exits: bool)
    ensures exits
  {
    var notLength := if chainCount == 0 then 1 else 0;
    !hasSolver || !hasChains || notLength < 2
  }

  /** Each keyframe names only bones the next one names too, so no blend throws. */
  predicate Chained(steps: seq<Pose>) {
    forall i :: 0 <= i < |steps| - 1 ==> steps[i].Keys <= steps[i + 1].Keys
  }

  /** The pose one walk frame applies; the TypeError case applies nothing. */
  function WalkPoseToApply(steps: seq<Pose>, progress: real): Pose {
    var s := WalkSample(steps, progress);
    if s.pose.Some? then s.pose.value else map[]
  }

  /**
   * What a walk frame applies: nothing with no steps, the single step with
   * one, nothing for negative progress, and the blended sample in full when
   * progress lies in [0, 1) and the keyframes are chained.
   */
  lemma WalkPoseCases(steps: seq<Pose>, progress: real)
    ensures steps == [] ==> WalkPoseToApply(steps, progress) == map[]
    ensures |steps| == 1 ==> WalkPoseToApply(steps, progress) == steps[0]
    ensures |steps| >= 2 && progress < 0.0 ==> WalkPoseToApply(steps, progress) == map[]
    ensures |steps| >= 2 && 0.0 <= progress < 1.0 && Chained(steps) ==>
      WalkSample(steps, progress).pose == Some(WalkPoseToApply(steps, progress))
  {
    if |steps| >= 2 && 0.0 <= progress < 1.0 && Chained(steps) {
      var s := SampleAt(steps, progress);
      var i := s.index;
      assert 0 <= i <= |steps| - 2;
      ModBelow(i + 1, |steps|);
      assert steps[i].Keys <= steps[i + 1].Keys;
    }
  }

  lemma ModBelow(x: int, n: int)
    requires 0 <= x < n
    ensures x % n == x
  {
  }

  class HybridAnimationSystem {
    const skeleton: Skeleton
    const walkCycleLoader: WalkCycleLoader
    var walkProgress: real
    /** Set to 1 by the constructor and never changed. */
    const walkSpeed: real := 1.0
    var currentState: string
    var needsIKUpdate: bool

    constructor(skeleton: Skeleton)
      ensures this.skeleton == skeleton && fresh(walkCycleLoader) && walkCycleLoader.steps == []
      ensures walkProgress == 0.0 && walkSpeed == 1.0 && currentState == "idle" && !needsIKUpdate
    {
      this.skeleton := skeleton;
      walkCycleLoader := new WalkCycleLoader();
      walkProgress := 0.0;
      currentState := "idle";
      needsIKUpdate := false;
    }

    /**
     * `update`: while walking, progress steps and the sampled walk pose is
     * applied (nothing is applied when the sample throws); a pending IK
     * request is consumed.
     */
    method Update(deltaTime: real, forward: bool, backward: bool, walking: bool)
      modifies this`walkProgress, this`needsIKUpdate, skeleton, walkCycleLoader
      ensures walkProgress == NextWalkProgress(old(walkProgress), deltaTime * walkSpeed, forward, backward, walking)
      ensures !walking ==> walkProgress == old(walkProgress)
      ensures walkCycleLoader.steps == old(walkCycleLoader.steps)
      ensures walking ==> skeleton.bones == Applied(old(skeleton.bones), WalkPoseToApply(walkCycleLoader.steps, walkProgress))
      ensures !walking ==> skeleton.bones == old(skeleton.bones)
      ensures !needsIKUpdate
    {
      walkProgress := NextWalkProgress(walkProgress, deltaTime * walkSpeed, forward, backward, walking);
      if walking {
        ApplyWalkPose();
      }
      if needsIKUpdate {
        var _ := UpdateIKTargets();
        needsIKUpdate := false;
      }
    }

    /** The sample-and-apply half of `update`; a sample that throws applies nothing. */
    method ApplyWalkPose()
      modifies skeleton, walkCycleLoader
      ensures walkCycleLoader.steps == old(walkCycleLoader.steps)
      ensures skeleton.bones == Applied(old(skeleton.bones), WalkPoseToApply(walkCycleLoader.steps, walkProgress))
    {
      var pose := walkCycleLoader.GetInterpolatedPose(walkProgress);
      if pose.Some? {
        ApplyPose(pose.value);
      }
    }

    method SetNeedsIKUpdate()
      modifies this`needsIKUpdate
      ensures needsIKUpdate
    {
      needsIKUpdate := true;
    }

    /** `updateIKTargets`: the guard always exits, so no foot target is moved. */
    method UpdateIKTargets() returns (warned: bool)
      ensures warned
    {
      warned := IKGuard(true, true, 2);
    }

    method ApplyPose(pose: Pose)
      modifies skeleton
      ensures skeleton.bones == Applied(old(skeleton.bones), pose)
    {
      skeleton.ApplyPose(pose);
    }

    method TransitionTo(newState: string)
      modifies this`currentState
      ensures currentState == newState
    {
      if newState != currentState {
        currentState := newState;
      }
    }
  }
}
