/** `SkeletonAnimationSystem`: plays one named keyframe list on an enemy skeleton. */
module SkeletonAnimation {
  import opened Wrappers
  import opened Poses
  import opened Keyframes
  import opened Skeletons
  import opened SkeletonAnimationLoading

  const WalkAnimation: string := "skeletonWalk"
  const AttackAnimation: string := "attack"

  /** The pose a frame applies: only a blended pose is applied; `null` and a TypeError apply nothing. */
  function PoseToApply(r: Option<Option<Pose>>): (p: Pose)
    ensures r.Some? && r.value.Some? ==> p == r.value.value
    ensures r.None? || r.value.None? ==> p == map[]
  {
    if r.Some? && r.value.Some? then r.value.value else map[]
  }

  /** The loader's answer is the TypeError of a blend, not a pose or `null`. */
  predicate Throws(r: Option<Option<Pose>>) {
    r.Some? && r.value.None?
  }

  class SkeletonAnimationSystem {
    const skeleton: Skeleton
    const animationLoader: SkeletonAnimationLoader
    var currentAnimation: string
    var animationProgress: real
    var animationSpeed: real

    constructor(skeleton: Skeleton)
      ensures this.skeleton == skeleton && fresh(animationLoader)
      ensures animationLoader.animations == map[]
      ensures currentAnimation == WalkAnimation && animationProgress == 0.0 && animationSpeed == 1.0
    {
      this.skeleton := skeleton;
      animationLoader := new SkeletonAnimationLoader();
      currentAnimation := WalkAnimation;
      animationProgress := 0.0;
      animationSpeed := 1.0;
    }

    /** `loadAnimations`: the walk list from two poses, then the attack list from two. */
    method LoadAnimations(walk: seq<Option<Pose>>, attack: seq<Option<Pose>>)
      requires |walk| == 2 && |attack| == 2
      modifies animationLoader
      ensures animationLoader.animations == old(animationLoader.animations)
        [WalkAnimation := CloseCycle(Successes(walk))][AttackAnimation := CloseCycle(Successes(attack))]
    {
      animationLoader.LoadAnimation(WalkAnimation, walk);
      animationLoader.LoadAnimation(AttackAnimation, attack);
    }

    /**
     * `update`: progress advances by `deltaTime * speed`, wrapping past 1,
     * then the sampled pose is applied. `crashed` is the TypeError the
     * sample throws when two neighbouring poses name different bones: then
     * no bone changes and the exception leaves `update`.
     */
    method Update(deltaTime: real) returns (crashed: bool)
      modifies this`animationProgress, skeleton
      ensures animationProgress == old(NextProgress(deltaTime))
      ensures crashed == old(WillThrow(deltaTime))
      ensures skeleton.bones == Applied(old(skeleton.bones),
        PoseToApply(animationLoader.GetInterpolatedPose(currentAnimation, animationProgress)))
    {
      var next := NextProgress(deltaTime);
      animationProgress := next;
      crashed := ApplyCurrent();
    }

    /** The next `update`, `deltaTime` later, samples a pose that throws. */
    predicate WillThrow(deltaTime: real)
      reads this, animationLoader
    {
      Throws(animationLoader.GetInterpolatedPose(currentAnimation, NextProgress(deltaTime)))
    }

    /** The progress `update` moves to, `deltaTime` later: a step of `deltaTime * speed`, wrapping past 1. */
    function NextProgress(deltaTime: real): real
      reads this
    {
      Advance(animationProgress, deltaTime * animationSpeed)
    }

    /** The sample-and-apply half of `update`, at the current progress. */
    method ApplyCurrent() returns (crashed: bool)
      modifies skeleton
      ensures crashed == Throws(animationLoader.GetInterpolatedPose(currentAnimation, animationProgress))
      ensures crashed ==> skeleton.bones == old(skeleton.bones)
      ensures skeleton.bones == Applied(old(skeleton.bones),
        PoseToApply(animationLoader.GetInterpolatedPose(currentAnimation, animationProgress)))
    {
      var pose := animationLoader.GetInterpolatedPose(currentAnimation, animationProgress);
      crashed := Throws(pose);
      ApplyPose(PoseToApply(pose));
    }

    method ApplyPose(pose: Pose)
      modifies skeleton
      ensures skeleton.bones == Applied(old(skeleton.bones), pose)
    {
      skeleton.ApplyPose(pose);
    }

    /** `setAnimation`: switches and restarts only when that name was loaded (even to an empty list). */
    method SetAnimation(name: string)
      modifies this`currentAnimation, this`animationProgress
      ensures name in animationLoader.animations ==> currentAnimation == name && animationProgress == 0.0
      ensures name !in animationLoader.animations ==>
        currentAnimation == old(currentAnimation) && animationProgress == old(animationProgress)
    {
      if name in animationLoader.animations {
        currentAnimation := name;
        animationProgress := 0.0;
      }
    }

    method SetAnimationSpeed(speed: real)
      modifies this`animationSpeed
      ensures animationSpeed == speed
    {
      animationSpeed := speed;
    }
  }

  /** An unloaded animation leaves every bone as it was. */
  lemma NothingLoadedAppliesNothing(bones: Pose, l: SkeletonAnimationLoader, name: string, p: real)
    requires name !in l.animations
    ensures Applied(bones, PoseToApply(l.GetInterpolatedPose(name, p))) == bones
  {
  }
}
