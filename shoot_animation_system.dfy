/** `ShootAnimationSystem`: the recoil blend played when the player shoots. */
module ShootAnimation {
  import opened Wrappers
  import opened Poses
  import opened Skeletons

  /** `animationDuration`: one recoil half lasts 0.2 s. */
  const Duration: real := 0.2

  /**
   * `getInterpolatedPose`: the bone loop runs over the captured start pose
   * (`for…in null` runs zero times) and reads the recoil pose for each of its
   * bones; reading from a missing recoil pose is the TypeError, `None`.
   */
  function ShootBlend(start: Option<Pose>, recoil: Option<Pose>, progress: real): (r: Option<Pose>)
    ensures start.None? ==> r == Some(map[])
    ensures start.Some? && recoil.Some? ==> r == LerpPose(start.value, recoil.value, progress)
    ensures start.Some? && start.value != map[] && recoil.None? ==> r.None?
  {
    match start
    case None => Some(map[])
    case Some(s) =>
      match recoil
      case Some(q) => LerpPose(s, q, progress)
      case None => if s == map[] then Some(map[]) else None
  }

  /**
   * The phase of `update` after progress has advanced: up to 1 the blend runs
   * toward the recoil pose, up to 2 it runs back, beyond 2 the animation ends.
   */
  function BlendProgress(progress: real): (r: Option<real>)
    ensures progress <= 1.0 ==> r == Some(progress)
    ensures 1.0 < progress <= 2.0 ==> r == Some(2.0 - progress)
    ensures progress > 2.0 ==> r.None?
  {
    if progress <= 1.0 then Some(progress)
    else if progress <= 2.0 then Some(2.0 - progress)
    else None
  }

  /** The return half mirrors the outward half: progress 1 + u blends like 1 - u. */
  lemma ReturnMirrorsOutward(u: real)
    requires 0.0 <= u <= 1.0
    ensures BlendProgress(1.0 + u) == BlendProgress(1.0 - u)
  {
  }

  /** The outward half starts at the captured pose and peaks at the recoil pose. */
  lemma BlendEnds(start: Pose, recoil: Pose)
    requires start.Keys <= recoil.Keys
    ensures ShootBlend(Some(start), Some(recoil), 0.0) == Some(start)
    ensures ShootBlend(Some(start), Some(recoil), 1.0) == Some(map b | b in start :: recoil[b])
  {
    LerpPoseAtZero(start, recoil);
    LerpPoseAtOne(start, recoil);
  }

  /**
   * Seen through the phase of `update`: progress 1 shows the recoil pose on
   * the captured bones and progress 2 shows the captured pose again.
   */
  lemma PhaseEnds(start: Pose, recoil: Pose)
    requires start.Keys <= recoil.Keys
    ensures ShootBlend(Some(start), Some(recoil), BlendProgress(1.0).value) == Some(map b | b in start :: recoil[b])
    ensures ShootBlend(Some(start), Some(recoil), BlendProgress(2.0).value) == Some(start)
  {
    BlendEnds(start, recoil);
  }

  class ShootAnimationSystem {
    const skeleton: Skeleton
    var start: Option<Pose>
    var recoil: Option<Pose>
    var isAnimating: bool
    var animationProgress: real

    constructor(skeleton: Skeleton)
      ensures this.skeleton == skeleton && start.None? && recoil.None?
      ensures !isAnimating && animationProgress == 0.0
    {
      this.skeleton := skeleton;
      start := None;
      recoil := None;
      isAnimating := false;
      animationProgress := 0.0;
    }

    /** `loadShootPoses` completing: the recoil pose, or nothing when the fetch failed. */
    method OnRecoilLoaded(fetched: Option<Pose>)
      modifies this`recoil
      ensures fetched.Some? ==> recoil == fetched
      ensures fetched.None? ==> recoil == old(recoil)
    {
      if fetched.Some? {
        recoil := fetched;
      }
    }

    /** `startShootAnimation`: refused while animating; otherwise restarts from the current pose. */
    method StartShootAnimation() returns (started: bool)
      modifies this`isAnimating, this`animationProgress, this`start
      ensures started == !old(isAnimating)
      ensures started ==> isAnimating && animationProgress == 0.0 && start == Some(CaptureCurrentPose())
      ensures !started ==> isAnimating && animationProgress == old(animationProgress) && start == old(start)
    {
      if isAnimating {
        return false;
      }
      isAnimating := true;
      animationProgress := 0.0;
      start := Some(CaptureCurrentPose());
      return true;
    }

    /** `captureCurrentPose`: every bone's rotation. */
    function CaptureCurrentPose(): (p: Pose)
      reads skeleton
      ensures p.Keys == skeleton.bones.Keys
      ensures Applied(skeleton.bones, p) == skeleton.bones
    {
      skeleton.Capture()
    }

    /**
     * `update`: while animating, progress advances by `deltaTime / 0.2` and the
     * blend for the phase is applied; past 2 the animation stops. `crashed`
     * is the TypeError of a blend reading a recoil pose it lacks.
     */
    method Update(deltaTime: real) returns (crashed: bool)
      modifies this`isAnimating, this`animationProgress, skeleton
      ensures !old(isAnimating) ==>
        !crashed && !isAnimating && animationProgress == old(animationProgress) && skeleton.bones == old(skeleton.bones)
      ensures old(isAnimating) ==> animationProgress == old(animationProgress) + deltaTime / Duration
      ensures old(isAnimating) ==> (isAnimating <==> BlendProgress(animationProgress).Some?)
      ensures old(isAnimating) && BlendProgress(animationProgress).Some? ==>
        crashed == ShootBlend(start, recoil, BlendProgress(animationProgress).value).None?
      ensures BlendProgress(animationProgress).None? ==> skeleton.bones == old(skeleton.bones)
      ensures old(isAnimating) && !crashed && BlendProgress(animationProgress).Some? ==>
        skeleton.bones == Applied(old(skeleton.bones),
          ShootBlend(start, recoil, BlendProgress(animationProgress).value).value)
      ensures crashed ==> skeleton.bones == old(skeleton.bones)
      ensures crashed ==> old(isAnimating) && BlendProgress(animationProgress).Some?
    {
      crashed := false;
      if !isAnimating {
        return;
      }
      animationProgress := animationProgress + deltaTime / Duration;
      var phase := BlendProgress(animationProgress);
      if phase.Some? {
        var pose := GetInterpolatedPose(phase.value);
        if pose.Some? {
          ApplyPose(pose.value);
        } else {
          crashed := true;
        }
      } else {
        isAnimating := false;
      }
    }

    function GetInterpolatedPose(progress: real): (r: Option<Pose>)
      reads this
      ensures start.Some? && recoil.Some? && start.value.Keys <= recoil.value.Keys ==>
        r.Some? && r.value.Keys == start.value.Keys
    {
      ShootBlend(start, recoil, progress)
    }

    method ApplyPose(pose: Pose)
      modifies skeleton
      ensures skeleton.bones == Applied(old(skeleton.bones), pose)
    {
      skeleton.ApplyPose(pose);
    }

    /** `canShoot`: only when no recoil is playing. */
    function CanShoot(): (ok: bool)
      reads this
      ensures ok <==> !isAnimating
    {
      !isAnimating
    }
  }
}
