/** A `THREE.Skeleton`, reduced to the rotation of each named bone. */
module Skeletons {
  import opened Poses

  class Skeleton {
    var bones: Pose

    constructor(bones: Pose)
      ensures this.bones == bones
    {
      this.bones := bones;
    }

    /** The loop shared by every `applyPose` over `Object.entries(pose)`. */
    method ApplyPose(pose: Pose)
      modifies this
      ensures bones == Applied(old(bones), pose)
    {
      var start := bones;
      var remaining := pose.Keys;
      while remaining != {}
        invariant remaining <= pose.Keys
        invariant bones.Keys == start.Keys
        invariant forall b :: b in start ==>
          bones[b] == if b in pose && b !in remaining then pose[b] else start[b]
        decreases |remaining|
      {
        var name :| name in remaining;
        if name in bones {
          bones := bones[name := pose[name]];
        }
        remaining := remaining - {name};
      }
    }

    /** `captureCurrentPose` / `savePose`: every bone's current rotation. */
    function Capture(): (p: Pose)
      reads this
      ensures p.Keys == bones.Keys
      ensures Applied(bones, p) == bones
    {
      bones
    }
  }
}
