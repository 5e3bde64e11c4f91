/**
 * `PoseControlSystem`: saving the skeleton's rotations and loading a saved
 * pose back. The JSON text of `savePose`/`loadPose` is represented by the
 * parsed pose itself.
 */
module PoseControl {
  import opened Wrappers
  import opened Poses
  import opened Skeletons

  class PoseControlSystem {
    const skeleton: Skeleton

    constructor(skeleton: Skeleton)
      ensures this.skeleton == skeleton
    {
      this.skeleton := skeleton;
    }

    /** `savePose`: one entry per bone, holding its rotation. */
    function SavePose(): (pose: Pose)
      reads skeleton
      ensures pose.Keys == skeleton.bones.Keys
      ensures forall b :: b in pose ==> pose[b] == skeleton.bones[b]
    {
      skeleton.bones
    }

    /**
     * `loadPose`: every bone the pose names takes the saved rotation; other
     * bones, and names without a bone, are left alone.
     */
    method LoadPose(pose: Pose)
      modifies skeleton
      ensures skeleton.bones.Keys == old(skeleton.bones.Keys)
      ensures forall b :: b in skeleton.bones && b in pose ==> skeleton.bones[b] == pose[b]
      ensures forall b :: b in skeleton.bones && b !in pose ==> skeleton.bones[b] == old(skeleton.bones[b])
    {
      var start := skeleton.bones;
      var bones := start.Keys;
      while bones != {}
        invariant bones <= start.Keys
        invariant skeleton.bones.Keys == start.Keys
        invariant forall b :: b in start ==>
          skeleton.bones[b] == if b in pose && b !in bones then pose[b] else start[b]
        decreases |bones|
      {
        var name :| name in bones;
        if name in pose {
          skeleton.bones := skeleton.bones[name := pose[name]];
        }
        bones := bones - {name};
      }
    }

    /** `loadBasePose`: a failed fetch or parse is caught and changes nothing. */
    method LoadBasePose(fetched: Option<Pose>)
      modifies skeleton
      ensures fetched.None? ==> skeleton.bones == old(skeleton.bones)
      ensures fetched.Some? ==> skeleton.bones == Applied(old(skeleton.bones), fetched.value)
    {
      if fetched.Some? {
        LoadPose(fetched.value);
      }
    }
  }
}
