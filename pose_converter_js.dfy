/**
 * `poseConverte.js`: the older converter, which adds the Three.js base pose
 * itself (not an offset) to each Blender rotation.
 */
module PoseConverterJs {
  import opened Poses
  import opened PoseConverterPy

  /**
   * `convertAngles`: every Blender bone the base pose has an entry for (an
   * entry is an object, so the truthiness test is a presence test), each
   * rotation plus the base rotation; the inputs are left as they are. It is
   * the per-bone addition of the Python converter with the base pose in the
   * place of the offset.
   */
  function ConvertAnglesWithBase(blenderAngles: BlenderPose, threeJsBase: Pose): (converted: Pose)
    ensures converted.Keys == blenderAngles.Keys * threeJsBase.Keys
    ensures forall b :: b in converted ==>
      converted[b].x == blenderAngles[b].rotationX + threeJsBase[b].x &&
      converted[b].y == blenderAngles[b].rotationY + threeJsBase[b].y &&
      converted[b].z == blenderAngles[b].rotationZ + threeJsBase[b].z
  {
    ConvertAngles(blenderAngles, threeJsBase)
  }

  predicate IsZero(r: BlenderRot) {
    r.rotationX == 0.0 && r.rotationY == 0.0 && r.rotationZ == 0.0
  }

  /**
   * The two converters agree exactly when the Blender base is zero on the
   * bones being converted: with a zero Blender base the offset is the Three.js
   * base, and a non-zero Blender base bone makes them disagree on that bone.
   */
  lemma ConvertersAgreeOnZeroBase(angles: BlenderPose, blenderBase: BlenderPose, threeJsBase: Pose)
    requires threeJsBase.Keys <= blenderBase.Keys
    ensures ConvertAnglesWithBase(angles, threeJsBase) ==
              ConvertAngles(angles, CalculateOffset(blenderBase, threeJsBase))
            <==> forall b :: b in angles && b in threeJsBase ==> IsZero(blenderBase[b])
  {
    var js := ConvertAnglesWithBase(angles, threeJsBase);
    var py := ConvertAngles(angles, CalculateOffset(blenderBase, threeJsBase));
    assert js.Keys == py.Keys;
    if forall b :: b in angles && b in threeJsBase ==> IsZero(blenderBase[b]) {
      forall b | b in js ensures js[b] == py[b] {
        assert IsZero(blenderBase[b]);
      }
      assert js == py;
    } else {
      var b :| b in angles && b in threeJsBase && !IsZero(blenderBase[b]);
      assert b in js;
      assert js[b] != py[b];
    }
  }
}
