/**
 * Bone rotations and poses. A pose is the parsed form of a pose JSON file:
 * a bone name mapped to its Euler rotation `{x, y, z}`.
 */
module Poses {
  import opened Wrappers
  import V = Vectors

  datatype Rot = Rot(x: real, y: real, z: real)

  type Pose = map<string, Rot>

  function LerpRot(a: Rot, b: Rot, t: real): Rot {
    Rot(V.Lerp(a.x, b.x, t), V.Lerp(a.y, b.y, t), V.Lerp(a.z, b.z, t))
  }

  /**
   * The keyframe blend loop: for every bone of `current`, the lerp of its
   * rotation toward the same bone of `next`. Reading a bone that `next` lacks
   * throws a TypeError in the source; that is `None` here.
   */
  function LerpPose(current: Pose, next: Pose, t: real): (r: Option<Pose>)
    ensures r.Some? <==> current.Keys <= next.Keys
    ensures r.Some? ==> r.value.Keys == current.Keys
    ensures r.Some? ==> forall b :: b in current ==> r.value[b] == LerpRot(current[b], next[b], t)
  {
    if current.Keys <= next.Keys then
      Some(map b | b in current :: LerpRot(current[b], next[b], t))
    else None
  }

  /** At t = 0 the blend is the current pose itself. */
  lemma LerpPoseAtZero(current: Pose, next: Pose)
    requires current.Keys <= next.Keys
    ensures LerpPose(current, next, 0.0) == Some(current)
  {
    var r := LerpPose(current, next, 0.0).value;
    forall b | b in current ensures r[b] == current[b] {
      V.LerpEnds(current[b].x, next[b].x);
      V.LerpEnds(current[b].y, next[b].y);
      V.LerpEnds(current[b].z, next[b].z);
    }
    assert r == current;
  }

  /** At t = 1 the blend is `next` restricted to the bones of `current`. */
  lemma LerpPoseAtOne(current: Pose, next: Pose)
    requires current.Keys <= next.Keys
    ensures LerpPose(current, next, 1.0) == Some(map b | b in current :: next[b])
  {
    var r := LerpPose(current, next, 1.0).value;
    forall b | b in current ensures r[b] == next[b] {
      V.LerpEnds(current[b].x, next[b].x);
      V.LerpEnds(current[b].y, next[b].y);
      V.LerpEnds(current[b].z, next[b].z);
    }
    assert r == map b | b in current :: next[b];
  }

  /**
   * The bone loop of every `applyPose`: each bone the pose names takes the
   * pose's rotation; bones the pose does not name keep theirs, and names with
   * no bone are ignored (`getBoneByName` finds nothing).
   */
  function Applied(bones: Pose, pose: Pose): (r: Pose)
    ensures r.Keys == bones.Keys
    ensures forall b :: b in bones && b in pose ==> r[b] == pose[b]
    ensures forall b :: b in bones && b !in pose ==> r[b] == bones[b]
  {
    map b | b in bones :: if b in pose then pose[b] else bones[b]
  }

  /** Applying a pose captured from the bones themselves changes nothing. */
  lemma AppliedCaptured(bones: Pose)
    ensures Applied(bones, bones) == bones
  {
  }

  /** The second of two poses wins on every bone it names. */
  lemma AppliedTwice(bones: Pose, p: Pose, q: Pose)
    requires p.Keys <= q.Keys
    ensures Applied(Applied(bones, p), q) == Applied(bones, q)
  {
  }
}
