/** `SkeletonAnimationLoader`: named keyframe lists for the enemy skeletons. */
module SkeletonAnimationLoading {
  import opened Wrappers
  import opened Poses
  import opened Keyframes

  class SkeletonAnimationLoader {
    var animations: map<string, seq<Pose>>

    constructor()
      ensures animations == map[]
    {
      animations := map[];
    }

    /**
     * `loadAnimation`, given the outcome of each pose fetch: the named list is
     * replaced by the successes, closed into a cycle; other names are untouched.
     */
    method LoadAnimation(name: string, results: seq<Option<Pose>>)
      modifies this
      ensures animations == old(animations)[name := CloseCycle(Successes(results))]
    {
      animations := animations[name := []];
      var i := 0;
      while i < |results|
        invariant 0 <= i <= |results|
        invariant animations == old(animations)[name := Successes(results[..i])]
      {
        var list := animations[name];
        assert results[..i + 1][..i] == results[..i];
        if results[i].Some? {
          list := list + [results[i].value];
        }
        assert list == Successes(results[..i + 1]);
        animations := animations[name := list];
        i := i + 1;
      }
      assert results[..|results|] == results;
      if |animations[name]| > 0 {
        animations := animations[name := animations[name] + [animations[name][0]]];
      }
    }

    /**
     * `getInterpolatedPose`: `None` is the source's `null` (unknown name or
     * fewer than two poses); otherwise the sample, itself `None` on a TypeError.
     */
    function GetInterpolatedPose(name: string, progress: real): (r: Option<Option<Pose>>)
      reads this
      ensures r.None? <==> name !in animations || |animations[name]| < 2
    {
      if name !in animations || |animations[name]| < 2 then None
      else Some(SampleAt(animations[name], progress).pose)
    }
  }

  /** A single successful fetch is enough for the animation to play. */
  lemma OneSuccessPlays(results: seq<Option<Pose>>, name: string, l: SkeletonAnimationLoader)
    requires Successes(results) != []
    requires l.animations == map[name := CloseCycle(Successes(results))]
    ensures l.GetInterpolatedPose(name, 0.0).Some?
    ensures l.GetInterpolatedPose(name, 1.0) == Some(Some(Successes(results)[0]))
  {
    LoadedCycleCloses(Successes(results));
  }
}
