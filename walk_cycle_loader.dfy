/** `WalkCycleLoader`: the player's walk keyframes and their sampling. */
module WalkCycle {
  import opened Wrappers
  import opened Poses
  import opened JsMath
  import opened Keyframes

  /** The pose files fetched, in order. */
  const StepOrder: seq<string> := ["base Pose", "walk1", "walk2", "walk3", "walk4", "walk5"]

  /**
   * One sampling call for any number of steps. With one step the span is
   * infinite, the index 0 and the factor 0, so the single step is returned;
   * with none the span is -1 and the bone loop over `undefined` yields `{}`.
   */
  function WalkSample(steps: seq<Pose>, progress: real): (s: Sample)
    ensures |steps| == 1 ==> s.index == 0 && s.pose == Some(steps[0])
    ensures steps == [] ==> s.pose == Some(map[])
  {
    if |steps| >= 2 then SampleAt(steps, progress)
    else if |steps| == 1 then
      LerpPoseAtZero(steps[0], steps[0]);
      Sample(0, 0.0, LerpPose(steps[0], steps[0], 0.0))
    else Sample((progress / -1.0).Floor, RealRem(progress, -1.0) / -1.0, Some(map[]))
  }

  class WalkCycleLoader {
    var steps: seq<Pose>
    var currentStepIndex: int
    var interpolationFactor: real

    constructor()
      ensures steps == [] && currentStepIndex == 0 && interpolationFactor == 0.0
    {
      steps := [];
      currentStepIndex := 0;
      interpolationFactor := 0.0;
    }

    /**
     * `loadSteps`, given the outcome of each fetch in `StepOrder`: successes
     * are appended to whatever was loaded before, then the first pose is
     * appended once more.
     */
    method LoadSteps(results: seq<Option<Pose>>)
      requires |results| == |StepOrder|
      modifies this`steps
      ensures steps == CloseCycle(old(steps) + Successes(results))
    {
      var i := 0;
      while i < |results|
        invariant 0 <= i <= |results|
        invariant steps == old(steps) + Successes(results[..i])
      {
        assert results[..i + 1][..i] == results[..i];
        if results[i].Some? {
          steps := steps + [results[i].value];
        }
        i := i + 1;
      }
      assert results[..|results|] == results;
      if |steps| > 0 {
        steps := steps + [steps[0]];
      }
    }

    /** `getInterpolatedPose`; it also records the span index and factor. */
    method GetInterpolatedPose(progress: real) returns (pose: Option<Pose>)
      modifies this`currentStepIndex, this`interpolationFactor
      ensures pose == WalkSample(steps, progress).pose
      ensures currentStepIndex == WalkSample(steps, progress).index
      ensures interpolationFactor == WalkSample(steps, progress).factor
    {
      var s := WalkSample(steps, progress);
      currentStepIndex := s.index;
      interpolationFactor := s.factor;
      pose := s.pose;
    }
  }

  /** Loading all six walk poses into an empty loader yields seven, the last a copy of the first. */
  lemma FullLoad(results: seq<Option<Pose>>)
    requires |results| == |StepOrder|
    requires forall i :: 0 <= i < |results| ==> results[i].Some?
    ensures |CloseCycle(Successes(results))| == 7
    ensures CloseCycle(Successes(results))[6] == results[0].value
  {
    SuccessesCount(results);
    SuccessesFirst(results);
  }

  /** With every fetch successful, the first kept pose is the first fetched. */
  lemma {:induction false} SuccessesFirst(results: seq<Option<Pose>>)
    requires results != [] && results[0].Some?
    ensures Successes(results) != [] && Successes(results)[0] == results[0].value
  {
    if |results| > 1 {
      var init := results[..|results| - 1];
      SuccessesFirst(init);
      assert init[0] == results[0];
    } else {
      assert results[..0] == [];
    }
  }
}
