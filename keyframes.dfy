/**
 * The keyframe sampling shared by `WalkCycleLoader.getInterpolatedPose` and
 * `SkeletonAnimationLoader.getInterpolatedPose` for a list of at least two
 * poses: progress is divided into `n - 1` equal spans; the span index is
 * `floor(progress / span)`, the blend factor the JavaScript remainder
 * `(progress % span) / span`, and the pose blends keyframe `index` toward
 * keyframe `(index + 1) % n`.
 */
module Keyframes {
  import opened Wrappers
  import opened Poses
  import opened JsMath

  /** `1 / (n - 1)`. */
  function Span(n: nat): (d: real)
    requires n >= 2
    ensures d > 0.0
  {
    1.0 / ((n - 1) as real)
  }

  function KeyIndex(n: nat, progress: real): int
    requires n >= 2
  {
    (progress / Span(n)).Floor
  }

  function KeyFactor(n: nat, progress: real): real
    requires n >= 2
  {
    RealRem(progress, Span(n)) / Span(n)
  }

  /**
   * What one sampling call computes: the span index and blend factor it
   * records, and the blended pose. An index outside the list reads
   * `undefined` and the bone loop yields `{}`; a bone missing from the next
   * keyframe is the TypeError, `None`.
   */
  datatype Sample = Sample(index: int, factor: real, pose: Option<Pose>)

  function SampleAt(steps: seq<Pose>, progress: real): (s: Sample)
    requires |steps| >= 2
    ensures progress >= 0.0 ==> s.index >= 0 && 0.0 <= s.factor < 1.0
    ensures 0.0 <= progress < 1.0 ==> s.index <= |steps| - 2
    ensures progress < 0.0 ==> s.index < 0
    ensures !(0 <= s.index < |steps|) ==> s.pose == Some(map[])
    ensures 0 <= s.index < |steps| ==>
      (s.pose.Some? <==> steps[s.index].Keys <= steps[(s.index + 1) % |steps|].Keys)
    ensures 0 <= s.index < |steps| && s.pose.Some? ==> s.pose.value.Keys == steps[s.index].Keys
  {
    var n := |steps|;
    var i := KeyIndex(n, progress);
    var f := KeyFactor(n, progress);
    KeyBounds(n, progress);
    Sample(i, f, if 0 <= i < n then LerpPose(steps[i], steps[(i + 1) % n], f) else Some(map[]))
  }

  /** Dividing by the span is multiplying by the number of spans. */
  lemma ScaledProgress(n: nat, progress: real)
    requires n >= 2
    ensures progress / Span(n) == progress * ((n - 1) as real)
  {
    var k := (n - 1) as real;
    assert Span(n) * k == 1.0;
    assert (progress * k) * Span(n) == progress;
  }

  /**
   * For non-negative progress the factor is the fractional part of
   * `progress * (n - 1)`, so it lies in [0, 1).
   */
  lemma FactorIsFraction(n: nat, progress: real)
    requires n >= 2 && progress >= 0.0
    ensures KeyIndex(n, progress) >= 0
    ensures KeyFactor(n, progress) == progress * ((n - 1) as real) - KeyIndex(n, progress) as real
    ensures 0.0 <= KeyFactor(n, progress) < 1.0
  {
    var d := Span(n);
    var q := progress / d;
    ScaledProgress(n, progress);
    assert q >= 0.0;
    assert Trunc(q) == q.Floor;
    var t := q.Floor as real;
    assert RealRem(progress, d) == progress - d * t;
    assert (progress - d * t) / d == progress / d - t;
  }

  /** Progress in [0, 1) selects a span whose successor is inside the list. */
  lemma IndexInRange(n: nat, progress: real)
    requires n >= 2 && 0.0 <= progress < 1.0
    ensures 0 <= KeyIndex(n, progress) <= n - 2
  {
    ScaledProgress(n, progress);
    var k := (n - 1) as real;
    assert progress * k < k;
  }

  /** Negative progress indexes before the list. */
  lemma NegativeIndex(n: nat, progress: real)
    requires n >= 2 && progress < 0.0
    ensures KeyIndex(n, progress) < 0
  {
    ScaledProgress(n, progress);
    var k := (n - 1) as real;
    assert progress * k < 0.0;
  }

  /** The three index and factor facts, by the sign and size of progress. */
  lemma KeyBounds(n: nat, progress: real)
    requires n >= 2
    ensures progress >= 0.0 ==> KeyIndex(n, progress) >= 0 && 0.0 <= KeyFactor(n, progress) < 1.0
    ensures 0.0 <= progress < 1.0 ==> KeyIndex(n, progress) <= n - 2
    ensures progress < 0.0 ==> KeyIndex(n, progress) < 0
  {
    if progress < 0.0 {
      NegativeIndex(n, progress);
    } else {
      FactorIsFraction(n, progress);
      if progress < 1.0 {
        IndexInRange(n, progress);
      }
    }
  }

  /**
   * Progress `k / (n - 1)` lands exactly on keyframe k with factor 0, so the
   * sample is keyframe k itself (provided its bones all appear in the next one).
   */
  lemma AtKeyframe(steps: seq<Pose>, k: nat)
    requires 2 <= |steps| && k < |steps|
    requires steps[k].Keys <= steps[(k + 1) % |steps|].Keys
    ensures SampleAt(steps, k as real / ((|steps| - 1) as real)) == Sample(k, 0.0, Some(steps[k]))
  {
    var n := |steps|;
    var m := (n - 1) as real;
    var p := k as real / m;
    ScaledProgress(n, p);
    assert p * m == k as real;
    assert KeyIndex(n, p) == k;
    FactorIsFraction(n, p);
    assert KeyFactor(n, p) == 0.0;
    LerpPoseAtZero(steps[k], steps[(k + 1) % n]);
  }

  /** Progress 0 samples the first keyframe exactly. */
  lemma AtStart(steps: seq<Pose>)
    requires |steps| >= 2 && steps[0].Keys <= steps[1].Keys
    ensures SampleAt(steps, 0.0).pose == Some(steps[0])
  {
    AtKeyframe(steps, 0);
    assert 0 as real / ((|steps| - 1) as real) == 0.0;
  }

  /**
   * When the list ends with a copy of its first pose (as both loaders build
   * it), progress 1 samples the same pose as progress 0: the cycle closes.
   */
  lemma CycleCloses(steps: seq<Pose>)
    requires |steps| >= 2 && steps[|steps| - 1] == steps[0]
    requires steps[0].Keys <= steps[1].Keys
    ensures SampleAt(steps, 1.0).pose == SampleAt(steps, 0.0).pose == Some(steps[0])
  {
    var n := |steps|;
    AtStart(steps);
    assert (n - 1 + 1) % n == 0;
    var m := (n - 1) as real;
    assert m / m == 1.0;
    AtKeyframe(steps, n - 1);
  }

  /**
   * The poses a loading loop keeps: one per successful fetch, in fetch order;
   * failed fetches are skipped.
   */
  function Successes(results: seq<Option<Pose>>): seq<Pose>
  {
    if results == [] then []
    else
      var last := results[|results| - 1];
      var kept := if last.Some? then [last.value] else [];
      Successes(results[..|results| - 1]) + kept
  }

  /** After the loop: when anything was loaded, the first pose is appended again. */
  function CloseCycle(poses: seq<Pose>): (r: seq<Pose>)
    ensures poses == [] ==> r == []
    ensures poses != [] ==> |r| == |poses| + 1 && r[..|poses|] == poses && r[|poses|] == poses[0]
  {
    if |poses| > 0 then poses + [poses[0]] else poses
  }

  /** Every success is kept and nothing else: the list is at most as long as the fetches. */
  lemma {:induction false} SuccessesCount(results: seq<Option<Pose>>)
    ensures |Successes(results)| <= |results|
    ensures (forall i :: 0 <= i < |results| ==> results[i].Some?) ==> |Successes(results)| == |results|
    ensures (forall i :: 0 <= i < |results| ==> results[i].None?) ==> Successes(results) == []
  {
    if results != [] {
      SuccessesCount(results[..|results| - 1]);
    }
  }

  /** A pose is kept exactly when some fetch produced it. */
  lemma {:induction false} SuccessesMembers(results: seq<Option<Pose>>, p: Pose)
    ensures p in Successes(results) <==> Some(p) in results
  {
    if results != [] {
      var init := results[..|results| - 1];
      SuccessesMembers(init, p);
      assert results == init + [results[|results| - 1]];
    }
  }

  /**
   * A loaded list with at least one pose has at least two entries and ends
   * where it starts: progress 1 samples the first pose again, so the cycle closes.
   */
  lemma LoadedCycleCloses(poses: seq<Pose>)
    requires poses != []
    ensures |CloseCycle(poses)| >= 2
    ensures SampleAt(CloseCycle(poses), 1.0).pose == Some(poses[0])
  {
    var s := CloseCycle(poses);
    var n := |s|;
    assert s[n - 1] == poses[0] == s[0];
    assert (n - 1 + 1) % n == 0;
    AtKeyframe(s, n - 1);
    assert (n - 1) as real / ((n - 1) as real) == 1.0;
  }

  /** `p += step; if (p > 1) p %= 1`. */
  function Advance(p: real, step: real): real
  {
    if p + step > 1.0 then RealRem(p + step, 1.0) else p + step
  }

  /**
   * Without a wrap progress moves by exactly the step; a wrap past 1 lands
   * in [0, 1) by dropping a whole number of cycles.
   */
  lemma AdvanceCases(p: real, step: real)
    ensures p + step <= 1.0 ==> Advance(p, step) == p + step
    ensures p + step > 1.0 ==> var r := Advance(p, step);
      0.0 <= r < 1.0 && (p + step - r).Floor as real == p + step - r
  {
    if p + step > 1.0 {
      RealRemByOne(p + step);
    }
  }

  /** `p -= step; if (p < 0) p = 1 + (p % 1)`. */
  function Retreat(p: real, step: real): real
  {
    if p - step < 0.0 then 1.0 + RealRem(p - step, 1.0) else p - step
  }

  /**
   * Without a wrap progress moves back by exactly the step; a wrap below 0
   * lands in (0, 1] by adding a whole number of cycles.
   */
  lemma RetreatCases(p: real, step: real)
    ensures p - step >= 0.0 ==> Retreat(p, step) == p - step
    ensures p - step < 0.0 ==> var r := Retreat(p, step);
      0.0 < r <= 1.0 && (r - (p - step)).Floor as real == r - (p - step)
  {
    if p - step < 0.0 {
      NegativeWrap(p - step);
    }
  }

  /** `1 + (q % 1)` for negative q lies in (0, 1] and differs from q by a whole number. */
  lemma NegativeWrap(q: real)
    requires q < 0.0
    ensures var r := 1.0 + RealRem(q, 1.0);
      0.0 < r <= 1.0 && (r - q).Floor as real == r - q
  {
    var t := Trunc(q);
    assert q / 1.0 == q;
    assert RealRem(q, 1.0) == q - t as real;
    var k := 1 - t;
    assert 1.0 + RealRem(q, 1.0) - q == k as real;
    assert (k as real).Floor == k;
  }

  /** Both wraps keep progress inside [0, 1] for a non-negative step. */
  lemma WrapsStayInUnit(p: real, step: real)
    requires 0.0 <= p <= 1.0 && step >= 0.0
    ensures 0.0 <= Advance(p, step) <= 1.0
    ensures 0.0 < Retreat(p, step) <= 1.0 || Retreat(p, step) == p - step
    ensures 0.0 <= Retreat(p, step) <= 1.0
  {
    if p + step > 1.0 {
      RealRemByOne(p + step);
    }
    var q := p - step;
    if q < 0.0 {
      var t := Trunc(q);
      assert q - 1.0 < t as real <= 0.0;
    }
  }
}
