/**
 * The outlier filter: its configuration, the thread-count check made before a run,
 * the two classifiers (radius and statistical) and the run that applies their
 * result to a point view.
 *
 * The spatial index is not modelled. What the classifiers learn from it is given
 * as input, one entry per point id: for the radius method the number of points
 * within the radius (the point itself included), for the statistical method the
 * mean distance to the k nearest other points, and the threshold derived from
 * those means. The thread pool is replaced by one worker draining the queue.
 */
module Outlier {
  import opened Types
  import opened CaseFold
  import opened WorkQueue
  import opened Points

  /** The ASPRS "Low Point (noise)" classification, the default label for outliers. */
  const LOW_POINT: UInt8 := 7

  /** The classifier a method name selects. */
  datatype Method = Statistical | Radius | Unrecognized

  /** Method names are matched ignoring case, "statistical" first. */
  function MethodOf(name: string): (m: Method)
    ensures m == Statistical <==> IEquals(name, "statistical")
    ensures m == Radius <==> IEquals(name, "radius")
    ensures m == Unrecognized <==> !IEquals(name, "statistical") && !IEquals(name, "radius")
  {
    if IEquals(name, "statistical") then Statistical
    else if IEquals(name, "radius") then Radius
    else Unrecognized
  }

  /**
   * What the spatial index would report for each point id of a view: the radius
   * query's neighbour count, the running mean of the k nearest distances, and the
   * threshold `mean + multiplier * stdev` over those means.
   */
  datatype Neighbourhoods = Neighbourhoods(radiusCount: seq<nat>, meanDistance: seq<Double>, threshold: Double)

  /** The reports cover exactly the np points of the view. */
  predicate Covers(nb: Neighbourhoods, np: nat) {
    |nb.radiusCount| == np && |nb.meanDistance| == np
  }

  /** Radius criterion: strictly more neighbours than `size_t(minK)`. */
  predicate RadiusInlier(count: nat, minK: Int32)
    ensures minK >= 0 ==> (RadiusInlier(count, minK) <==> count > minK)
    ensures minK < 0 ==> (RadiusInlier(count, minK) <==> count > SIZE_LIMIT + minK)
    ensures minK >= 0 && count == minK ==> !RadiusInlier(count, minK)
  {
    count > SizeTOf(minK)
  }

  /** Statistical criterion: mean distance strictly below the threshold. */
  predicate StatisticalInlier(distance: Double, threshold: Double)
    ensures StatisticalInlier(distance, threshold) ==> distance.Finite? && threshold.Finite?
    ensures distance.Finite? && threshold.Finite? ==>
      (StatisticalInlier(distance, threshold) <==> distance.value < threshold.value)
    ensures distance == threshold ==> !StatisticalInlier(distance, threshold)
  {
    Less(distance, threshold)
  }

  /** Whether point i is kept by the classifier that m selects. */
  predicate IsInlier(m: Method, minK: Int32, nb: Neighbourhoods, i: nat)
    requires i < |nb.radiusCount| && i < |nb.meanDistance|
  {
    match m
    case Radius => RadiusInlier(nb.radiusCount[i], minK)
    case Statistical => StatisticalInlier(nb.meanDistance[i], nb.threshold)
    case Unrecognized => false
  }

  /** Which of its exits a run takes; each but the first returns the view. */
  datatype Disposition = EmptyView | UnrecognizedMethod | WouldRemoveAll | LabeledOutliers | NoOutliers

  /** The exit a run takes, from the view size, the method name and the per-point criterion. */
  ghost function ExpectedDisposition(name: string, minK: Int32, nb: Neighbourhoods, np: nat): (d: Disposition)
    requires Covers(nb, np)
    ensures d == EmptyView <==> np == 0
    ensures d == UnrecognizedMethod <==> np > 0 && MethodOf(name) == Unrecognized
    ensures d == WouldRemoveAll ==> np > 0 && forall i :: 0 <= i < np ==> !IsInlier(MethodOf(name), minK, nb, i)
    ensures d == NoOutliers ==> np > 0 && forall i :: 0 <= i < np ==> IsInlier(MethodOf(name), minK, nb, i)
  {
    var m := MethodOf(name);
    if np == 0 then EmptyView
    else if m == Unrecognized then UnrecognizedMethod
    else if forall i :: 0 <= i < np ==> !IsInlier(m, minK, nb, i) then WouldRemoveAll
    else if forall i :: 0 <= i < np ==> IsInlier(m, minK, nb, i) then NoOutliers
    else LabeledOutliers
  }

  /** Labels are written exactly when the view is non-empty, the method known, and both lists non-empty. */
  lemma LabelsWrittenIff(name: string, minK: Int32, nb: Neighbourhoods, np: nat)
    requires Covers(nb, np)
    ensures ExpectedDisposition(name, minK, nb, np) == LabeledOutliers <==>
      && MethodOf(name) != Unrecognized
      && (exists i :: 0 <= i < np && IsInlier(MethodOf(name), minK, nb, i))
      && (exists j :: 0 <= j < np && !IsInlier(MethodOf(name), minK, nb, j))
  {
  }

  /**
   * Under the size_t conversion a negative minK is at least 2^64 - 2^31, so no
   * realistic neighbour count exceeds it: every point is an outlier and the run
   * falls back to returning the view unchanged.
   */
  lemma NegativeMinKRejectsAll(name: string, minK: Int32, nb: Neighbourhoods, np: nat)
    requires Covers(nb, np) && np > 0
    requires MethodOf(name) == Radius && minK < 0
    requires forall i :: 0 <= i < np ==> nb.radiusCount[i] < SIZE_LIMIT - 0x8000_0000
    ensures ExpectedDisposition(name, minK, nb, np) == WouldRemoveAll
  {
  }

  /**
   * A NaN threshold (as with a single point, whose sample variance divides zero by
   * zero) compares false with every distance: every point is an outlier and the
   * run falls back to returning the view unchanged.
   */
  lemma NaNThresholdRejectsAll(name: string, minK: Int32, nb: Neighbourhoods, np: nat)
    requires Covers(nb, np) && np > 0
    requires MethodOf(name) == Statistical && nb.threshold == NaN
    ensures ExpectedDisposition(name, minK, nb, np) == WouldRemoveAll
  {
  }

  /**
   * The radius query counts the point itself, so every count is at least 1; with
   * minK = 0 no point is an outlier and the view comes back unchanged.
   */
  lemma ZeroMinKKeepsAll(name: string, nb: Neighbourhoods, np: nat)
    requires Covers(nb, np) && np > 0
    requires MethodOf(name) == Radius
    requires forall i :: 0 <= i < np ==> nb.radiusCount[i] >= 1
    ensures ExpectedDisposition(name, 0, nb, np) == NoOutliers
  {
    assert IsInlier(Radius, 0, nb, 0);
  }

  class OutlierFilter {
    var methodName: string
    var minK: Int32
    var radius: real
    var meanK: Int32
    var multiplier: real
    var classLabel: UInt8
    var threads: UInt32

    /** The filter with every option at its default. */
    constructor ()
      ensures methodName == "statistical" && minK == 2 && radius == 1.0 && meanK == 8
      ensures multiplier == 2.0 && classLabel == LOW_POINT && threads == 1
    {
      methodName := "statistical";
      minK := 2;
      radius := 1.0;
      meanK := 8;
      multiplier := 2.0;
      classLabel := LOW_POINT;
      threads := 1;
    }

    /**
     * The check made before a run: a thread count of 0 is raised to 1 (first
     * warning); any other count is kept, and a count above the hardware
     * concurrency only raises the second warning.
     */
    method Ready(hardwareConcurrency: UInt32) returns (tooFewWarning: bool, tooManyWarning: bool)
      modifies this`threads
      ensures tooFewWarning == (old(threads) == 0)
      ensures threads == if old(threads) == 0 then 1 else old(threads)
      ensures threads >= 1
      ensures tooManyWarning == (threads > hardwareConcurrency)
    {
      tooFewWarning := threads < 1;
      if tooFewWarning {
        threads := 1;
      }
      tooManyWarning := threads > hardwareConcurrency;
    }

    /**
     * The radius classifier for a view of |neighbourCount| points: every id is
     * taken from the queue once and goes to exactly one list, the inliers when its
     * neighbour count is strictly greater than `size_t(minK)`.
     */
    method ProcessRadius(neighbourCount: seq<nat>) returns (ind: Indices)
      requires threads >= 1
      ensures IsPartition(ind, |neighbourCount|)
      ensures forall i :: 0 <= i < |neighbourCount| ==>
        (i in ind.inliers <==> RadiusInlier(neighbourCount[i], minK))
    {
      var np := |neighbourCount|;
      var queue := new IndexQueue(np);
      var inliers: seq<nat>, outliers: seq<nat> := [], [];
      while true
        invariant queue.Valid() && queue.size == np
        invariant multiset(inliers) + multiset(outliers) == multiset(queue.claimed)
        invariant forall x :: x in inliers ==> x < np && RadiusInlier(neighbourCount[x], minK)
        invariant forall x :: x in outliers ==> x < np && !RadiusInlier(neighbourCount[x], minK)
        decreases |queue.items|
      {
        var found, idx := queue.Pop();
        if !found {
          break;
        }
        if neighbourCount[idx] > SizeTOf(minK) {
          assert multiset(inliers + [idx]) == multiset(inliers) + multiset([idx]);
          inliers := inliers + [idx];
        } else {
          assert multiset(outliers + [idx]) == multiset(outliers) + multiset([idx]);
          outliers := outliers + [idx];
        }
      }
      ind := Indices(inliers, outliers);
      PartitionFacts(ind, np);
    }

    /**
     * The statistical classifier for a view of |meanDistance| points: the mean
     * distances are gathered through the queue, then split at the threshold.
     */
    method ProcessStatistical(meanDistance: seq<Double>, threshold: Double) returns (ind: Indices)
      requires threads >= 1
      ensures IsPartition(ind, |meanDistance|)
      ensures forall i :: 0 <= i < |meanDistance| ==>
        (i in ind.inliers <==> StatisticalInlier(meanDistance[i], threshold))
      ensures StrictlyIncreasing(ind.inliers) && StrictlyIncreasing(ind.outliers)
    {
      var distances := GatherDistances(meanDistance);
      ind := SplitAtThreshold(distances[..], threshold);
    }

    /**
     * The parallel phase of the statistical classifier, run by one worker: the queue
     * hands out every id once and that id's mean distance is written to its own slot
     * of a vector that starts out all zero.
     */
    static method GatherDistances(meanDistance: seq<Double>) returns (distances: array<Double>)
      ensures fresh(distances) && distances[..] == meanDistance
    {
      var np := |meanDistance|;
      var queue := new IndexQueue(np);
      distances := new Double[np](_ => Finite(0.0));
      while true
        invariant queue.Valid() && queue.size == np && distances.Length == np
        invariant forall x :: 0 <= x < np ==>
          distances[x] == if x < |queue.claimed| then meanDistance[x] else Finite(0.0)
        decreases |queue.items|
      {
        var found, idx := queue.Pop();
        if !found {
          break;
        }
        distances[idx] := meanDistance[idx];
      }
      assert distances[..] == meanDistance;
    }

    /**
     * The final partition of the statistical classifier: ids are visited in
     * ascending order and go to the inliers when their distance is strictly below
     * the threshold, to the outliers otherwise (NaN included).
     */
    static method SplitAtThreshold(distances: seq<Double>, threshold: Double) returns (ind: Indices)
      ensures IsPartition(ind, |distances|)
      ensures forall i :: 0 <= i < |distances| ==>
        (i in ind.inliers <==> StatisticalInlier(distances[i], threshold))
      ensures StrictlyIncreasing(ind.inliers) && StrictlyIncreasing(ind.outliers)
    {
      var np := |distances|;
      var inliers: seq<nat>, outliers: seq<nat> := [], [];
      for i := 0 to np
        invariant forall x :: x in inliers ==> x < i && StatisticalInlier(distances[x], threshold)
        invariant forall x :: x in outliers ==> x < i && !StatisticalInlier(distances[x], threshold)
        invariant forall x :: 0 <= x < i ==> x in inliers || x in outliers
        invariant StrictlyIncreasing(inliers) && StrictlyIncreasing(outliers)
      {
        if Less(distances[i], threshold) {
          AppendLargerIncreasing(inliers, i);
          inliers := inliers + [i];
        } else {
          AppendLargerIncreasing(outliers, i);
          outliers := outliers + [i];
        }
      }
      ind := Indices(inliers, outliers);
      IncreasingNoDuplicates(inliers);
      IncreasingNoDuplicates(outliers);
      PartitionFromMembership(ind, np);
    }

    /**
     * One run over a view. An empty view yields no view at all; an unrecognised
     * method, a result with no inliers, or one with no outliers yields the view
     * unchanged; otherwise every outlier's Classification becomes `classLabel`, every
     * other point keeps its value, and the view is returned.
     */
    method Run(view: PointView, nb: Neighbourhoods) returns (viewSet: set<PointView>, disposition: Disposition)
      requires threads >= 1
      requires Covers(nb, view.Size())
      modifies view.classification
      ensures disposition == ExpectedDisposition(methodName, minK, nb, view.Size())
      ensures viewSet == if disposition == EmptyView then {} else {view}
      ensures forall i :: 0 <= i < view.Size() ==>
        view.classification[i] ==
          if disposition == LabeledOutliers && !IsInlier(MethodOf(methodName), minK, nb, i)
          then classLabel
          else old(view.classification[i])
      ensures disposition != LabeledOutliers ==> view.classification[..] == old(view.classification[..])
    {
      var np := view.Size();
      if np == 0 {
        return {}, EmptyView;
      }
      var m := MethodOf(methodName);
      var ind: Indices;
      if m == Statistical {
        ind := ProcessStatistical(nb.meanDistance, nb.threshold);
      } else if m == Radius {
        ind := ProcessRadius(nb.radiusCount);
      } else {
        return {view}, UnrecognizedMethod;
      }
      PartitionFacts(ind, np);
      assert forall i :: 0 <= i < np ==> (i in ind.inliers <==> IsInlier(m, minK, nb, i));

      if ind.inliers == [] {
        return {view}, WouldRemoveAll;
      }
      assert ind.inliers[0] in ind.inliers;

      if ind.outliers != [] {
        assert ind.outliers[0] in ind.outliers;
        LabelOutliers(view, ind.outliers, classLabel);
        viewSet, disposition := {view}, LabeledOutliers;
      } else {
        viewSet, disposition := {view}, NoOutliers;
      }
    }

    /**
     * The labelling loop of a run: each listed outlier's Classification is set to
     * `noiseClass`; every other point keeps its value.
     */
    static method LabelOutliers(view: PointView, outliers: seq<nat>, noiseClass: UInt8)
      requires forall x :: x in outliers ==> x < view.Size()
      modifies view.classification
      ensures forall i :: 0 <= i < view.Size() ==>
        view.classification[i] == if i in outliers then noiseClass else old(view.classification[i])
    {
      for k := 0 to |outliers|
        invariant forall i :: 0 <= i < view.Size() ==>
          view.classification[i] == if i in outliers[..k] then noiseClass else old(view.classification[i])
      {
        assert outliers[..k + 1] == outliers[..k] + [outliers[k]];
        assert outliers[k] in outliers;
        view.SetClassification(outliers[k], noiseClass);
      }
      assert outliers[..|outliers|] == outliers;
    }
  }
}
