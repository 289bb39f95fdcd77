/**
 * The point view as the outlier filter sees it: a number of points and, per
 * point, a mutable Classification value (an 8-bit unsigned label). Coordinates are
 * read only by the spatial index, which is not part of this model.
 */
module Points {
  import opened Types

  class PointView {
    /** The Classification dimension, one slot per point id. */
    const classification: array<UInt8>

    constructor (labels: seq<UInt8>)
      ensures fresh(classification) && classification[..] == labels
    {
      classification := new UInt8[|labels|](i requires 0 <= i < |labels| => labels[i]);
    }

    /** The number of points in the view. */
    function Size(): nat {
      classification.Length
    }

    /** `setField(Dimension::Id::Classification, idx, value)`: one slot, nothing else. */
    method SetClassification(idx: nat, value: UInt8)
      requires idx < Size()
      modifies classification
      ensures classification[idx] == value
      ensures forall i :: 0 <= i < Size() && i != idx ==> classification[i] == old(classification[i])
    {
      classification[idx] := value;
    }
  }
}
