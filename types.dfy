/**
 * Value types shared by the outlier filter: the fixed-width integers of its
 * configuration fields, the two-valued view of the doubles that the statistical
 * method compares, and `Indices`, the pair of point-id lists a classifier returns,
 * together with the partition property both classifiers promise.
 */
module Types {

  type UInt8 = x: int | 0 <= x < 0x100
  type UInt32 = x: int | 0 <= x < 0x1_0000_0000
  type Int32 = x: int | -0x8000_0000 <= x < 0x8000_0000

  /** 2^64: one more than the largest `size_t`. */
  const SIZE_LIMIT: int := 0x1_0000_0000_0000_0000

  /**
   * The C++ conversion `size_t(x)` of a signed 32-bit value: the value itself when
   * it is not negative, and the two's-complement wrap modulo 2^64 when it is.
   */
  function SizeTOf(x: Int32): (r: nat)
    ensures r < SIZE_LIMIT
    ensures x >= 0 ==> r == x
    ensures x < 0 ==> r == SIZE_LIMIT + x && r >= SIZE_LIMIT - 0x8000_0000
  {
    x % SIZE_LIMIT
  }

  /**
   * A double as far as the comparison `distances[i] < threshold` can tell: a finite
   * value, or NaN, which compares false against everything.
   */
  datatype Double = Finite(value: real) | NaN

  /** IEEE `a < b`: false whenever either side is NaN. */
  predicate Less(a: Double, b: Double)
    ensures a.NaN? || b.NaN? ==> !Less(a, b)
    ensures a.Finite? && b.Finite? ==> (Less(a, b) <==> a.value < b.value)
  {
    a.Finite? && b.Finite? && a.value < b.value
  }

  /** The result of a classifier: the ids of the points kept and of the noise points. */
  datatype Indices = Indices(inliers: seq<nat>, outliers: seq<nat>)

  /** The ids 0, 1, ..., n - 1 in order, as `std::iota` writes them. */
  function Iota(n: nat): (s: seq<nat>)
    ensures |s| == n
    ensures forall i :: 0 <= i < n ==> s[i] == i
  {
    if n == 0 then [] else Iota(n - 1) + [n - 1]
  }

  /**
   * Every id in [0, np) occurs exactly once in the two lists together, and no
   * other id occurs: the inlier and outlier lists partition the point ids.
   */
  ghost predicate IsPartition(ind: Indices, np: nat) {
    multiset(ind.inliers) + multiset(ind.outliers) == multiset(Iota(np))
  }

  predicate NoDuplicates(s: seq<nat>) {
    forall i, j :: 0 <= i < j < |s| ==> s[i] != s[j]
  }

  predicate StrictlyIncreasing(s: seq<nat>) {
    forall i, j :: 0 <= i < j < |s| ==> s[i] < s[j]
  }

  /** Appending a value above every element keeps a sequence strictly increasing. */
  lemma AppendLargerIncreasing(s: seq<nat>, v: nat)
    requires StrictlyIncreasing(s)
    requires forall x :: x in s ==> x < v
    ensures StrictlyIncreasing(s + [v])
  {
    forall i, j | 0 <= i < j < |s| + 1 ensures (s + [v])[i] < (s + [v])[j] {
      if j == |s| {
        assert s[i] in s;
      }
    }
  }

  /** Each id below n occurs once in Iota(n); no other id occurs. */
  lemma IotaCount(n: nat, x: nat)
    ensures multiset(Iota(n))[x] == if x < n then 1 else 0
  {
    var ids := Iota(n);
    NoDuplicatesCount(ids, x);
    if x < n {
      assert ids[x] == x;
    }
  }

  /** A value that occurs at two positions of s is counted at least twice. */
  lemma RepeatCounted(s: seq<nat>, i: nat, j: nat)
    requires i < j < |s| && s[i] == s[j]
    ensures multiset(s)[s[i]] >= 2
  {
    assert s == s[..i] + [s[i]] + s[i + 1..j] + [s[j]] + s[j + 1..];
  }

  /** A sequence whose every value is counted at most once has no duplicates. */
  lemma CountedOnceNoDuplicates(s: seq<nat>)
    requires forall x :: multiset(s)[x] <= 1
    ensures NoDuplicates(s)
  {
    forall i, j | 0 <= i < j < |s| ensures s[i] != s[j] {
      if s[i] == s[j] {
        RepeatCounted(s, i, j);
      }
    }
  }

  /**
   * What the partition property means element by element: neither list repeats an
   * id, both hold only ids below np, and each id below np is in exactly one of them.
   */
  lemma PartitionFacts(ind: Indices, np: nat)
    requires IsPartition(ind, np)
    ensures NoDuplicates(ind.inliers) && NoDuplicates(ind.outliers)
    ensures forall x :: x in ind.inliers ==> x < np
    ensures forall x :: x in ind.outliers ==> x < np
    ensures forall x :: 0 <= x < np ==> (x in ind.inliers <==> x !in ind.outliers)
  {
    forall x: nat
      ensures multiset(ind.inliers)[x] <= 1 && multiset(ind.outliers)[x] <= 1
      ensures x in ind.inliers ==> x < np
      ensures x in ind.outliers ==> x < np
      ensures x < np ==> (x in ind.inliers <==> x !in ind.outliers)
    {
      IotaCount(np, x);
      assert multiset(ind.inliers)[x] + multiset(ind.outliers)[x] == if x < np then 1 else 0;
    }
    CountedOnceNoDuplicates(ind.inliers);
    CountedOnceNoDuplicates(ind.outliers);
  }

  /** In a sequence without duplicates, each value it holds is counted exactly once. */
  lemma {:induction false} NoDuplicatesCount(s: seq<nat>, x: nat)
    requires NoDuplicates(s)
    ensures multiset(s)[x] == if x in s then 1 else 0
  {
    if s != [] {
      var head, tail := s[0], s[1..];
      assert s == [head] + tail;
      assert NoDuplicates(tail) by {
        forall i, j | 0 <= i < j < |tail| ensures tail[i] != tail[j] {
          assert tail[i] == s[i + 1] && tail[j] == s[j + 1];
        }
      }
      assert head !in tail by {
        forall i | 0 <= i < |tail| ensures tail[i] != head {
          assert tail[i] == s[i + 1];
        }
      }
      NoDuplicatesCount(tail, x);
      assert multiset(s) == multiset{head} + multiset(tail);
    }
  }

  /**
   * The converse of PartitionFacts: lists without duplicates that hold only ids below
   * np, and hold each of those ids in exactly one of them, partition [0, np).
   */
  lemma PartitionFromMembership(ind: Indices, np: nat)
    requires NoDuplicates(ind.inliers) && NoDuplicates(ind.outliers)
    requires forall x :: x in ind.inliers ==> x < np
    requires forall x :: x in ind.outliers ==> x < np
    requires forall x :: 0 <= x < np ==> (x in ind.inliers <==> x !in ind.outliers)
    ensures IsPartition(ind, np)
  {
    forall x: nat
      ensures (multiset(ind.inliers) + multiset(ind.outliers))[x] == multiset(Iota(np))[x]
    {
      NoDuplicatesCount(ind.inliers, x);
      NoDuplicatesCount(ind.outliers, x);
      IotaCount(np, x);
    }
    assert forall x :: (multiset(ind.inliers) + multiset(ind.outliers))[x] == multiset(Iota(np))[x];
  }

  /** A strictly increasing sequence has no duplicates. */
  lemma IncreasingNoDuplicates(s: seq<nat>)
    requires StrictlyIncreasing(s)
    ensures NoDuplicates(s)
  {
  }

  /**
   * Two partitions of [0, np) that agree on which ids are inliers are the same up to
   * the order of their lists: however the work was scheduled, the classification is
   * the same.
   */
  lemma PartitionDeterminedByInliers(a: Indices, b: Indices, np: nat)
    requires IsPartition(a, np) && IsPartition(b, np)
    requires forall x :: 0 <= x < np ==> (x in a.inliers <==> x in b.inliers)
    ensures multiset(a.inliers) == multiset(b.inliers)
    ensures multiset(a.outliers) == multiset(b.outliers)
  {
    forall x: nat
      ensures multiset(a.inliers)[x] == multiset(b.inliers)[x]
      ensures multiset(a.outliers)[x] == multiset(b.outliers)[x]
    {
      IotaCount(np, x);
      assert multiset(a.inliers)[x] + multiset(a.outliers)[x] == if x < np then 1 else 0;
      assert multiset(b.inliers)[x] + multiset(b.outliers)[x] == if x < np then 1 else 0;
      if x < np {
        assert x in a.inliers <==> x in b.inliers;
      }
    }
  }
}
