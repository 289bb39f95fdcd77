/**
 * The work queue both classifiers drain: a FIFO of point ids filled with
 * 0, 1, ..., np - 1 and consumed from the front, one id per claim. The model runs a
 * single worker; `claimed` records, in order, every id handed out so far, so that
 * `claimed + items` is always the full id range and no id can be handed out twice.
 */
module WorkQueue {
  import opened Types

  class IndexQueue {
    /** The ids still waiting, front first. */
    var items: seq<nat>
    /** The ids already handed out, in the order they were popped. */
    ghost var claimed: seq<nat>
    /** The number of points the queue was filled for. */
    ghost const size: nat

    ghost predicate Valid()
      reads this
    {
      claimed + items == Iota(size)
    }

    /** A deque of np slots written by `std::iota`: 0, 1, ..., np - 1. */
    constructor (np: nat)
      ensures Valid() && size == np
      ensures items == Iota(np) && claimed == []
    {
      size := np;
      claimed := [];
      var filled: seq<nat> := [];
      for i := 0 to np
        invariant filled == Iota(i)
      {
        filled := filled + [i];
      }
      items := filled;
    }

    /**
     * One claim under the queue lock: if the queue is empty, report so; otherwise
     * take the front id. The id handed out is the next one in order, below `size`.
     */
    method Pop() returns (found: bool, idx: nat)
      requires Valid()
      modifies this
      ensures Valid()
      ensures found <==> old(items) != []
      ensures found ==> idx == old(items)[0] && items == old(items)[1..] && claimed == old(claimed) + [idx]
      ensures found ==> idx == |old(claimed)| && idx < size
      ensures !found ==> items == [] && claimed == old(claimed) == Iota(size)
    {
      if items == [] {
        found, idx := false, 0;
        assert claimed == claimed + items;
        return;
      }
      found, idx := true, items[0];
      assert (claimed + items)[|claimed|] == idx;
      claimed, items := claimed + [idx], items[1..];
      assert claimed + items == old(claimed) + old(items);
    }
  }

  /** The ids claimed so far are exactly the first |claimed| ids, each once. */
  lemma ClaimedIsPrefix(claimed: seq<nat>, items: seq<nat>, np: nat)
    requires claimed + items == Iota(np)
    ensures claimed == Iota(|claimed|)
    ensures forall x :: x in claimed <==> 0 <= x < |claimed|
  {
    forall i | 0 <= i < |claimed| ensures claimed[i] == i {
      assert (claimed + items)[i] == claimed[i];
    }
    forall x: nat | x < |claimed| ensures x in claimed {
      assert claimed[x] == x;
    }
    forall x | x in claimed ensures x < |claimed| {
      var i :| 0 <= i < |claimed| && claimed[i] == x;
    }
  }
}
