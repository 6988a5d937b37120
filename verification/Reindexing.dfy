/** The reindex trigger as the distribution policies see it: its n-th result is fixed beforehand,
    the same for every rank, and the capacity never shrinks. */
module Reindexing {
  import opened Dealing

  class IndexedSource {
    var capacity: nat
    var future: seq<nat>      // the capacities that the coming triggers will reach
    ghost var seen: seq<nat>  // the capacities so far, the current one last

    ghost predicate Valid()
      reads this
    {
      seen != [] && seen[|seen| - 1] == capacity && Growing(seen + future)
    }

    constructor (capacity: nat, future: seq<nat>)
      requires Growing([capacity] + future)
      ensures Valid() && seen == [capacity] && this.capacity == capacity && this.future == future
    {
      this.capacity, this.future, this.seen := capacity, future, [capacity];
    }

    method Trigger() returns (more: bool)
      requires Valid()
      modifies this
      ensures Valid() && seen + future == old(seen + future)
      ensures more <==> old(future) != []
      ensures more ==> seen == old(seen) + [capacity] && |future| == |old(future)| - 1
      ensures more ==> WindowStart(seen, |seen| - 1) == old(capacity) <= capacity
      ensures !more ==> capacity == old(capacity) && seen == old(seen) && future == []
    {
      if future == [] {
        return false;
      }
      capacity := future[0];
      seen := seen + [capacity];
      assert seen + future[1..] == old(seen + future);
      assert old(seen + future)[|seen| - 1] == capacity && old(seen + future)[|seen| - 2] == old(capacity);
      future := future[1..];
      return true;
    }
  }

  lemma GrowingPrefix(seen: seq<nat>, future: seq<nat>)
    requires Growing(seen + future)
    ensures Growing(seen)
  {
    assert forall i :: 0 <= i < |seen| ==> (seen + future)[i] == seen[i];
  }

  /** Block k of the current window, with the blocks of the windows before it, is a block of the deal. */
  lemma WindowBlock(seen: seq<nat>, size: Size, k: nat)
    requires seen != [] && Growing(seen)
    ensures WindowStart(seen, |seen| - 1) <= seen[|seen| - 1]
    ensures |Deal(seen, size)| == |Deal(seen[..|seen| - 1], size)| + Blocks(WindowStart(seen, |seen| - 1), seen[|seen| - 1], size)
    ensures IsWindowBlock(Deal(seen, size), |Deal(seen[..|seen| - 1], size)|, WindowStart(seen, |seen| - 1), seen[|seen| - 1], size, k)
  {
    var n := |seen| - 1;
    CutAt(WindowStart(seen, n), seen[n], size);
    PastWindow(k, WindowStart(seen, n), seen[n], size);
  }

  ghost predicate IsWindowBlock(deal: seq<Batch>, before: nat, start: nat, cap: nat, size: Size, k: nat) {
    var first := start + k * size;
    && (first >= cap <==> before + k >= |deal|)
    && (first < cap ==> deal[before + k] == Batch(first, if first + size < cap then first + size else cap))
  }

  /** A counter that has passed `count` blocks of the windows seen. */
  ghost predicate At(seen: seq<nat>, size: Size, eventIdx: nat, count: nat)
    requires seen != []
  {
    var n := |seen| - 1;
    var before := |Deal(seen[..n], size)|;
    && before <= count <= |Deal(seen, size)|
    && eventIdx == if count < |Deal(seen, size)| then WindowStart(seen, n) + (count - before) * size else seen[n]
  }

  lemma AtStart(seen: seq<nat>, size: Size)
    requires |seen| == 1
    ensures At(seen, size, 0, 0)
  {
    WindowBlock(seen, size, 0);
    assert seen[..0] == [];
  }

  function Smaller(a: nat, b: nat): (m: nat)
    ensures m <= a && m <= b && (m == a || m == b)
  {
    if a < b then a else b
  }

  /** Below the capacity the counter stands at the next block of the deal, and passes it. */
  lemma AtNext(seen: seq<nat>, size: Size, eventIdx: nat, count: nat)
    requires seen != [] && Growing(seen) && At(seen, size, eventIdx, count)
    ensures eventIdx <= seen[|seen| - 1]
    ensures eventIdx == seen[|seen| - 1] <==> count == |Deal(seen, size)|
    ensures eventIdx < seen[|seen| - 1] ==>
              && count < |Deal(seen, size)|
              && Deal(seen, size)[count] == Batch(eventIdx, Smaller(eventIdx + size, seen[|seen| - 1]))
              && At(seen, size, Smaller(eventIdx + size, seen[|seen| - 1]), count + 1)
  {
    hide Deal, Growing;
    var k := count - |Deal(seen[..|seen| - 1], size)|;
    WindowBlock(seen, size, k);
    WindowBlock(seen, size, k + 1);
    MulStep(k, size);
  }

  /** At the capacity, the counter is at the start of the next window. */
  lemma AtNewWindow(seen: seq<nat>, size: Size, eventIdx: nat, count: nat, cap: nat)
    requires seen != [] && Growing(seen + [cap]) && At(seen, size, eventIdx, count) && eventIdx >= seen[|seen| - 1]
    ensures Growing(seen) && At(seen + [cap], size, eventIdx, count)
  {
    GrowingPrefix(seen, [cap]);
    AtNext(seen, size, eventIdx, count);
    assert (seen + [cap])[..|seen|] == seen;
    WindowBlock(seen + [cap], size, 0);
  }

  /** The deal of fewer windows is a prefix of the deal of more. */
  lemma {:induction false} DealPrefix(seen: seq<nat>, future: seq<nat>, size: Size)
    ensures Deal(seen, size) <= Deal(seen + future, size)
    decreases |future|
  {
    var all := seen + future;
    if future == [] {
      assert all == seen;
    } else {
      var n := |future| - 1;
      DealPrefix(seen, future[..n], size);
      assert all[..|all| - 1] == seen + future[..n];
    }
  }

  /** The blocks that the counter has passed lie end to end from 0 to the counter. */
  lemma AtContiguous(seen: seq<nat>, size: Size, eventIdx: nat, count: nat)
    requires seen != [] && Growing(seen) && At(seen, size, eventIdx, count)
    ensures count <= |Deal(seen, size)| && Contiguous(Deal(seen, size)[..count], eventIdx)
  {
    hide Deal, Growing, At, WellCut;
    AtNext(seen, size, eventIdx, count);
    DealPartitions(seen, size);
    assert count <= |Deal(seen, size)| by { AtMost(seen, size, eventIdx, count); }
    var deal := Deal(seen, size);
    if count == |deal| {
      assert deal[..count] == deal;
    }
  }

  lemma AtMost(seen: seq<nat>, size: Size, eventIdx: nat, count: nat)
    requires seen != [] && At(seen, size, eventIdx, count)
    ensures count <= |Deal(seen, size)|
  {
  }
}
