/** Dealing blocks of steps round-robin to workers, across index windows of any sizes. */
module Dealing {

  type Size = n: nat | n > 0 witness 1

  /** The steps first to last - 1. */
  datatype Batch = Batch(first: nat, last: nat)

  /** The reference: a window cut into blocks from its start, the last one possibly shorter. */
  ghost function Cut(start: nat, cap: nat, size: Size): seq<Batch>
    decreases cap - start
  {
    if start >= cap then []
    else [Batch(start, if start + size < cap then start + size else cap)] + Cut(start + size, cap, size)
  }

  /** Where the window begins that ends at caps[n]. */
  function WindowStart(caps: seq<nat>, n: nat): nat
    requires n < |caps|
  {
    if n == 0 then 0 else caps[n - 1]
  }

  /** All blocks, in order, of the windows that the capacities make one after another. */
  ghost function Deal(caps: seq<nat>, size: Size): seq<Batch> {
    if caps == [] then []
    else
      var n := |caps| - 1;
      Deal(caps[..n], size) + Cut(WindowStart(caps, n), caps[n], size)
  }

  ghost predicate Growing(caps: seq<nat>) {
    forall i, j :: 0 <= i <= j < |caps| ==> caps[i] <= caps[j]
  }

  /** How many blocks a window has. */
  function Blocks(start: nat, cap: nat, size: Size): nat
    requires start <= cap
  {
    (cap - start + size - 1) / size
  }

  // ----- Arithmetic

  lemma MulStep(a: int, n: nat)
    ensures (a + 1) * n == a * n + n
  {
  }

  lemma MulUp(a: int, b: int, n: nat)
    ensures a <= b ==> a * n <= b * n
  {
    if a <= b {
      assert b * n == a * n + (b - a) * n;
    }
  }

  /** Multiples on either side of a number bound its factor. */
  lemma Between(p: int, q: int, n: Size, a: int)
    requires p * n <= a < p * n + n && q * n <= a < q * n + n
    ensures p == q
  {
    MulStep(p, n);
    MulStep(q, n);
    MulUp(p + 1, q, n);
    MulUp(q + 1, p, n);
  }

  lemma DivIs(a: nat, n: Size, q: nat)
    requires q * n <= a < q * n + n
    ensures a / n == q && a % n == a - q * n
  {
    DivMod(a, n);
    Between(a / n, q, n, a);
  }

  lemma DivMod(a: nat, n: Size)
    ensures a == (a / n) * n + a % n && a % n < n
  {
  }

  lemma BlocksStep(start: nat, cap: nat, size: Size)
    requires start < cap
    ensures start + size <= cap ==> Blocks(start, cap, size) == 1 + Blocks(start + size, cap, size)
    ensures start + size > cap ==> Blocks(start, cap, size) == 1
  {
    var d := cap - start;
    if d < size {
      DivIs(d + size - 1, size, 1);
    } else {
      DivMod(d - 1, size);
      MulStep((d - 1) / size, size);
      DivIs(d + size - 1, size, (d - 1) / size + 1);
    }
  }

  /** Block i of a window starts i sizes in. */
  lemma {:induction false} CutAt(start: nat, cap: nat, size: Size)
    requires start <= cap
    ensures |Cut(start, cap, size)| == Blocks(start, cap, size)
    ensures forall i :: 0 <= i < |Cut(start, cap, size)| ==>
              var first := start + i * size;
              first < cap && Cut(start, cap, size)[i] == Batch(first, if first + size < cap then first + size else cap)
    decreases cap - start
  {
    if start == cap {
      DivIs(size - 1, size, 0);
    } else {
      BlocksStep(start, cap, size);
      if start + size <= cap {
        CutAt(start + size, cap, size);
        forall i | 0 <= i < |Cut(start, cap, size)|
          ensures var first := start + i * size;
                  first < cap && Cut(start, cap, size)[i] == Batch(first, if first + size < cap then first + size else cap)
        {
          if i > 0 {
            assert Cut(start, cap, size)[i] == Cut(start + size, cap, size)[i - 1];
            assert start + size + (i - 1) * size == start + i * size;
          }
        }
      }
    }
  }

  /** A block index is past the window exactly when its first step is. */
  lemma PastWindow(i: nat, start: nat, cap: nat, size: Size)
    requires start <= cap
    ensures start + i * size >= cap <==> i >= Blocks(start, cap, size)
  {
    var n: int := Blocks(start, cap, size);
    DivMod(cap - start + size - 1, size);
    MulUp(n, i, size);
    MulUp(i, n - 1, size);
    MulStep(n - 1, size);
  }

  // ----- The blocks partition the steps

  ghost predicate Contiguous(blocks: seq<Batch>, end: nat) {
    && (blocks == [] ==> end == 0)
    && (blocks != [] ==> blocks[0].first == 0 && blocks[|blocks| - 1].last == end)
    && (forall g :: 0 <= g < |blocks| ==> blocks[g].first < blocks[g].last)
    && (forall g :: 0 < g < |blocks| ==> blocks[g].first == blocks[g - 1].last)
  }

  lemma CutContiguous(start: nat, cap: nat, size: Size)
    requires start < cap
    ensures var c := Cut(start, cap, size);
            && |c| > 0 && c[0].first == start && c[|c| - 1].last == cap
            && (forall g :: 0 <= g < |c| ==> c[g].first < c[g].last <= c[g].first + size)
            && (forall g :: 0 < g < |c| ==> c[g].first == c[g - 1].last)
  {
    var c := Cut(start, cap, size);
    CutAt(start, cap, size);
    PastWindow(0, start, cap, size);
    PastWindow(|c|, start, cap, size);
    MulStep(|c| - 1, size);
    forall g | 0 < g < |c|
      ensures c[g].first == c[g - 1].last
    {
      MulStep(g - 1, size);
    }
  }

  /** Each block is of a size, and on one side of every window end. */
  ghost predicate WellCut(blocks: seq<Batch>, caps: seq<nat>, size: Size) {
    && (forall g :: 0 <= g < |blocks| ==> blocks[g].last <= blocks[g].first + size)
    && (forall g, n :: 0 <= g < |blocks| && 0 <= n < |caps| ==> blocks[g].last <= caps[n] || caps[n] <= blocks[g].first)
  }

  lemma AppendWindow(blocks: seq<Batch>, caps: seq<nat>, size: Size, start: nat, cap: nat)
    requires Contiguous(blocks, start) && WellCut(blocks, caps, size) && start <= cap
    requires forall n :: 0 <= n < |caps| ==> caps[n] <= start
    ensures Contiguous(blocks + Cut(start, cap, size), cap) && WellCut(blocks + Cut(start, cap, size), caps + [cap], size)
  {
    hide Cut;
    ContiguousBounds(blocks, start);
    CutInside(start, cap, size);
    if start < cap {
      CutContiguous(start, cap, size);
      Joined(blocks, Cut(start, cap, size), start, cap);
    } else {
      CutNothing(start, cap, size);
      assert blocks + Cut(start, cap, size) == blocks;
    }
  }

  lemma CutNothing(start: nat, cap: nat, size: Size)
    requires start >= cap
    ensures Cut(start, cap, size) == []
  {
  }

  lemma Joined(blocks: seq<Batch>, more: seq<Batch>, start: nat, cap: nat)
    requires Contiguous(blocks, start) && |more| > 0 && more[0].first == start && more[|more| - 1].last == cap
    requires forall g :: 0 <= g < |more| ==> more[g].first < more[g].last
    requires forall g :: 0 < g < |more| ==> more[g].first == more[g - 1].last
    ensures Contiguous(blocks + more, cap)
  {
    var all := blocks + more;
    forall g | 0 < g < |all|
      ensures all[g].first == all[g - 1].last
    {
      if g > |blocks| {
        assert all[g] == more[g - |blocks|] && all[g - 1] == more[g - |blocks| - 1];
      }
    }
  }

  /** The blocks lie end to end from 0 to the capacity, none is empty or longer than the size,
      and none crosses the end of a window. */
  lemma {:induction false} DealPartitions(caps: seq<nat>, size: Size)
    requires Growing(caps)
    ensures Contiguous(Deal(caps, size), if caps == [] then 0 else caps[|caps| - 1])
    ensures WellCut(Deal(caps, size), caps, size)
  {
    if caps != [] {
      var n := |caps| - 1;
      DealPartitions(caps[..n], size);
      assert caps[..n] + [caps[n]] == caps;
      AppendWindow(Deal(caps[..n], size), caps[..n], size, WindowStart(caps, n), caps[n]);
    }
  }

  lemma {:induction false} CutInside(start: nat, cap: nat, size: Size)
    ensures forall g :: 0 <= g < |Cut(start, cap, size)| ==>
        start <= Cut(start, cap, size)[g].first && Cut(start, cap, size)[g].last <= cap
    decreases cap - start
  {
    if start < cap {
      CutInside(start + size, cap, size);
    }
  }

  lemma {:induction false} ContiguousBounds(blocks: seq<Batch>, end: nat)
    requires Contiguous(blocks, end)
    ensures forall g :: 0 <= g < |blocks| ==> blocks[g].last <= end
  {
    if blocks != [] {
      var n := |blocks| - 1;
      ContiguousBounds(blocks[..n], if n == 0 then 0 else blocks[n - 1].last);
    }
  }

  /** Every step below the capacity is in exactly one block. */
  lemma {:induction false} StepInOneBlock(blocks: seq<Batch>, end: nat, step: nat) returns (g: nat)
    requires Contiguous(blocks, end) && step < end
    ensures g < |blocks| && blocks[g].first <= step < blocks[g].last
    ensures forall h :: 0 <= h < |blocks| && blocks[h].first <= step < blocks[h].last ==> h == g
  {
    var n := |blocks| - 1;
    var mid := blocks[n].first;
    ContiguousBounds(blocks[..n], if n == 0 then 0 else blocks[n - 1].last);
    if step < mid {
      g := StepInOneBlock(blocks[..n], mid, step);
      assert forall h :: 0 <= h < n ==> blocks[..n][h] == blocks[h];
    } else {
      g := n;
      assert forall h :: 0 <= h < n ==> blocks[..n][h] == blocks[h];
    }
  }

  // ----- Round-robin

  /** The first index at or after `before` that belongs to a worker, as its distance. */
  function Offset(before: nat, worker: nat, workers: Size): nat {
    (worker + workers - before % workers) % workers
  }

  lemma OffsetIs(before: nat, worker: nat, workers: Size, g: nat)
    requires worker < workers && g % workers == worker && before <= g < before + workers
    ensures before + Offset(before, worker, workers) == g
  {
    OffsetBelongs(before, worker, workers);
    var h := before + Offset(before, worker, workers);
    DivMod(g, workers);
    DivMod(h, workers);
    MulStep(g / workers, workers);
    MulStep(h / workers, workers);
    MulUp(g / workers + 1, h / workers, workers);
    MulUp(h / workers + 1, g / workers, workers);
  }

  lemma OffsetBelongs(before: nat, worker: nat, workers: Size)
    requires worker < workers
    ensures Offset(before, worker, workers) < workers && (before + Offset(before, worker, workers)) % workers == worker
  {
    DivMod(before, workers);
    OffsetFrom(before, worker, workers, before / workers, before % workers);
  }

  lemma OffsetFrom(before: nat, worker: nat, workers: Size, q: nat, b: nat)
    requires worker < workers && b < workers && before == q * workers + b
    ensures Offset(before, worker, workers) < workers && (before + Offset(before, worker, workers)) % workers == worker
  {
    DivIs(before, workers, q);
    var sum := worker + workers - b;
    MulStep(q, workers);
    if worker >= b {
      DivIs(sum, workers, 1);
      DivIs(before + (worker - b), workers, q);
    } else {
      DivIs(sum, workers, 0);
      DivIs(before + sum, workers, q + 1);
    }
  }

  /** How many of n blocks one worker gets. */
  function Share(n: nat, worker: nat, workers: Size): nat
    requires worker < workers
  {
    if n <= worker then 0 else (n - worker - 1) / workers + 1
  }

  /** The worker's j-th block is dealt exactly when j is less than its share. */
  lemma ShareCounts(n: nat, worker: nat, workers: Size, j: nat)
    requires worker < workers
    ensures worker + j * workers < n <==> j < Share(n, worker, workers)
  {
    if n > worker {
      var q := (n - worker - 1) / workers;
      DivMod(n - worker - 1, workers);
      MulStep(q, workers);
      MulUp(j, q, workers);
      MulUp(q + 1, j, workers);
    } else {
      MulUp(0, j, workers);
    }
  }

  /** Any two workers' shares differ by at most one. */
  lemma SharesAreFair(n: nat, v: nat, w: nat, workers: Size)
    requires v <= w < workers
    ensures Share(n, w, workers) <= Share(n, v, workers) <= Share(n, w, workers) + 1
  {
    var b := Share(n, w, workers);
    ShareCounts(n, w, workers, b);
    MulStep(b, workers);
    ShareCounts(n, v, workers, b + 1);
    if b > 0 {
      ShareCounts(n, w, workers, b - 1);
      ShareCounts(n, v, workers, b - 1);
    }
  }

  /** Block g is the worker's j-th. */
  predicate IsShareOf(g: nat, worker: nat, j: nat, workers: Size) {
    worker < workers && g == worker + j * workers
  }

  /** Each block is one worker's, at one place in its sequence. */
  lemma BlockHasOneOwner(g: nat, workers: Size)
    ensures IsShareOf(g, g % workers, g / workers, workers)
    ensures forall worker: nat, j: nat :: IsShareOf(g, worker, j, workers) ==> worker == g % workers && j == g / workers
  {
    DivMod(g, workers);
    forall worker: nat, j: nat | IsShareOf(g, worker, j, workers)
      ensures worker == g % workers && j == g / workers
    {
      DivIs(g, workers, j);
    }
  }

  /** Over all windows, every step is in one worker's share, in one of its batches, and nowhere else. */
  lemma StepHasOneOwner(caps: seq<nat>, size: Size, workers: Size, step: nat) returns (worker: nat, j: nat)
    requires Growing(caps) && caps != [] && step < caps[|caps| - 1]
    ensures worker < workers && j < Share(|Deal(caps, size)|, worker, workers)
    ensures IsOwner(Deal(caps, size), workers, step, worker, j)
    ensures forall w: nat, i: nat :: IsOwner(Deal(caps, size), workers, step, w, i) ==> w == worker && i == j
  {
    hide Deal;
    DealPartitions(caps, size);
    var deal := Deal(caps, size);
    var g := StepInOneBlock(deal, caps[|caps| - 1], step);
    BlockHasOneOwner(g, workers);
    worker, j := g % workers, g / workers;
    ShareCounts(|deal|, worker, workers, j);
  }

  /** The step is in the worker's j-th block. */
  ghost predicate IsOwner(deal: seq<Batch>, workers: Size, step: nat, worker: nat, j: nat) {
    exists g :: 0 <= g < |deal| && IsShareOf(g, worker, j, workers) && deal[g].first <= step < deal[g].last
  }
}
