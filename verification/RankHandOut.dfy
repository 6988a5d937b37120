/** The MPI policy: each rank deals blocks to itself, with no communication but the shared index. */
module RankHandOut {
  import opened Common
  import opened Dealing
  import opened Reindexing

  class RankDistribution {
    const source: IndexedSource
    const size: Size
    const workers: Size
    const worker: nat

    var eventIdx: nat
    var batchRound: nat
    var windowStart: nat
    var blocksBefore: nat
    var exhausted: bool
    var participating: bool
    var departed: bool
    ghost var handed: nat   // the batches this rank received so far
    ghost var stepped: nat  // the single steps this rank asked for, on a state used for steps

    /** The overall index of the rank's next block. */
    ghost function Next(): nat
      reads this
    {
      worker + handed * workers
    }

    ghost predicate Valid()
      reads this, source
    {
      && worker < workers && source.Valid() && Growing(source.seen)
      && (exhausted ==> Next() >= |Deal(source.seen, size)| && source.future == [])
      && (!exhausted ==>
            && windowStart == WindowStart(source.seen, |source.seen| - 1)
            && blocksBefore == |Deal(source.seen[..|source.seen| - 1], size)|
            && blocksBefore + batchRound * workers + Offset(blocksBefore, worker, workers) == Next()
            && (batchRound > 0 ==> Next() < |Deal(source.seen, size)| + workers))
    }

    constructor (source: IndexedSource, size: Size, workers: Size, worker: nat)
      requires source.Valid() && |source.seen| == 1 && worker < workers
      ensures Valid() && StepsValid() && handed == 0 && stepped == 0 && !exhausted && !departed && !participating
      ensures this.source == source && this.size == size && this.workers == workers && this.worker == worker
    {
      this.source, this.size, this.workers, this.worker := source, size, workers, worker;
      eventIdx, batchRound, windowStart, blocksBefore := 0, 0, 0, 0;
      exhausted, participating, departed := false, false, false;
      handed, stepped := 0, 0;
      new;
      GrowingPrefix(source.seen, source.future);
      assert source.seen[..0] == [];
      DivIs(worker, workers, 0);
      OffsetIs(0, worker, workers, worker);
    }

    ghost predicate StepsValid()
      reads this, source
    {
      && worker < workers && source.Valid() && eventIdx == stepped * workers
      && (exhausted ==> source.future == [] && worker + eventIdx >= source.capacity)
    }

    /** The k-th single step of a rank is `worker + k * workers`, until that is past the last capacity. */
    method NextStep() returns (step: Option<nat>)
      requires StepsValid()
      modifies this`participating, this`eventIdx, this`exhausted, this`stepped, source
      ensures StepsValid() && source.seen + source.future == old(source.seen + source.future)
      ensures step.Some? ==>
                && step.value == worker + old(stepped) * workers < source.capacity
                && stepped == old(stepped) + 1
      ensures step.None? ==>
                || old(Out())
                || (exhausted && source.future == [] && worker + old(stepped) * workers >= source.capacity)
      ensures participating == !old(Out())
      ensures old(Out()) ==> step.None? && source.seen == old(source.seen) && stepped == old(stepped) && exhausted == old(exhausted)
      ensures worker + old(stepped) * workers < old(source.capacity) ==> source.seen == old(source.seen)
    {
      var joined := JoinIteration();
      if !joined {
        return None;
      }
      if exhausted {
        return None;
      }
      var next := eventIdx + worker;
      MulStep(stepped, workers);
      eventIdx := eventIdx + workers;
      stepped := stepped + 1;
      while next >= source.capacity
        invariant source.Valid() && source.seen + source.future == old(source.seen + source.future)
        invariant !exhausted && stepped == old(stepped) + 1 && eventIdx == old(eventIdx) + workers && participating
        invariant next < old(source.capacity) ==> source.seen == old(source.seen) && source.capacity == old(source.capacity)
        decreases |source.future|
      {
        var more := source.Trigger();
        if !more {
          exhausted := true;
          return None;
        }
      }
      return Some(next);
    }

    /** The rank left the iteration before its steps were used up. */
    predicate Out()
      reads this`departed, this`participating
    {
      departed && !participating
    }

    /** A rank that left the iteration does not come back. */
    method JoinIteration() returns (joined: bool)
      modifies this`participating
      ensures joined <==> old(participating) || !departed
      ensures participating == joined
    {
      if participating {
        return true;
      }
      if departed {
        return false;
      }
      participating := true;
      return true;
    }

    function BlockFirst(): nat
      requires worker < workers
      reads this
    {
      var offset := (worker + workers - blocksBefore % workers) % workers;
      windowStart + (batchRound * workers + offset) * size
    }

    /** The j-th batch of a rank is block `worker + j * workers` of the deal, whatever the windows. */
    method NextBatch() returns (batch: Option<Batch>)
      requires Valid()
      modifies this`participating, this`batchRound, this`windowStart, this`blocksBefore, this`exhausted, this`handed, source
      ensures Valid() && source.seen + source.future == old(source.seen + source.future)
      ensures batch.None? <==> old(Out()) || old(Next() >= |Deal(source.seen + source.future, size)|)
      ensures participating == !old(Out())
      ensures old(Out()) ==> source.seen == old(source.seen) && exhausted == old(exhausted)
      ensures !old(exhausted) && old(BlockFirst() < source.capacity) ==> source.seen == old(source.seen)
      ensures batch.Some? ==>
                && old(Next()) < |Deal(source.seen, size)| && batch.value == Deal(source.seen, size)[old(Next())]
                && handed == old(handed) + 1
      ensures batch.None? ==>
                && handed == old(handed)
                && (old(Out()) || (exhausted && Next() >= |Deal(source.seen, size)| && source.future == []))
    {
      hide Deal, Growing, IndexedSource.Valid;
      MoreToCome(source.seen, source.future, size);
      var joined := JoinIteration();
      if !joined || exhausted {
        return None;
      }
      batch := FindBatch();
      MoreToCome(source.seen, source.future, size);
    }

    /** Move from window to window until one has a block for the rank. */
    method FindBatch() returns (batch: Option<Batch>)
      requires Valid() && !exhausted
      modifies this`batchRound, this`windowStart, this`blocksBefore, this`exhausted, this`handed, source
      ensures Valid() && source.seen + source.future == old(source.seen + source.future)
      ensures old(BlockFirst() < source.capacity) ==> source.seen == old(source.seen)
      ensures batch.Some? ==>
                && old(Next()) < |Deal(source.seen, size)| && batch.value == Deal(source.seen, size)[old(Next())]
                && handed == old(handed) + 1
      ensures batch.None? ==>
          handed == old(handed) && exhausted && Next() >= |Deal(source.seen, size)| && source.future == []
    {
      hide Deal, Growing, IndexedSource.Valid;
      var first := BlockFirst();
      while first >= source.capacity
        invariant Valid() && !exhausted && first == BlockFirst()
        invariant handed == old(handed) && source.seen + source.future == old(source.seen + source.future)
        invariant old(BlockFirst() < source.capacity) ==>
            first < source.capacity && source.seen == old(source.seen)
        decreases |source.future|
      {
        var more := MoveWindow();
        if !more {
          return None;
        }
        first := BlockFirst();
      }
      var taken := TakeBlock();
      batch := Some(taken);
    }

    /** Leave the iteration; before the rank's steps are used up it departs for good. */
    method EndIteration()
      modifies this`participating, this`departed
      ensures !participating && departed == old(departed || (participating && !exhausted))
    {
      if !participating {
        return;
      }
      participating := false;
      if exhausted || departed {
        return;
      }
      departed := true;
    }

    /** Receive the block at the current round. */
    method TakeBlock() returns (batch: Batch)
      requires Valid() && !exhausted && BlockFirst() < source.capacity
      modifies this`batchRound, this`handed
      ensures Valid() && handed == old(handed) + 1
      ensures old(Next()) < |Deal(source.seen, size)| && batch == Deal(source.seen, size)[old(Next())]
    {
      hide Deal, Growing, Offset;
      var first := BlockFirst();
      OffsetAsWritten(blocksBefore, worker, workers);
      WindowBlock(source.seen, size, batchRound * workers + Offset(blocksBefore, worker, workers));
      MulStep(batchRound, workers);
      MulStep(handed, workers);
      batchRound := batchRound + 1;
      handed := handed + 1;
      var want := first + size;
      var last := if want < source.capacity then want else source.capacity;
      return Batch(first, last);
    }

    /** Move to the next window, if there is one. */
    method MoveWindow() returns (more: bool)
      requires Valid() && !exhausted && BlockFirst() >= source.capacity
      modifies this`batchRound, this`windowStart, this`blocksBefore, this`exhausted, source
      ensures Valid() && source.seen + source.future == old(source.seen + source.future)
      ensures more ==> !exhausted && |source.future| < |old(source.future)|
      ensures !more ==> exhausted && Next() >= |Deal(source.seen, size)| && source.future == []
    {
      hide Deal, Growing, Offset;
      ghost var seen := source.seen;
      NextWindow();
      more := source.Trigger();
      GrowingPrefix(source.seen, source.future);
      if more {
        assert source.seen[..|source.seen| - 1] == seen;
      } else {
        exhausted := true;
      }
    }

    /** The rank has no block left in the window: the next begins where this one ends. */
    method NextWindow()
      requires Valid() && !exhausted && BlockFirst() >= source.capacity
      modifies this`batchRound, this`windowStart, this`blocksBefore
      ensures windowStart == source.capacity && batchRound == 0 && blocksBefore == |Deal(source.seen, size)| <= Next()
      ensures blocksBefore + Offset(blocksBefore, worker, workers) == Next()
    {
      hide Deal, Growing, Offset;
      OffsetAsWritten(blocksBefore, worker, workers);
      WindowBlock(source.seen, size, batchRound * workers + Offset(blocksBefore, worker, workers));
      OffsetBelongs(blocksBefore, worker, workers);
      var cap := source.capacity;
      ghost var next := Next();
      blocksBefore := blocksBefore + (cap - windowStart + size - 1) / size;
      windowStart := cap;
      batchRound := 0;
      DivIs(next, workers, handed);
      OffsetIs(blocksBefore, worker, workers, next);
    }
  }

  /** The deal so far is part of the whole deal, and all of it when no window is to come. */
  lemma MoreToCome(seen: seq<nat>, future: seq<nat>, size: Size)
    ensures |Deal(seen, size)| <= |Deal(seen + future, size)|
    ensures future == [] ==> Deal(seen + future, size) == Deal(seen, size)
  {
    DealPrefix(seen, future, size);
    assert future == [] ==> seen + future == seen;
  }

  lemma OffsetAsWritten(before: nat, worker: nat, workers: Size)
    requires worker < workers
    ensures Offset(before, worker, workers) == (worker + workers - before % workers) % workers
  {
  }
}
