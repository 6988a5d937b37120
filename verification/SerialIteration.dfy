/** A serial iteration over a chronological source, end to end: indexing in batches, merging, handing out and
    finding the rows together come to one pass over all steps in time order. */
module SerialIterations {
  import opened Common
  import opened Dealing
  import opened StepTable
  import opened StreamBrokers
  import opened Chronology
  import opened DataSources

  class SerialIteration {
    const source: DataSource
    const size: Dealing.Size
    var eventIdx: nat

    /** What is still to be handed out of the window can be fetched. */
    ghost predicate Valid()
      reads this, source, source.chronology, source.brokers, set b | b in source.brokers :: b.rows
    {
      && source.Valid() && eventIdx <= source.stepsCapacity
      && forall step :: eventIdx <= step < source.stepsCapacity ==> source.Fetchable(step)
    }

    constructor (source: DataSource, size: Dealing.Size)
      requires source.Valid() && forall step :: 0 <= step < source.stepsCapacity ==> source.Fetchable(step)
      ensures Valid() && eventIdx == 0 && this.source == source && this.size == size
    {
      this.source, this.size, eventIdx := source, size, 0;
    }

    /** The next batch starts where the last one ended, is of full size or ends the window, and every step of it can
        be fetched; there is none only when every broker is exhausted and everything merged. Brokers are indexed
        further only when the window is used up. */
    method NextBatch() returns (batch: Option<Batch>)
      requires Valid()
      modifies this`eventIdx, source, source.chronology, source.brokers, set b | b in source.brokers :: b.rows
      ensures Valid() && old(source.chronology.order) <= source.chronology.order
      ensures source.streams == old(source.streams) && (old(source.Complete()) ==> source.Complete())
      ensures batch.Some? ==>
                && batch.value.first == old(eventIdx) < batch.value.last == eventIdx <= batch.value.first + size
                && eventIdx <= |source.chronology.order|
                && forall step :: batch.value.first <= step < batch.value.last ==> source.Fetchable(step)
      ensures batch.Some? ==> eventIdx == batch.value.first + size || eventIdx == source.stepsCapacity
      ensures old(eventIdx < source.stepsCapacity) ==>
          batch.Some? && source.stepsCapacity == old(source.stepsCapacity)
          && source.chronology.Model() == old(source.chronology.Model())
      ensures batch.None? ==>
                && eventIdx == old(eventIdx) == |source.chronology.order|
                && forall n :: 0 <= n < |source.brokers| ==>
                    source.chronology.exhausted[n] && source.chronology.pending[n] == []
    {
      hide DataSource.BrokerOk, DataSource.Complete, DataSource.Fetchable, DataSource.Apart;
      if eventIdx >= source.stepsCapacity {
        var more := source.MergeTrigger();
        if !more {
          return None;
        }
      }
      var first, want := eventIdx, eventIdx + size;
      eventIdx := if want < source.stepsCapacity then want else source.stepsCapacity;
      return Some(Batch(first, eventIdx));
    }

    /** Find a step's broker and its row there. */
    method FetchStep(step: nat, hint: nat) returns (loc: Location, row: nat)
      requires source.Valid() && step < source.stepsCapacity && source.Fetchable(step)
      ensures loc == source.chronology.order[step] && loc.broker < |source.brokers|
      ensures source.brokers[loc.broker].numRows <= source.brokers[loc.broker].rows.Length
      ensures source.brokers[loc.broker].HoldsNth(row, source.kind, loc.ordinal)
    {
      var found;
      found, loc := source.chronology.Locate(step);
      assert source.BrokerOk(loc.broker);
      var status;
      status, row := source.brokers[loc.broker].FindRow(source.kind, loc.ordinal, hint);
    }

    /** The steps of a batch, as they are found. */
    method FetchBatch(batch: Batch) returns (found: seq<Location>)
      requires source.Valid() && batch.first <= batch.last <= source.stepsCapacity
      requires forall step :: batch.first <= step < batch.last ==> source.Fetchable(step)
      ensures batch.last <= |source.chronology.order| && found == source.chronology.order[batch.first..batch.last]
    {
      hide DataSource.BrokerOk, DataSource.Fetchable, DataSource.Apart;
      found := [];
      for step := batch.first to batch.last
        invariant found == source.chronology.order[batch.first..step]
      {
        var loc, row := FetchStep(step, 0);
        found := found + [loc];
      }
    }

    /** All batches, with every step fetched: each step of every stream exactly once, in the order of one sort
        by time, however indexing, merging and batching cut them up. */
    method IterateAll() returns (batches: seq<Batch>, found: seq<Location>, ghost full: seq<Item>)
      requires Valid() && eventIdx == 0 && source.Complete()
      modifies this`eventIdx, source, source.chronology, source.brokers, set b | b in source.brokers :: b.rows
      ensures IsFullOrder(old(source.streams), full)
      ensures Contiguous(batches, |full|) && forall g :: 0 <= g < |batches| ==> batches[g].last <= batches[g].first + size
      ensures found == Places(full)
    {
      hide DataSource.BrokerOk, DataSource.Complete, DataSource.Fetchable, DataSource.Apart,
        IsFullOrder, Contiguous, Places;
      batches, found := [], [];
      ghost var next: nat := 0;
      full := TimeOrder(source);
      NoBlocks();
      source.OrderIsSort(full);
      var batch := NextBatch();
      source.OrderIsSort(full);
      while batch.Some?
        invariant Valid() && source.Complete() && source.streams == old(source.streams)
        invariant source.chronology.order <= Places(full)
        invariant next <= |full| && Contiguous(batches, next) && found == Places(full)[..next]
        invariant forall g :: 0 <= g < |batches| ==> batches[g].last <= batches[g].first + size
        invariant batch.Some? ==>
                    && next == batch.value.first < batch.value.last == eventIdx <= batch.value.first + size
                    && eventIdx <= source.stepsCapacity
                    && forall step :: batch.value.first <= step < batch.value.last ==> source.Fetchable(step)
        invariant batch.None? ==> next == |full|
        decreases batch.Some?, |full| - next
      {
        var steps := FetchBatch(batch.value);
        NextSteps(source.chronology.order, Places(full), next, eventIdx);
        found := found + steps;
        NextBlock(batches, next, batch.value);
        batches := batches + [batch.value];
        next := eventIdx;
        batch := NextBatch();
        source.OrderIsSort(full);
      }
    }
  }

  lemma TimeOrder(source: DataSource) returns (full: seq<Item>)
    requires source.Lined() && source.Complete()
    ensures IsFullOrder(source.streams, full)
  {
    full := FullOrderExists(source.streams);
  }

  lemma NextSteps(order: seq<Location>, all: seq<Location>, next: nat, end: nat)
    requires order <= all && next <= end <= |order|
    ensures all[..next] + order[next..end] == all[..end]
  {
  }

  lemma NoBlocks()
    ensures Contiguous([], 0)
  {
  }

  lemma NextBlock(batches: seq<Batch>, end: nat, batch: Batch)
    requires Contiguous(batches, end) && batch.first == end < batch.last
    ensures Contiguous(batches + [batch], batch.last)
  {
  }
}
