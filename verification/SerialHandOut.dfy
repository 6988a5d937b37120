/** The serial policy: the sequential hand-out that the parallel policies are measured against. */
module SerialHandOut {
  import opened Common
  import opened Dealing
  import opened Reindexing

  class SerialDistribution {
    const source: IndexedSource
    const size: Size
    var eventIdx: nat
    ghost var handed: nat   // the batches handed out so far

    ghost predicate Valid()
      reads this, source
    {
      source.Valid() && At(source.seen, size, eventIdx, handed)
    }

    constructor (source: IndexedSource, size: Size)
      requires source.Valid() && |source.seen| == 1
      ensures Valid() && handed == 0 && this.source == source && this.size == size
    {
      this.source, this.size := source, size;
      eventIdx, handed := 0, 0;
      new;
      AtStart(source.seen, size);
    }

    /** The next step index, reindexing once when the capacity is reached. */
    method NextIndex() returns (step: Option<nat>)
      requires Valid()
      modifies source
      ensures Valid() && source.seen + source.future == old(source.seen + source.future)
      ensures step == if eventIdx < source.capacity then Some(eventIdx) else None
      ensures source.seen == old(source.seen) || (|source.seen| == |old(source.seen)| + 1 && (step.Some? <==>
          !Stalled(source.seen)))
      ensures step.None? && source.seen == old(source.seen) ==> source.future == []
    {
      hide Deal, Growing, At;
      GrowingPrefix(source.seen, source.future);
      AtNext(source.seen, size, eventIdx, handed);
      if eventIdx >= source.capacity {
        ghost var seen := source.seen;
        var more := source.Trigger();
        if !more {
          return None;
        }
        GrowingPrefix(source.seen, source.future);
        AtNewWindow(seen, size, eventIdx, handed, source.capacity);
        AtNext(source.seen, size, eventIdx, handed);
        if eventIdx >= source.capacity {
          return None;
        }
      }
      return Some(eventIdx);
    }

    /** The batches handed out are the blocks of the deal, one after another, up to the end of the
        stream or the first trigger that promised more but added nothing. */
    method NextBatch() returns (batch: Option<Batch>)
      requires Valid()
      modifies this`eventIdx, this`handed, source
      ensures Valid() && source.seen + source.future == old(source.seen + source.future)
      ensures source.seen == old(source.seen) || (|source.seen| == |old(source.seen)| + 1 && (batch.Some? <==>
          !Stalled(source.seen)))
      ensures batch.Some? ==>
                && old(handed) < |Deal(source.seen, size)| && batch.value == Deal(source.seen, size)[old(handed)]
                && handed == old(handed) + 1
      ensures batch.None? ==>
                && handed == old(handed) == |Deal(source.seen, size)|
                && (source.seen == old(source.seen) ==> source.future == [])
    {
      hide Deal, Growing, At;
      var first := NextIndex();
      GrowingPrefix(source.seen, source.future);
      AtNext(source.seen, size, eventIdx, handed);
      if first.None? {
        return None;
      }
      var want := first.value + size;
      var last := if want < source.capacity then want else source.capacity;
      eventIdx := last;
      handed := handed + 1;
      return Some(Batch(first.value, last));
    }
  }

  // ----- A whole serial iteration

  /** The last trigger returned true, without more capacity. */
  predicate Stalled(seen: seq<nat>) {
    |seen| >= 2 && seen[|seen| - 1] == seen[|seen| - 2]
  }

  /** The windows up to the first stall, or all of them. */
  ghost predicate IsFirstRun(run: seq<nat>, caps: seq<nat>) {
    && run <= caps
    && (forall n :: 0 <= n < |run| ==> !Stalled(caps[..n]))
    && (run == caps || Stalled(run))
  }

  /** A caller that takes batches until there is none receives the deal of the first run. */
  method Drain(serial: SerialDistribution) returns (batches: seq<Batch>)
    requires serial.Valid() && serial.handed == 0 && |serial.source.seen| == 1
    modifies serial, serial.source
    ensures IsFirstRun(serial.source.seen, old(serial.source.seen + serial.source.future))
    ensures batches == Deal(serial.source.seen, serial.size)
  {
    hide Deal, Growing, At;
    ghost var caps := serial.source.seen + serial.source.future;
    batches := [];
    var batch := serial.NextBatch();
    DealPrefix(serial.source.seen, serial.source.future, serial.size);
    while batch.Some?
      invariant serial.Valid() && serial.source.seen + serial.source.future == caps
      invariant Deal(serial.source.seen, serial.size) <= Deal(caps, serial.size)
      invariant forall n :: 0 <= n < |serial.source.seen| ==> !Stalled(caps[..n])
      invariant batch.Some? ==>
                  && !Stalled(serial.source.seen)
                  && serial.handed == |batches| + 1 <= |Deal(serial.source.seen, serial.size)|
                  && batches + [batch.value] == Deal(caps, serial.size)[..|batches| + 1]
      invariant batch.None? ==>
                  && batches == Deal(serial.source.seen, serial.size)
                  && (Stalled(serial.source.seen) || serial.source.future == [])
      decreases batch.Some?, |Deal(caps, serial.size)| - serial.handed
    {
      batches := batches + [batch.value];
      batch := serial.NextBatch();
      DealPrefix(serial.source.seen, serial.source.future, serial.size);
    }
  }

  /** The first run covers every step exactly when the capacity does not grow after it. */
  lemma FirstRunIsAll(caps: seq<nat>, run: seq<nat>, size: Size)
    requires run != [] && Growing(caps) && IsFirstRun(run, caps)
    ensures Deal(run, size) == Deal(caps, size) <==> run[|run| - 1] == caps[|caps| - 1]
  {
    hide Deal, WellCut;
    assert run + caps[|run|..] == caps;
    DealPrefix(run, caps[|run|..], size);
    GrowingPrefix(run, caps[|run|..]);
    DealPartitions(run, size);
    DealPartitions(caps, size);
    var part, all := Deal(run, size), Deal(caps, size);
    ContiguousBounds(all, caps[|caps| - 1]);
    if |part| < |all| && |part| > 0 {
      assert all[|part| - 1] == part[|part| - 1] && all[|part|].first == all[|part| - 1].last;
    }
  }
}
