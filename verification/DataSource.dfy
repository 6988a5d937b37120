/** A data source over chronological streams: indexing the brokers further, a batch at a time,
    until more steps are merged or all streams are exhausted. */
module DataSources {
  import opened Common
  import opened StepTable
  import opened StreamBrokers
  import opened IndexChains
  import opened Chronology

  // ----- The steps of the distributed kind, as the merge sees them

  ghost function Entries(h: seq<Step>, k: nat): seq<Entry> {
    if h == [] then []
    else
      var n := |h| - 1;
      Entries(h[..n], k) + if h[n].kind == k then [Entry(Count(h[..n], k), h[n].key)] else []
  }

  lemma {:induction false} EntryAt(h: seq<Step>, k: nat)
    ensures |Entries(h, k)| == Count(h, k)
    ensures forall o :: 0 <= o < |Entries(h, k)| ==> Entries(h, k)[o].ordinal == o
    ensures forall o: nat, p: nat :: IsNth(h, k, o, p) ==> o < |Entries(h, k)| && Entries(h, k)[o] == Entry(o, h[p].key)
  {
    if h != [] {
      var n := |h| - 1;
      EntryAt(h[..n], k);
      forall o: nat, p: nat | IsNth(h, k, o, p)
        ensures o < |Entries(h, k)| && Entries(h, k)[o] == Entry(o, h[p].key)
      {
        if p < n {
          assert h[..n][..p] == h[..p];
          assert IsNth(h[..n], k, o, p);
        }
      }
    }
  }

  lemma {:induction false} EntriesGrow(h: seq<Step>, more: seq<Step>, k: nat)
    ensures Entries(h, k) <= Entries(h + more, k)
  {
    if more == [] {
      assert h + more == h;
    } else {
      var m := |more| - 1;
      EntriesGrow(h, more[..m], k);
      assert (h + more)[..|h| + m] == h + more[..m];
    }
  }

  /** What the merge holds of one broker, against what the broker has indexed. Waiting steps are of
      the current batch, so their rows are still there. */
  ghost predicate Matches(h: seq<Step>, start: nat, k: nat, waiting: seq<Entry>, next: nat, exhausted: bool) {
    && start <= |h|
    && (exhausted ==> waiting == [])
    && (!exhausted ==> next == Count(h, k))
    && forall e :: e in waiting ==>
        Retained(h, start, k, e.ordinal) && e.ordinal < |Entries(h, k)| && e == Entries(h, k)[e.ordinal]
  }

  function Sum(w: seq<nat>): nat {
    if w == [] then 0 else w[0] + Sum(w[1..])
  }

  lemma {:induction false} SumLess(w: seq<nat>, v: seq<nat>)
    requires |w| == |v| && forall i :: 0 <= i < |w| ==> w[i] <= v[i]
    ensures Sum(w) <= Sum(v)
    ensures (exists i :: 0 <= i < |w| && w[i] < v[i]) ==> Sum(w) < Sum(v)
  {
    if w != [] {
      SumLess(w[1..], v[1..]);
      if i :| 0 <= i < |w| && w[i] < v[i] {
        assert i > 0 ==> w[1..][i - 1] < v[1..][i - 1];
      }
    }
  }

  /** The entries visited in a broker: consecutive, up to its last step, and covering the batch. */
  ghost predicate Visits(es: seq<Entry>, h: seq<Step>, start: nat, k: nat) {
    && start <= |h|
    && (forall i :: 0 <= i < |es| ==> es[i].ordinal < |Entries(h, k)| && es[i] == Entries(h, k)[es[i].ordinal])
    && (forall i :: 0 <= i < |es| ==> es[i].ordinal == es[0].ordinal + i)
    && (|es| > 0 ==> es[0].ordinal + |es| == Count(h, k))
    && (forall o :: Retained(h, start, k, o) ==> |es| > 0 && es[0].ordinal <= o)
  }

  /** What is visited and not known is the last stretch of the entries. */
  lemma {:induction false} FreshAreLast(next: nat, es: seq<Entry>, h: seq<Step>, start: nat, k: nat)
    requires Visits(es, h, start, k) && next == Count(h[..start], k)
    ensures next <= Count(h, k) == |Entries(h, k)| && (|es| > 0 ==> es[0].ordinal <= next)
    ensures var known := KnownOf(next, es); |es| - known == Count(h, k) - next && es[known..] == Entries(h, k)[next..]
  {
    CountMonotone(h, start, |h|, k);
    assert h[..|h|] == h;
    EntryAt(h, k);
    if next < Count(h, k) {
      assert Retained(h, start, k, next);
    } else if |es| > 0 {
      assert es[0].ordinal < Count(h, k);
    }
  }

  /** Adding what is visited leaves waiting exactly the steps of the new batch. */
  lemma {:induction false} VisitedWait(s: State, b: nat, es: seq<Entry>, h: seq<Step>, start: nat, k: nat)
    requires s.Shaped() && b < |s.pending| && s.pending[b] == []
    requires Visits(es, h, start, k) && s.nextOrdinal[b] == Count(h[..start], k)
    ensures s.nextOrdinal[b] <= Count(h, k) == |Entries(h, k)|
    ensures AddedAll(s, b, es) == s.(pending := s.pending[b := Entries(h, k)[s.nextOrdinal[b]..]],
                                     nextOrdinal := s.nextOrdinal[b := Count(h, k)])
  {
    hide Count, Entries, Retained;
    FreshAreLast(s.nextOrdinal[b], es, h, start, k);
    AddedAllConsecutive(s, b, es);
    assert [] + es[KnownOf(s.nextOrdinal[b], es)..] == es[KnownOf(s.nextOrdinal[b], es)..];
  }

  lemma {:induction false} VisitedMatch(s: State, b: nat, es: seq<Entry>, h: seq<Step>, start: nat, k: nat)
    requires s.Shaped() && b < |s.pending| && s.pending[b] == [] && !s.exhausted[b]
    requires Visits(es, h, start, k) && s.nextOrdinal[b] == Count(h[..start], k)
    ensures var t := AddedAll(s, b, es);
            && t == s.(pending := s.pending[b := t.pending[b]], nextOrdinal := s.nextOrdinal[b := t.nextOrdinal[b]])
            && Matches(h, start, k, t.pending[b], t.nextOrdinal[b], false)
  {
    VisitedWait(s, b, es, h, start, k);
    EntryAt(h, k);
    var next := s.nextOrdinal[b];
    forall e | e in Entries(h, k)[next..]
      ensures Retained(h, start, k, e.ordinal) && e == Entries(h, k)[e.ordinal]
    {
      var i :| 0 <= i < |Entries(h, k)[next..]| && Entries(h, k)[next..][i] == e;
      assert e == Entries(h, k)[next + i];
    }
  }

  class DataSource {
    const kind: nat
    const brokers: seq<StreamBroker>
    const chronology: ChronologicalOrder
    var pendingChunks: seq<seq<Chunk>>
    var stepsCapacity: nat

    ghost var streams: seq<seq<Entry>>  // all the steps of the distributed kind, per stream
    ghost var took: seq<nat>            // the number of merged steps, per stream
    ghost var items: seq<Item>          // the merged steps, with their keys

    constructor (kind: nat, brokers: seq<StreamBroker>, chronology: ChronologicalOrder, chunks: seq<seq<Chunk>>)
      requires forall i, j :: 0 <= i < j < |brokers| ==> brokers[i] != brokers[j] && brokers[i].rows != brokers[j].rows
      requires |chunks| == |brokers|
      ensures Apart() && this.kind == kind && this.brokers == brokers && this.chronology == chronology
          && pendingChunks == chunks
    {
      this.kind, this.brokers, this.chronology := kind, brokers, chronology;
      pendingChunks, stepsCapacity := chunks, 0;
      streams, took, items := [], [], [];
    }

    ghost predicate Apart()
      reads this`pendingChunks
    {
      && |pendingChunks| == |brokers|
      && forall i, j :: 0 <= i < j < |brokers| ==> brokers[i] != brokers[j] && brokers[i].rows != brokers[j].rows
    }

    ghost predicate Lined()
      reads this`pendingChunks, chronology
    {
      Apart() && chronology.Model().Shaped() && |chronology.pending| == |brokers|
    }

    ghost predicate BrokerOk(n: nat)
      requires Lined() && n < |brokers|
      reads this`pendingChunks, chronology, brokers[n], brokers[n].rows
    {
      && brokers[n].Valid() && kind < brokers[n].kinds
      && ChunkKindsBelow(pendingChunks[n], brokers[n].kinds)
      && Matches(brokers[n].hist, brokers[n].start, kind, chronology.pending[n], chronology.nextOrdinal[n], chronology.exhausted[n])
    }

    ghost predicate Valid()
      reads this, chronology, brokers, set b | b in brokers :: b.rows
    {
      BrokersOk() && stepsCapacity == |chronology.order|
    }

    ghost predicate BrokersOk()
      reads this`pendingChunks, chronology, brokers, set b | b in brokers :: b.rows
    {
      Lined() && forall n :: 0 <= n < |brokers| ==> BrokerOk(n)
    }

    /** The step can be fetched: the broker that holds it finds its row. */
    ghost predicate Fetchable(step: nat)
      requires Lined() && step < |chronology.order|
      reads this`pendingChunks, chronology, brokers
    {
      var loc := chronology.order[step];
      && loc.broker < |brokers| && brokers[loc.broker].start <= |brokers[loc.broker].hist|
      && Retained(brokers[loc.broker].hist, brokers[loc.broker].start, kind, loc.ordinal)
    }

    ghost function BrokerWork(n: nat): nat
      requires Lined() && n < |brokers|
      reads this`pendingChunks, chronology, brokers[n]
    {
      Work(|brokers[n].file|, brokers[n].pos, pendingChunks[n]) + if chronology.exhausted[n] then 0 else 1
    }

    ghost function WorksUpTo(n: nat): (w: seq<nat>)
      requires Lined() && n <= |brokers|
      reads this`pendingChunks, chronology, brokers
      ensures |w| == n && forall m :: 0 <= m < n ==> w[m] == BrokerWork(m)
    {
      if n == 0 then [] else WorksUpTo(n - 1) + [BrokerWork(n - 1)]
    }

    ghost function Works(): (w: seq<nat>)
      requires Lined()
      reads this`pendingChunks, chronology, brokers
      ensures |w| == |brokers| && forall m :: 0 <= m < |w| ==> w[m] == BrokerWork(m)
    {
      WorksUpTo(|brokers|)
    }

    method AdvanceChunkIfDone(n: nat, b: StreamBroker)
      requires Apart() && n < |brokers| && b == brokers[n] && b.Valid() && ChunkKindsBelow(pendingChunks[n], b.kinds)
      modifies this`pendingChunks, b`file, b`pos, b`chunkComplete
      ensures Apart() && b.Valid() && ChunkKindsBelow(pendingChunks[n], b.kinds)
      ensures forall m :: 0 <= m < |brokers| && m != n ==> pendingChunks[m] == old(pendingChunks[m])
      ensures if old(pendingChunks[n]) == [] || !old(b.chunkComplete)
              then pendingChunks[n] == old(pendingChunks[n]) && unchanged(b)
              else pendingChunks[n] == old(pendingChunks[n])[1..] && !b.chunkComplete &&
                   match old(pendingChunks[n])[0]
                   case None => b.file == old(b.file) && b.pos == old(b.pos)
                   case Some(f) => b.file == f && b.pos == 0
    {
      if pendingChunks[n] == [] {
        return;
      }
      if b.chunkComplete {
        b.AdvanceChunk(pendingChunks[n][0]);
        pendingChunks := pendingChunks[n := pendingChunks[n][1..]];
      }
    }

    /** The broker has room for every batch, and its chain no marker before a new file. */
    ghost predicate ChainReady(n: nat)
      requires Apart() && n < |brokers|
      reads this`pendingChunks, brokers[n]
    {
      var b := brokers[n];
      && b.kinds < b.rows.Length
      && Proper(b.file, b.header, b.scratch, pendingChunks[n])
      && (b.chunkComplete ==> b.pos >= |b.file| || !NoMarkers(b.file))
    }

    ghost function StillToIndex(n: nat): seq<Step>
      requires Apart() && n < |brokers|
      reads this`pendingChunks, brokers[n]
    {
      ChainSteps(brokers[n].file, brokers[n].header, brokers[n].pos, pendingChunks[n])
    }

    ghost function ChainWork(n: nat): nat
      requires Apart() && n < |brokers|
      reads this`pendingChunks, brokers[n]
    {
      Work(|brokers[n].file|, brokers[n].pos, pendingChunks[n])
    }

    /** The last call had no room for a row, or came to a unit that does not fit the scratch buffer. */
    ghost predicate Cramped(b: StreamBroker)
      reads b
    {
      b.carried == b.rows.Length || (b.numRows < b.rows.Length && b.Stuck(b.pos))
    }

    /** No step is left in the file, and no waiting chunk can be moved to. */
    ghost predicate AtEnd(n: nat, b: StreamBroker)
      requires n < |pendingChunks|
      reads this`pendingChunks, b
    {
      Parse(b.file, b.header, b.pos) == [] && (pendingChunks[n] == [] || !b.chunkComplete)
    }

    /** Move to the next chunk if the current one is done, and index one batch. */
    method IndexOnce(n: nat, b: StreamBroker) returns (status: IOStatus)
      requires Apart() && n < |brokers| && b == brokers[n] && b.Valid() && ChunkKindsBelow(pendingChunks[n], b.kinds)
      modifies this`pendingChunks, b, b.rows
      ensures Apart() && b.Valid() && ChunkKindsBelow(pendingChunks[n], b.kinds) && b.indexEpoch > 0
      ensures forall m :: 0 <= m < |brokers| && m != n ==> pendingChunks[m] == old(pendingChunks[m])
      ensures status in {Success, ZeroBytesRead, PayloadTruncatedError} && b.start <= |b.hist|
      ensures status == PayloadTruncatedError <==> Cramped(b)
      ensures status == Success ==> b.start == |old(b.hist)| < |b.hist| && old(b.hist) <= b.hist
      ensures status == ZeroBytesRead ==>
          b.hist == old(b.hist) && Parse(b.file, b.header, b.pos) == [] && (b.pos >= |b.file| ==> b.chunkComplete)
      ensures ChainWork(n) <= old(ChainWork(n)) && (status == Success ==> ChainWork(n) < old(ChainWork(n)))
      ensures pendingChunks[n] == if old(pendingChunks[n]) != []
          && old(b.chunkComplete) then old(pendingChunks[n])[1..] else old(pendingChunks[n])
      ensures old(ChainReady(n)) ==>
          ChainReady(n) && status != PayloadTruncatedError && old(b.hist + StillToIndex(n)) == b.hist + StillToIndex(n)
    {
      hide Good, CountsBatch, Parse, ParseEnd, Readable, ChainSteps, NoMarkers, UnitsFit, KindsBelow, ChunkWork;
      WorkShrinks(pendingChunks[n]);
      if ChainReady(n) && pendingChunks[n] != [] && b.chunkComplete {
        AdvanceKeepsChain(b.file, b.header, b.hist, b.pos, pendingChunks[n]);
      }
      AdvanceChunkIfDone(n, b);
      assert old(ChainReady(n)) ==> ChainReady(n) && old(b.hist + StillToIndex(n)) == b.hist + StillToIndex(n);
      status := IndexHere(n, b);
    }

    /** Index one batch of the current chunk. */
    method IndexHere(n: nat, b: StreamBroker) returns (status: IOStatus)
      requires Apart() && n < |brokers| && b == brokers[n] && b.Valid()
      modifies b, b.rows
      ensures Apart() && b.Valid() && b.indexEpoch > 0
      ensures status in {Success, ZeroBytesRead, PayloadTruncatedError} && b.start <= |b.hist|
      ensures status == PayloadTruncatedError <==> Cramped(b)
      ensures status == Success ==> b.start == |old(b.hist)| < |b.hist| && old(b.hist) <= b.hist
      ensures status == ZeroBytesRead ==>
          b.hist == old(b.hist) && Parse(b.file, b.header, b.pos) == [] && (b.pos >= |b.file| ==> b.chunkComplete)
      ensures b.file == old(b.file)
      ensures ChainWork(n) <= old(ChainWork(n)) && (status == Success ==> ChainWork(n) < old(ChainWork(n)))
      ensures old(ChainReady(n)) ==>
          ChainReady(n) && status != PayloadTruncatedError && old(b.hist + StillToIndex(n)) == b.hist + StillToIndex(n)
    {
      hide Good, CountsBatch, SameSteps, NewInFile, Parse, ParseEnd, Readable, ChainSteps, NoMarkers, UnitsFit,
          KindsBelow, StartsChunk, ChunkWork;
      status := b.GenericIndex();
      IndexKeepsChain(b.file, b.header, old(b.hist), old(b.pos), b.hist, b.pos, pendingChunks[n]);
      if old(ChainReady(n)) {
        ProperNeverFails(b, pendingChunks[n]);
      }
    }

    /** Index a broker's next batch, going through chunks that hold no step. */
    method IndexChain(n: nat, b: StreamBroker) returns (status: IOStatus)
      requires Apart() && n < |brokers| && b == brokers[n] && b.Valid() && ChunkKindsBelow(pendingChunks[n], b.kinds)
      modifies this`pendingChunks, b, b.rows
      ensures Apart() && b.Valid() && ChunkKindsBelow(pendingChunks[n], b.kinds) && b.indexEpoch > 0
      ensures forall m :: 0 <= m < |brokers| && m != n ==> pendingChunks[m] == old(pendingChunks[m])
      ensures status in {Success, ZeroBytesRead, PayloadTruncatedError} && b.start <= |b.hist|
      ensures status == PayloadTruncatedError <==> Cramped(b)
      ensures status == Success ==> b.start == |old(b.hist)| < |b.hist| && old(b.hist) <= b.hist
      ensures status == ZeroBytesRead ==> b.hist == old(b.hist) && AtEnd(n, b)
      ensures ChainWork(n) <= old(ChainWork(n)) && (status == Success ==> ChainWork(n) < old(ChainWork(n)))
      ensures old(ChainReady(n)) ==>
          ChainReady(n) && status != PayloadTruncatedError && old(b.hist + StillToIndex(n)) == b.hist + StillToIndex(n)
      ensures old(ChainReady(n)) && status == ZeroBytesRead ==> StillToIndex(n) == []
    {
      status := IndexOnce(n, b);
      while status == ZeroBytesRead && pendingChunks[n] != [] && b.chunkComplete
        invariant Apart() && b.Valid() && ChunkKindsBelow(pendingChunks[n], b.kinds) && b.indexEpoch > 0
        invariant forall m :: 0 <= m < |brokers| && m != n ==> pendingChunks[m] == old(pendingChunks[m])
        invariant status in {Success, ZeroBytesRead, PayloadTruncatedError} && b.start <= |b.hist|
        invariant status == PayloadTruncatedError <==> Cramped(b)
        invariant status == Success ==> b.start == |old(b.hist)| < |b.hist| && old(b.hist) <= b.hist
        invariant status == ZeroBytesRead ==>
            b.hist == old(b.hist) && Parse(b.file, b.header, b.pos) == [] && (b.pos >= |b.file| ==> b.chunkComplete)
        invariant ChainWork(n) <= old(ChainWork(n)) && (status == Success ==> ChainWork(n) < old(ChainWork(n)))
        invariant old(ChainReady(n)) ==>
            ChainReady(n) && status != PayloadTruncatedError && old(b.hist + StillToIndex(n)) == b.hist + StillToIndex(n)
        decreases |pendingChunks[n]|
      {
        status := IndexOnce(n, b);
      }
      if status == ZeroBytesRead {
        NothingToIndex(b.file, b.header, b.pos, pendingChunks[n], b.chunkComplete);
      }
    }

    /** The number of steps in the current batch is zero only if the batch is empty. */
    method NewRows(b: StreamBroker) returns (total: nat)
      requires b.Indexed()
      ensures total == 0 <==> |b.hist| == b.start
    {
      total := 0;
      var k := 0;
      while k < |b.numSteps|
        invariant k <= |b.numSteps|
        invariant total == 0 <==> forall j :: 0 <= j < k ==> b.numSteps[j] == 0
      {
        total := total + b.numSteps[k];
        k := k + 1;
      }
      BatchCounts(b.numSteps, b.hist, b.start);
      assert |b.hist| > b.start ==> b.hist[b.start].kind < b.kinds;
    }

    /** Add the steps of a broker's batch to those to merge. */
    method AddIndexedSteps(n: nat, b: StreamBroker) returns (ghost es: seq<Entry>)
      requires Lined() && n < |brokers| && b == brokers[n] && b.Valid() && b.indexEpoch > 0 && kind < b.kinds
      modifies chronology`pending, chronology`nextOrdinal, chronology`exhausted
      ensures Lined() && Visits(es, b.hist, b.start, kind)
      ensures chronology.Model() == if |b.hist| == b.start then MarkedExhausted(old(chronology.Model()), n)
                                    else AddedAll(old(chronology.Model()), n, es)
    {
      hide Good, CountsBatch, Count;
      var visited := b.VisitSteps(kind);
      es := VisitedEntries(visited, b.hist, b.start, kind);
      var total := NewRows(b);
      if total == 0 {
        chronology.SetExhausted(n);
        return;
      }
      var i := 0;
      assert es[..0] == [];
      while i < |visited|
        invariant i <= |visited| && Lined()
        invariant chronology.Model() == AddedAll(old(chronology.Model()), n, es[..i])
      {
        chronology.Add(n, visited[i].0, visited[i].1);
        assert es[..i + 1][..i] == es[..i] && es[..i + 1][i] == Entry(visited[i].0, visited[i].1);
        i := i + 1;
      }
      assert es[..i] == es;
    }

    /** Besides being ready, the broker was told apart rightly: its steps so far and to come are its stream. */
    ghost predicate Tells(n: nat)
      requires Lined() && n < |brokers|
      reads this`pendingChunks, this`streams, chronology, brokers[n]
    {
      && ChainReady(n) && n < |streams|
      && Entries(brokers[n].hist + StillToIndex(n), kind) == streams[n]
      && chronology.nextOrdinal[n] == Count(brokers[n].hist, kind)
      && (chronology.exhausted[n] ==> StillToIndex(n) == [])
    }

    /** The merge so far stands to the streams as Chronology says it should. */
    ghost predicate Merged()
      requires Lined()
      reads this`pendingChunks, this`streams, this`took, this`items, chronology
    {
      Inv(streams, chronology.Model(), chronology.nextOrdinal, took, items)
    }

    /** Index a broker further; it must have no steps waiting. */
    method IndexBroker(n: nat, b: StreamBroker)
      requires Lined() && n < |brokers| && b == brokers[n] && BrokerOk(n)
      requires chronology.MayIndex(n)
      modifies this`pendingChunks, chronology`pending, chronology`nextOrdinal, chronology`exhausted, b, b.rows
      ensures Lined() && BrokerOk(n)
      ensures forall m :: 0 <= m < |brokers| && m != n ==>
                && pendingChunks[m] == old(pendingChunks[m]) && chronology.pending[m] == old(chronology.pending[m])
                && chronology.nextOrdinal[m] == old(chronology.nextOrdinal[m])
                    && chronology.exhausted[m] == old(chronology.exhausted[m])
      ensures BrokerWork(n) < old(BrokerWork(n))
      ensures chronology.exhausted[n] ==> Cramped(b) || AtEnd(n, b)
      ensures old(Tells(n) && Merged()) ==> Tells(n) && Merged()
    {
      hide Good, CountsBatch, Count, ChainSteps, Entries, Inv, Retained;
      ghost var before, taken := chronology.Model(), took;
      ghost var told := Tells(n) && Merged();
      ghost var h0, still0 := b.hist, StillToIndex(n);
      var status := IndexChain(n, b);
      if status == Success {
        ghost var es := AddIndexedSteps(n, b);
        StartOf(b.hist, h0);
        VisitedMatch(before, n, es, b.hist, b.start, kind);
        if told {
          VisitedKeepsInv(streams, before, n, es, b.hist, b.start, kind, StillToIndex(n), took, items);
        }
      } else {
        chronology.SetExhausted(n);
        if told {
          ExhaustedMergeInv(streams, before, n, b.hist, kind, took, items);
        }
      }
    }

    ghost predicate AllTell()
      requires Lined()
      reads this`pendingChunks, this`streams, chronology, brokers
    {
      forall n :: 0 <= n < |brokers| ==> Tells(n)
    }

    /** Every configured chain is properly cut, and the merge stands as it should to the streams. */
    ghost predicate Complete()
      requires Lined()
      reads this`pendingChunks, this`streams, this`took, this`items, chronology, brokers
    {
      InTimeOrder(streams) && AllTell() && Merged()
    }

    /** Index one broker; the others stay as they are. */
    method IndexOneOf(n: nat)
      requires BrokersOk() && n < |brokers| && chronology.MayIndex(n)
      modifies this`pendingChunks, chronology`pending, chronology`nextOrdinal, chronology`exhausted, brokers,
          set b | b in brokers :: b.rows
      ensures BrokersOk()
      ensures Works()[n] < old(Works()[n]) && forall m :: 0 <= m < |brokers| && m != n ==> Works()[m] == old(Works()[m])
      ensures forall m :: 0 <= m < |brokers| && m != n ==> (chronology.MayIndex(m) <==> old(chronology.MayIndex(m)))
      ensures old(Complete()) ==> Complete()
    {
      hide Good, Matches, Inv, Work, ChainSteps, Entries, Proper;
      label before:
      assert BrokerOk(n);
      IndexBroker(n, brokers[n]);
      forall m | 0 <= m < |brokers| && m != n
        ensures BrokerOk(m) && BrokerWork(m) == old(BrokerWork(m))
        ensures old(Tells(m)) ==> Tells(m)
      {
        assert brokers[m] != brokers[n] && brokers[m].rows != brokers[n].rows;
        assert old(BrokerOk(m));
      }
      assert old(Complete()) ==> old(Tells(n) && Merged());
    }

    /** Index once every broker that may be indexed. */
    method IndexAll() returns (indexed: bool)
      requires BrokersOk()
      modifies this`pendingChunks, chronology`pending, chronology`nextOrdinal, chronology`exhausted, brokers,
          set b | b in brokers :: b.rows
      ensures BrokersOk()
      ensures !indexed ==> chronology.Model() == old(chronology.Model())
      ensures !indexed ==> forall n :: 0 <= n < |brokers| ==> chronology.exhausted[n] || chronology.pending[n] != []
      ensures indexed ==> Sum(Works()) < old(Sum(Works()))
      ensures forall n :: 0 <= n < |brokers| ==>
          if old(chronology.MayIndex(n)) then Works()[n] < old(Works()[n]) else Works()[n] == old(Works()[n])
      ensures old(Complete()) ==> Complete()
    {
      hide BrokerOk, Complete, BrokerWork;
      indexed := false;
      ghost var works := Works();
      var n := 0;
      while n < |brokers|
        invariant n <= |brokers| && BrokersOk()
        invariant old(Complete()) ==> Complete()
        invariant forall m :: 0 <= m < |brokers| ==> Works()[m] <= works[m]
        invariant forall m :: n <= m < |brokers| ==>
            Works()[m] == works[m] && (chronology.MayIndex(m) <==> old(chronology.MayIndex(m)))
        invariant forall m :: 0 <= m < n ==>
            if old(chronology.MayIndex(m)) then Works()[m] < works[m] else Works()[m] == works[m]
        invariant indexed ==> exists m :: 0 <= m < |brokers| && Works()[m] < works[m]
        invariant !indexed ==> chronology.Model() == old(chronology.Model()) && Works() == works
        invariant !indexed ==> forall m :: 0 <= m < n ==> chronology.exhausted[m] || chronology.pending[m] != []
      {
        if chronology.MayIndex(n) {
          IndexOneOf(n);
          assert Works()[n] < works[n];
          indexed := true;
        }
        n := n + 1;
      }
      SumLess(Works(), works);
    }

    /** No waiting step can be placed: an earlier one may still come, or none waits. */
    ghost predicate NoneToPlace()
      reads chronology
    {
      chronology.Model().Shaped() && (Blocked(chronology.Model()) || NothingPending(chronology.Model()))
    }

    /** Merge what can be placed. Each step placed was waiting, so the row of its broker is there. */
    method MergeWaiting() returns (merged: nat)
      requires BrokersOk()
      modifies chronology`order, chronology`pending, this`took, this`items
      ensures BrokersOk()
      ensures old(chronology.order) <= chronology.order && |chronology.order| == |old(chronology.order)| + merged
      ensures forall step :: |old(chronology.order)| <= step < |chronology.order| ==> Fetchable(step)
      ensures merged == 0 ==> chronology.Model() == old(chronology.Model())
      ensures NoneToPlace()
      ensures chronology.exhausted == old(chronology.exhausted)
      ensures Sum(Works()) == old(Sum(Works()))
      ensures old(Complete()) ==> Complete()
    {
      hide Good, Inv, ChainSteps, Entries, Proper, MergesTo, Work, Retained, InTimeOrder, NoMarkers, CountsBatch,
          KindsBelow, ChainReady, StillToIndex;
      ghost var s, works := chronology.Model(), Works();
      ghost var complete, next := Complete(), chronology.nextOrdinal;
      label before:
      merged := chronology.Merge();
      ghost var t := chronology.Model();
      MergeTakesPending(s, t);
      MergeIsMaximal(s, t);
      if complete {
        took, items := MergeKeepsInv(streams, s, t, next, took, items);
      }
      forall n | 0 <= n < |brokers|
        ensures BrokerOk(n)
      {
        assert old@before(BrokerOk(n));
        assert t.pending[n] != [] ==> t.pending[n][0] in t.pending[n];
      }
      forall n | 0 <= n < |brokers|
        ensures old@before(Tells(n)) ==> Tells(n)
      {
      }
      assert Works() == works;
      forall step | |s.order| <= step < |t.order|
        ensures Fetchable(step)
      {
        var loc := t.order[step];
        var e :| e in s.pending[loc.broker] && e.ordinal == loc.ordinal;
        assert old@before(BrokerOk(loc.broker));
      }
    }

    /** Index brokers further until more steps are merged or all are exhausted. Every step that became
        available can be fetched, and no steps are left out or out of order. */
    method MergeTrigger() returns (more: bool)
      requires Valid()
      modifies this, chronology, brokers, set b | b in brokers :: b.rows
      ensures Valid() && old(chronology.order) <= chronology.order
      ensures more <==> stepsCapacity > old(stepsCapacity)
      ensures NoneToPlace()
      ensures forall step :: old(stepsCapacity) <= step < stepsCapacity ==> Fetchable(step)
      ensures !more ==> forall n :: 0 <= n < |brokers| ==> chronology.exhausted[n] && chronology.pending[n] == []
      ensures streams == old(streams) && (old(Complete()) ==> Complete())
    {
      hide BrokerOk, Complete, BrokerWork, Fetchable, Works, Sum, Apart;
      while true
        invariant Valid() && chronology.order == old(chronology.order) && stepsCapacity == old(stepsCapacity)
        invariant streams == old(streams) && (old(Complete()) ==> Complete())
        decreases Sum(Works())
      {
        var indexed := IndexAll();
        ghost var waiting := chronology.Model();
        assert !indexed ==> forall n :: 0 <= n < |brokers| ==> waiting.exhausted[n] || waiting.pending[n] != [];
        var merged := MergeWaiting();
        if merged > 0 {
          stepsCapacity := |chronology.order|;
          return true;
        }
        if !indexed {
          assert chronology.Model() == waiting && !Blocked(waiting);
          return false;
        }
      }
    }

    /** Before discovery: nothing is indexed or merged. */
    ghost predicate Undiscovered()
      reads this`pendingChunks, this`stepsCapacity, chronology, brokers, set b | b in brokers :: b.rows
    {
      && Apart() && stepsCapacity == 0 && chronology.Model() == Initial(|brokers|)
      && forall n :: 0 <= n < |brokers| ==>
           && brokers[n].Valid() && kind < brokers[n].kinds && brokers[n].hist == []
           && ChunkKindsBelow(pendingChunks[n], brokers[n].kinds)
    }

    /** The broker's first batch was indexed, and none of it added to the merge. */
    ghost predicate FirstBatch(n: nat)
      requires Lined() && n < |brokers|
      reads this`pendingChunks, chronology, brokers[n], brokers[n].rows
    {
      var b := brokers[n];
      && b.Valid() && kind < b.kinds && b.indexEpoch > 0 && b.start == 0 && b.hist != []
      && ChunkKindsBelow(pendingChunks[n], b.kinds)
      && chronology.pending[n] == [] && chronology.nextOrdinal[n] == 0 && !chronology.exhausted[n]
    }

    /** How the first call on each broker is going to end. */
    ghost function Outcomes(): (r: seq<IOStatus>)
      reads brokers
      ensures |r| == |brokers| && forall n :: 0 <= n < |r| ==> r[n] == OutcomeOf(brokers[n])
    {
      seq(|brokers|, n requires 0 <= n < |brokers| reads brokers => OutcomeOf(brokers[n]))
    }

    /** The first n brokers have their first batch, and the others are as they were. */
    ghost predicate FirstTo(n: nat, outcomes: seq<IOStatus>)
      reads this`pendingChunks, this`stepsCapacity, chronology, brokers, set b | b in brokers :: b.rows
    {
      && Lined() && chronology.Model() == Initial(|brokers|) && n <= |brokers| == |outcomes|
      && (forall m :: 0 <= m < n ==> FirstBatch(m) && outcomes[m] == Success)
      && forall m :: n <= m < |brokers| ==>
           && brokers[m].Valid() && kind < brokers[m].kinds && brokers[m].hist == []
           && ChunkKindsBelow(pendingChunks[m], brokers[m].kinds) && OutcomeOf(brokers[m]) == outcomes[m]
    }

    ghost predicate ForetoldIn(told: set<nat>)
      requires Apart()
      reads this`pendingChunks, this`streams, brokers
    {
      forall m :: 0 <= m < |brokers| && m in told ==> Foretold(m)
    }

    /** Index the first batch of one broker; the others stay as they are. */
    method IndexFirstAt(n: nat, ghost outcomes: seq<IOStatus>, ghost told: set<nat>) returns (status: IOStatus)
      requires n < |brokers| && FirstTo(n, outcomes) && ForetoldIn(told)
      modifies brokers, set b | b in brokers :: b.rows
      ensures Lined() && chronology.Model() == Initial(|brokers|) && ForetoldIn(told)
      ensures |outcomes| == |brokers| && status == outcomes[n] && (status == Success ==> FirstTo(n + 1, outcomes))
    {
      hide Good, CountsBatch, ChainSteps, Proper, SameSteps, Parse, ParseEnd, NoMarkers, Entries, OutcomeOf;
      label before:
      status := IndexFirstOf(n, brokers[n]);
      forall m | 0 <= m < |brokers| && m != n
        ensures brokers[m] != brokers[n] && brokers[m].rows != brokers[n].rows
        ensures m in told ==> Foretold(m)
      {
        assert m in told ==> old@before(Foretold(m));
      }
      assert n in told ==> old@before(Foretold(n));
    }

    /** Index the first batch of every broker; any failure is final. */
    method IndexFirst(ghost told: set<nat>) returns (status: IOStatus)
      requires Undiscovered() && ForetoldIn(told)
      modifies brokers, set b | b in brokers :: b.rows
      ensures Lined() && chronology.Model() == Initial(|brokers|) && ForetoldIn(told)
      ensures status == Success ==> forall n :: 0 <= n < |brokers| ==> FirstBatch(n)
      ensures EndsLike(status, old(Outcomes()))
    {
      NoneFirst();
      hide FirstTo, ForetoldIn, FirstBatch, Undiscovered, OutcomeOf, Apart;
      ghost var outcomes := Outcomes();
      var n := 0;
      while n < |brokers|
        invariant n <= |brokers| && FirstTo(n, outcomes) && ForetoldIn(told)
        invariant Lined() && chronology.Model() == Initial(|brokers|)
        invariant forall m :: 0 <= m < n ==> outcomes[m] == Success
      {
        status := IndexFirstAt(n, outcomes, told);
        if status != Success {
          return;
        }
        n := n + 1;
      }
      status := Success;
      AllFirst(outcomes);
    }

    lemma NoneFirst()
      requires Undiscovered()
      ensures FirstTo(0, Outcomes())
    {
      hide StreamBroker.Valid, KindsBelow, OutcomeOf;
    }

    lemma AllFirst(outcomes: seq<IOStatus>)
      requires FirstTo(|brokers|, outcomes)
      ensures Lined() && forall n :: 0 <= n < |brokers| ==> FirstBatch(n)
    {
      hide FirstBatch;
    }

    method IndexFirstOf(n: nat, b: StreamBroker) returns (status: IOStatus)
      requires Apart() && n < |brokers| && b == brokers[n] && b.Valid() && b.hist == []
      modifies b, b.rows
      ensures b.Valid() && b.indexEpoch > 0 && (status == Success ==> b.start == 0 && b.hist != [])
      ensures status == old(OutcomeOf(b))
      ensures old(ChainReady(n)) ==> ChainReady(n) && b.hist + StillToIndex(n) == old(b.hist + StillToIndex(n))
    {
      hide Good, CountsBatch, ChainSteps, Proper, SameSteps, Parse, ParseEnd, Readable, NoMarkers, StartsChunk;
      status := b.GenericIndex();
      IndexKeepsChain(b.file, b.header, old(b.hist), old(b.pos), b.hist, b.pos, pendingChunks[n]);
      MarkerIsMarker(b.file, b.header, b.pos);
      FirstCallEnds(b, old(b.pos), status);
    }

    /** The steps of the distributed kind in each broker's chain. */
    ghost function WholeStreams(n: nat): (r: seq<seq<Entry>>)
      requires Apart() && n <= |brokers|
      reads this`pendingChunks, brokers
      ensures |r| == n && forall m :: 0 <= m < n ==> r[m] == Entries(brokers[m].hist + StillToIndex(m), kind)
    {
      if n == 0 then [] else WholeStreams(n - 1) + [Entries(brokers[n - 1].hist + StillToIndex(n - 1), kind)]
    }

    /** Add the first batch of a broker to the merge. */
    method AddFirst(n: nat, b: StreamBroker)
      requires Lined() && n < |brokers| && b == brokers[n] && FirstBatch(n)
      modifies chronology`pending, chronology`nextOrdinal, chronology`exhausted
      ensures Lined() && BrokerOk(n)
      ensures forall m :: 0 <= m < |brokers| && m != n ==>
                && chronology.pending[m] == old(chronology.pending[m])
                && chronology.nextOrdinal[m] == old(chronology.nextOrdinal[m])
                    && chronology.exhausted[m] == old(chronology.exhausted[m])
      ensures Foretold(n) && old(Merged()) ==> Tells(n) && Merged()
    {
      hide Good, CountsBatch, ChainSteps, Entries, Inv, Retained;
      ghost var before := chronology.Model();
      ghost var es := AddIndexedSteps(n, b);
      assert b.hist[..0] == [] && Count([], kind) == 0;
      VisitedMatch(before, n, es, b.hist, b.start, kind);
      if Foretold(n) && old(Merged()) {
        VisitedKeepsInv(streams, before, n, es, b.hist, b.start, kind, StillToIndex(n), took, items);
      }
    }

    /** Add the first batches of all brokers. */
    method AddAllFirst(ghost ready: bool)
      requires Lined() && chronology.Model() == Initial(|brokers|) && forall n :: 0 <= n < |brokers| ==> FirstBatch(n)
      requires ready ==> Merged() && forall n :: 0 <= n < |brokers| ==> Foretold(n)
      modifies chronology`pending, chronology`nextOrdinal, chronology`exhausted
      ensures BrokersOk() && chronology.order == []
      ensures ready ==> AllTell() && Merged()
    {
      hide Good, Matches, ChainSteps, Entries, Inv, Retained, Proper, CountsBatch, NoMarkers, Count;
      var n := 0;
      while n < |brokers|
        invariant n <= |brokers| && Lined() && chronology.order == []
        invariant forall m :: 0 <= m < n ==> BrokerOk(m)
        invariant ready ==> forall m :: 0 <= m < n ==> Tells(m)
        invariant forall m :: n <= m < |brokers| ==> FirstBatch(m)
        invariant ready ==> Merged()
      {
        label before:
        assert ready ==> Foretold(n);
        AddFirst(n, brokers[n]);
        forall m | 0 <= m < n
          ensures BrokerOk(m) && (ready ==> Tells(m))
        {
          assert old@before(BrokerOk(m));
          assert ready ==> old@before(Tells(m));
        }
        forall m | n < m < |brokers|
          ensures FirstBatch(m)
        {
          assert old@before(FirstBatch(m));
        }
        n := n + 1;
      }
    }

    /** The ghost streams are those of the broker's chain. */
    ghost predicate Foretold(n: nat)
      requires Apart() && n < |brokers|
      reads this`pendingChunks, this`streams, brokers[n]
    {
      ChainReady(n) && n < |streams| && Entries(brokers[n].hist + StillToIndex(n), kind) == streams[n]
    }

    method MergeFirst(ghost ready: bool)
      requires Lined() && chronology.Model() == Initial(|brokers|) && forall n :: 0 <= n < |brokers| ==> FirstBatch(n)
      requires ready ==> Merged() && forall n :: 0 <= n < |brokers| ==> Foretold(n)
      modifies this`stepsCapacity, this`took, this`items, chronology
      ensures Valid() && NoneToPlace() && forall step :: 0 <= step < stepsCapacity ==> Fetchable(step)
      ensures ready && InTimeOrder(streams) ==> Complete()
    {
      hide BrokerOk, Tells, FirstBatch, Foretold, Merged, Fetchable, Works, Sum;
      AddAllFirst(ready);
      var merged := MergeWaiting();
      stepsCapacity := |chronology.order|;
    }

    /** Say what the streams are, for the proof. */
    ghost method Foretell()
      requires Undiscovered()
      modifies this`streams, this`took, this`items
      ensures streams == WholeStreams(|brokers|) && Merged()
      ensures forall n :: 0 <= n < |brokers| && ChainReady(n) ==> Foretold(n)
    {
      hide Good, Inv, Proper, ChainSteps, Entries, NoMarkers, KindsBelow, CountsBatch, ChainReady;
      streams, took, items := WholeStreams(|brokers|), seq(|brokers|, _ => 0), [];
      NothingMerged(streams);
    }

    /** The broker is ready, and its first file has a step. */
    ghost predicate HasSteps(n: nat)
      requires Apart() && n < |brokers|
      reads this`pendingChunks, brokers[n]
    {
      ChainReady(n) && Parse(brokers[n].file, brokers[n].header, brokers[n].pos) != []
    }

    lemma ReadySucceed()
      requires Apart()
      ensures forall n :: 0 <= n < |brokers| && HasSteps(n) ==> Outcomes()[n] == Success
    {
      hide OutcomeOf, Parse, UnitsFit;
      forall n | 0 <= n < |brokers| && HasSteps(n)
        ensures OutcomeOf(brokers[n]) == Success
      {
        ProperFits(brokers[n].file, brokers[n].header, brokers[n].scratch, pendingChunks[n]);
        ReadySucceeds(brokers[n]);
      }
    }

    /** The merging part of discovery: index a first batch everywhere, then merge what can be placed. */
    method DiscoverMerging() returns (status: IOStatus)
      requires Undiscovered()
      modifies this`stepsCapacity, this`streams, this`took, this`items, chronology, brokers, set b | b in brokers :: b.rows
      ensures EndsLike(status, old(Outcomes()))
      ensures (forall n :: 0 <= n < |brokers| ==> old(HasSteps(n))) ==> status == Success
      ensures status == Success ==> Valid() && NoneToPlace() && forall step :: 0 <= step < stepsCapacity ==> Fetchable(step)
      ensures status == Success && (forall n :: 0 <= n < |brokers| ==> old(ChainReady(n))) ==>
                streams == old(WholeStreams(|brokers|)) && (InTimeOrder(streams) ==> Complete())
    {
      hide BrokersOk, Valid, Complete, Tells, FirstBatch, Foretold, ChainReady, Merged, Inv, InTimeOrder, Fetchable,
          WholeStreams, StreamBroker.Valid, KindsBelow;
      ghost var ready := forall n :: 0 <= n < |brokers| ==> ChainReady(n);
      ReadySucceed();
      Foretell();
      ghost var told := set n | 0 <= n < |brokers| && Foretold(n);
      status := IndexFirst(told);
      if status != Success {
        return;
      }
      MergeFirst(ready);
    }

    /** At any time the merged steps start the one order of all steps; once everything is exhausted they are it. */
    lemma OrderIsSort(full: seq<Item>)
      requires Valid() && Complete() && IsFullOrder(streams, full)
      ensures chronology.order <= Places(full)
      ensures (forall n :: 0 <= n < |brokers| ==> chronology.exhausted[n] && chronology.pending[n] == []) ==>
          chronology.order == Places(full)
    {
      InvIsPrefixOfSort(streams, chronology.Model(), chronology.nextOrdinal, took, items, full);
    }
  }

  lemma WorkShrinks(chunks: seq<Chunk>)
    ensures chunks != [] ==>
        ChunkWork(chunks) == ChunkWork(chunks[1..]) + match chunks[0] case None => 1 case Some(f) => 1 + |f|
  {
  }

  lemma NothingMerged(streams: seq<seq<Entry>>)
    ensures Inv(streams, Initial(|streams|), seq(|streams|, _ => 0), seq(|streams|, _ => 0), [])
  {
    assert Places([]) == [];
  }

  lemma StartOf(h: seq<Step>, h0: seq<Step>)
    requires h0 <= h
    ensures h[..|h0|] == h0
  {
  }

  lemma VisitedKeepsInv(streams: seq<seq<Entry>>, s: State, b: nat, es: seq<Entry>, h: seq<Step>, start: nat, k: nat,
        still: seq<Step>, took: seq<nat>, items: seq<Item>)
    requires Inv(streams, s, s.nextOrdinal, took, items) && b < |s.pending| && s.pending[b] == [] && !s.exhausted[b]
    requires Visits(es, h, start, k) && s.nextOrdinal[b] == Count(h[..start], k) && Entries(h + still, k) == streams[b]
    ensures var t := AddedAll(s, b, es); Inv(streams, t, t.nextOrdinal, took, items) && t.nextOrdinal[b] == Count(h, k)
  {
    hide Inv, Visits, AddedAll, Entries, Count, Retained;
    InvShape(streams, s, took, items);
    VisitedAreStream(s, b, es, h, start, k, still, streams[b]);
    NextStretch(streams, s, b, took, items, Count(h, k));
  }

  lemma InvShape(streams: seq<seq<Entry>>, s: State, took: seq<nat>, items: seq<Item>)
    requires Inv(streams, s, s.nextOrdinal, took, items)
    ensures s.Shaped() && |s.pending| == |streams|
  {
  }

  /** When nothing of a stream waits, its next stretch may. */
  lemma NextStretch(streams: seq<seq<Entry>>, s: State, b: nat, took: seq<nat>, items: seq<Item>, end: nat)
    requires Inv(streams, s, s.nextOrdinal, took, items) && b < |s.pending| && s.pending[b] == [] && !s.exhausted[b]
    requires s.nextOrdinal[b] <= end <= |streams[b]| && forall o :: 0 <= o < |streams[b]| ==> streams[b][o].ordinal == o
    ensures var t := s.(pending := s.pending[b := streams[b][s.nextOrdinal[b]..end]],
                        nextOrdinal := s.nextOrdinal[b := end]);
            Inv(streams, t, t.nextOrdinal, took, items)
  {
    hide Chronology.Placed, Places;
    assert took[b] == s.nextOrdinal[b] by {
      assert s.pending[b] == streams[b][took[b]..s.nextOrdinal[b]];
    }
  }

  /** What is visited and fresh is the next stretch of the stream. */
  lemma VisitedAreStream(s: State, b: nat, es: seq<Entry>, h: seq<Step>, start: nat, k: nat, still: seq<Step>,
        stream: seq<Entry>)
    requires s.Shaped() && b < |s.pending| && s.pending[b] == []
    requires Visits(es, h, start, k) && s.nextOrdinal[b] == Count(h[..start], k) && Entries(h + still, k) == stream
    ensures s.nextOrdinal[b] <= Count(h, k) <= |stream|
    ensures forall o :: 0 <= o < |stream| ==> stream[o].ordinal == o
    ensures AddedAll(s, b, es) == s.(pending := s.pending[b := stream[s.nextOrdinal[b]..Count(h, k)]],
                                     nextOrdinal := s.nextOrdinal[b := Count(h, k)])
  {
    VisitedWait(s, b, es, h, start, k);
    EntryAt(h + still, k);
    EntriesGrow(h, still, k);
    assert Entries(h, k)[s.nextOrdinal[b]..] == stream[s.nextOrdinal[b]..Count(h, k)];
  }

  lemma ExhaustedMergeInv(streams: seq<seq<Entry>>, s: State, b: nat, h: seq<Step>, k: nat, took: seq<nat>, items: seq<Item>)
    requires Inv(streams, s, s.nextOrdinal, took, items) && b < |s.pending|
    requires s.nextOrdinal[b] == Count(h, k) && Entries(h + [], k) == streams[b]
    ensures Inv(streams, MarkedExhausted(s, b), s.nextOrdinal, took, items)
  {
    assert h + [] == h;
    EntryAt(h, k);
  }

  ghost function VisitedEntries(visited: seq<(nat, nat)>, h: seq<Step>, start: nat, k: nat): (es: seq<Entry>)
    requires start <= |h|
    requires forall j :: 0 <= j < |visited| ==> exists p: nat :: IsNth(h, k, visited[j].0, p) && visited[j].1 == h[p].key
    requires |visited| > 0 ==> visited[0].0 + |visited| == Count(h, k)
    requires forall j :: 0 <= j < |visited| ==> visited[j].0 == visited[0].0 + j
    requires forall o :: Retained(h, start, k, o) ==> |visited| > 0 && visited[0].0 <= o
    ensures Visits(es, h, start, k) && |es| == |visited|
    ensures forall i :: 0 <= i < |es| ==> es[i] == Entry(visited[i].0, visited[i].1)
  {
    EntryAt(h, k);
    var es := seq(|visited|, i requires 0 <= i < |visited| => Entry(visited[i].0, visited[i].1));
    assert forall i :: 0 <= i < |es| ==> es[i].ordinal < |Entries(h, k)| && es[i] == Entries(h, k)[es[i].ordinal] by {
      forall i | 0 <= i < |es|
        ensures es[i].ordinal < |Entries(h, k)| && es[i] == Entries(h, k)[es[i].ordinal]
      {
        var p: nat :| IsNth(h, k, visited[i].0, p) && visited[i].1 == h[p].key;
      }
    }
    es
  }

  lemma BatchCounts(steps: seq<nat>, h: seq<Step>, start: nat)
    requires CountsBatch(steps, h, start)
    ensures |h| == start ==> forall k :: 0 <= k < |steps| ==> steps[k] == 0
    ensures |h| > start && h[start].kind < |steps| ==> steps[h[start].kind] > 0
  {
    assert h[..|h|] == h;
    if |h| > start {
      CountMonotone(h, start, |h|, h[start].kind);
    }
  }

  lemma MarkerIsMarker(file: File, header: nat, p: nat)
    ensures StartsChunk(file, header, p) ==> !NoMarkers(file)
  {
  }

  /** How the first call on the broker ends: without room or scratch for something that it comes to, without a step
      in its file, or with success. */
  ghost function OutcomeOf(b: StreamBroker): IOStatus
    reads b
  {
    OutcomeAt(b.file, b.header, b.scratch, b.pos, b.rows.Length)
  }

  ghost function OutcomeAt(file: File, header: nat, scratch: nat, p: nat, room: nat): IOStatus {
    if room == 0 || Truncates(file, header, scratch, p, false, room) then PayloadTruncatedError
    else if Parse(file, header, p) == [] then ZeroBytesRead
    else Success
  }

  /** Success if all succeed, and otherwise what the first that does not ends with. */
  ghost predicate EndsLike(status: IOStatus, outcomes: seq<IOStatus>) {
    if status == Success then forall n :: 0 <= n < |outcomes| ==> outcomes[n] == Success
    else exists n :: 0 <= n < |outcomes| && outcomes[n] == status && forall m :: 0 <= m < n ==> outcomes[m] == Success
  }

  /** On a ready broker with a step in its file it succeeds. */
  lemma ReadySucceeds(b: StreamBroker)
    requires b.kinds < b.rows.Length && UnitsFit(b.file, b.header, b.scratch) && Parse(b.file, b.header, b.pos) != []
    ensures OutcomeOf(b) == Success
  {
    FitsNeverTruncates(b.file, b.header, b.scratch, b.pos, false, b.rows.Length);
  }

  /** How the first call on a broker ended. */
  lemma FirstCallEnds(b: StreamBroker, p0: nat, status: IOStatus)
    requires b.Indexed() && b.start == 0 && SameSteps(b.file, b.header, [], p0, b.hist, b.pos)
    requires NewInFile(b.file, b.hist, 0) && NewFit(b.file, b.header, b.scratch, b.hist, 0)
    requires status == PayloadTruncatedError <==>
        b.carried == b.rows.Length || (b.numRows < b.rows.Length && b.Stuck(b.pos))
    requires status == Success ==> b.hist != [] && (b.numRows == b.rows.Length || Parse(b.file, b.header, b.pos) == []
                                                    || StartsChunk(b.file, b.header, b.pos))
    requires status == ZeroBytesRead ==> b.hist == [] && Parse(b.file, b.header, b.pos) == []
    requires status in {Success, ZeroBytesRead, PayloadTruncatedError} && b.numRows == b.carried + |b.hist|
    ensures status == OutcomeAt(b.file, b.header, b.scratch, p0, b.rows.Length)
  {
    NoneCarried(b);
    hide Good, CountsBatch, Parse, ParseEnd, TooLong, Readable, Truncates, NewInFile, NewFit;
    assert [] + Parse(b.file, b.header, p0) == Parse(b.file, b.header, p0);
    if b.rows.Length > 0 {
      FirstCallTruncates(b, p0, status);
    }
  }

  lemma FirstCallTruncates(b: StreamBroker, p0: nat, status: IOStatus)
    requires |b.hist| <= b.rows.Length && Parse(b.file, b.header, p0) == b.hist + Parse(b.file, b.header, b.pos)
    requires ParseEnd(b.file, b.header, p0) == ParseEnd(b.file, b.header, b.pos)
    requires NewInFile(b.file, b.hist, 0) && NewFit(b.file, b.header, b.scratch, b.hist, 0)
    requires status == PayloadTruncatedError <==> |b.hist| < b.rows.Length && b.Stuck(b.pos)
    requires status == Success ==> b.hist != [] && (|b.hist| == b.rows.Length || Parse(b.file, b.header, b.pos) == []
                                                    || StartsChunk(b.file, b.header, b.pos))
    requires status == ZeroBytesRead ==> Parse(b.file, b.header, b.pos) == []
    requires status in {Success, ZeroBytesRead, PayloadTruncatedError}
    ensures Truncates(b.file, b.header, b.scratch, p0, false, b.rows.Length) <==> status == PayloadTruncatedError
  {
    TruncatesExactly(b.file, b.header, b.scratch, p0, false, b.hist, b.pos, b.rows.Length);
  }

  function PositionAt(at: seq<nat>, i: nat): int {
    if i < |at| then at[i] else -1
  }

  /** The first batch carries no rows. */
  lemma NoneCarried(b: StreamBroker)
    requires b.Indexed() && b.start == 0
    ensures b.carried == 0 && b.numRows <= b.rows.Length
  {
    hide Linked, Numbered, CountsBatch;
    assert PositionAt(b.at, 0) < b.start || b.carried == 0;
  }

  lemma ProperNeverFails(b: StreamBroker, chunks: seq<Chunk>)
    requires b.Indexed() && b.kinds < b.rows.Length && Proper(b.file, b.header, b.scratch, chunks)
    ensures b.carried < b.rows.Length && !b.Stuck(b.pos)
    ensures StartsChunk(b.file, b.header, b.pos) ==> !NoMarkers(b.file)
  {
    ProperFits(b.file, b.header, b.scratch, chunks);
    RoomNeverFails(b);
    MarkerIsMarker(b.file, b.header, b.pos);
  }

  lemma ProperFits(file: File, header: nat, scratch: nat, chunks: seq<Chunk>)
    requires Proper(file, header, scratch, chunks)
    ensures UnitsFit(file, header, scratch)
  {
  }

  lemma NothingToIndex(file: File, header: nat, p: nat, chunks: seq<Chunk>, complete: bool)
    requires Parse(file, header, p) == [] && (chunks == [] || !complete) && (p >= |file| ==> complete)
    ensures ChainSteps(file, header, p, chunks) == []
  {
    if chunks != [] {
      assert ParseEnd(file, header, p) == p;
      ChainIsDone(file, header, p, chunks);
    }
  }
}
