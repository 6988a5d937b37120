/** Aligning a segment's steps to those of another kind: which steps a batch maps onto,
    and where each of them lies in the fetched range. */
module Alignment {
  import opened Common
  import opened StepTable
  import opened StreamBrokers

  ghost function Position(h: seq<Step>, k: nat, o: nat): (p: nat)
    requires o < Count(h, k)
    ensures IsNth(h, k, o, p)
  {
    NthExists(h, k, o);
    var p: nat :| IsNth(h, k, o, p);
    p
  }

  /** The reference: the latest step of `kind` at or before the o-th step of `refKind`, by its ordinal. */
  ghost function Latest(h: seq<Step>, kind: nat, refKind: nat, o: nat): Option<nat>
    requires o < Count(h, refKind)
  {
    var n := Count(h[..Position(h, refKind, o) + 1], kind);
    if n == 0 then None else Some(n - 1)
  }

  /** `Latest` means what it says: its step is of the kind, not after the reference, and no later one is. */
  lemma {:induction false} LatestIsLatest(h: seq<Step>, kind: nat, refKind: nat, o: nat)
    requires o < Count(h, refKind)
    ensures match Latest(h, kind, refKind, o)
            case Some(n) => n < Count(h, kind) && Position(h, kind, n) <= Position(h, refKind, o) &&
              forall q :: Position(h, kind, n) < q <= Position(h, refKind, o) ==> h[q].kind != kind
            case None => forall q :: 0 <= q <= Position(h, refKind, o) ==> h[q].kind != kind
  {
    hide Count;
    var ref := Position(h, refKind, o);
    var n := Count(h[..ref + 1], kind);
    forall q | 0 <= q <= ref && h[q].kind == kind
      ensures Count(h[..q], kind) < n
    {
      CountMonotone(h, q, ref + 1, kind);
    }
    if n > 0 {
      CountMonotone(h, ref + 1, |h|, kind);
      assert h[..|h|] == h;
      var p := Position(h, kind, n - 1);
      if p > ref {
        CountMonotone(h, ref + 1, p, kind);
      }
      forall q | p < q <= ref
        ensures h[q].kind != kind
      {
        CountMonotone(h, p, q, kind);
      }
    }
  }

  lemma {:induction false} PositionsAscend(h: seq<Step>, k: nat, o: nat, o': nat)
    requires o <= o' < Count(h, k)
    ensures Position(h, k, o) <= Position(h, k, o')
  {
    var p, p' := Position(h, k, o), Position(h, k, o');
    if p' < p {
      CountMonotone(h, p', p, k);
    }
  }

  /** A later reference never maps to an earlier step. */
  lemma {:induction false} LatestAscends(h: seq<Step>, kind: nat, refKind: nat, o: nat, o': nat)
    requires o <= o' < Count(h, refKind)
    ensures Latest(h, kind, refKind, o).Some? ==>
              Latest(h, kind, refKind, o').Some? && Latest(h, kind, refKind, o).value <= Latest(h, kind, refKind, o').value
  {
    PositionsAscend(h, refKind, o, o');
    CountMonotone(h, Position(h, refKind, o) + 1, Position(h, refKind, o') + 1, kind);
  }

  /** How far the step for `first + cnt` lies after the step for `first`. */
  ghost function SlotOf(h: seq<Step>, kind: nat, refKind: nat, first: nat, cnt: nat): int
    requires first + cnt < Count(h, refKind)
  {
    match (Latest(h, kind, refKind, first), Latest(h, kind, refKind, first + cnt))
    case (Some(a), Some(b)) => b - a
    case _ => cnt
  }

  /** The ordinals first to last - 1 of a kind are those of steps scanned in the current batch. */
  ghost predicate InBatch(b: StreamBroker, k: nat, first: nat, last: nat)
    requires b.Valid()
    reads b, b.rows
  {
    b.start <= |b.hist| && Count(b.hist[..b.start], k) <= first <= last <= Count(b.hist, k)
  }

  lemma {:induction false} BatchPositions(h: seq<Step>, start: nat, k: nat, o: nat)
    requires start <= |h| && Count(h[..start], k) <= o < Count(h, k)
    ensures start <= Position(h, k, o)
  {
    var p := Position(h, k, o);
    if p < start {
      CountMonotone(h, p, start, k);
    }
  }

  function EndOf(first: nat, last: nat): nat {
    if first < last then last else first + 1
  }

  /** A segment of a group: a reader of one kind of step, aligned to another kind or not. */
  class Segment {
    const broker: StreamBroker
    const cursor: SegmentCursor
    const kind: nat
    const align: Option<nat>

    constructor (broker: StreamBroker, cursor: SegmentCursor, kind: nat, align: Option<nat>)
      ensures this.broker == broker && this.cursor == cursor && this.kind == kind && this.align == align
    {
      this.broker, this.cursor, this.kind, this.align := broker, cursor, kind, align;
    }

    ghost predicate Ready()
      reads this, broker, broker.rows, cursor
    {
      && broker.Valid() && kind < broker.kinds && |cursor.offsetIndex| == broker.kinds
      && (align.Some? ==> align.value < broker.kinds)
    }

    predicate Aligned() {
      align.Some? && align.value != kind
    }

    /** A row of the reference is in the index. */
    ghost predicate IsRetained(step: nat)
      requires Ready()
      reads this, broker, broker.rows, cursor
    {
      Aligned() && broker.start <= |broker.hist| && Retained(broker.hist, broker.start, align.value, step)
    }

    /** The ordinal of the segment's step for a step of the group. */
    method MapStep(step: nat) returns (status: IOStatus, ordinal: nat)
      requires Ready()
      modifies cursor
      ensures Ready()
      ensures !Aligned() ==> status == Success && ordinal == step
      ensures Aligned() && InBatch(broker, align.value, step, step + 1) ==>
                match Latest(broker.hist, kind, align.value, step)
                case Some(n) => status == Success && ordinal == n
                case None => status == NoOffsetInData
      ensures Aligned() && step >= Count(broker.hist, align.value) ==> status == AllRequestedRead
      ensures Aligned() && IsRetained(step) ==>
          broker.AnswersByRow(kind, align.value, step, if status == Success then Some(ordinal) else None)
      ensures Aligned() && status == Success ==> IsRetained(step)
    {
      hide Good, CountsBatch, Count, StreamBroker.AnswersByRow;
      broker.BatchBegin();
      if Aligned() {
        status, ordinal := broker.Preceding(kind, align.value, step, cursor);
        if InBatch(broker, align.value, step, step + 1) {
          BatchPositions(broker.hist, broker.start, align.value, step);
          assert IsNth(broker.hist, align.value, step, Position(broker.hist, align.value, step));
        }
      } else {
        status, ordinal := Success, step;
      }
    }

    /** The range of the segment's steps for the group's steps first to last - 1; an empty range stands for its first
        step. */
    method MapBatch(first: nat, last: nat) returns (status: IOStatus, firstOrdinal: nat, endOrdinal: nat)
      requires Ready()
      modifies cursor
      ensures Ready()
      ensures !Aligned() ==>
          status == Success && firstOrdinal == first && endOrdinal == EndOf(first, last)
      ensures Aligned() && InBatch(broker, align.value, first, EndOf(first, last)) ==>
                if Latest(broker.hist, kind, align.value, first).None? then status == NoOffsetInData
                else
                  && status == Success
                  && firstOrdinal == Latest(broker.hist, kind, align.value, first).value
                  && forall o :: first <= o < EndOf(first, last) ==>
                       && Latest(broker.hist, kind, align.value, o).Some?
                       && firstOrdinal <= Latest(broker.hist, kind, align.value, o).value < endOrdinal
      ensures Aligned() && InBatch(broker, align.value, first, EndOf(first, last)) && status == Success ==>
                Latest(broker.hist, kind, align.value, EndOf(first, last) - 1) == Some(endOrdinal - 1)
    {
      hide Good, CountsBatch, Latest, Count, Segment.IsRetained, StreamBroker.AnswersByRow;
      endOrdinal := 0;
      var lastStep := if last > first then last - 1 else first;
      if Aligned() && InBatch(broker, align.value, first, EndOf(first, last)) {
        forall o | first <= o < EndOf(first, last)
          ensures Latest(broker.hist, kind, align.value, first).Some? ==>
                    && Latest(broker.hist, kind, align.value, o).Some?
                    && Latest(broker.hist, kind, align.value, first).value <= Latest(broker.hist, kind, align.value, o).value
                    && Latest(broker.hist, kind, align.value, lastStep).Some?
                    && Latest(broker.hist, kind, align.value, o).value <= Latest(broker.hist, kind, align.value, lastStep).value
        {
          LatestAscends(broker.hist, kind, align.value, first, o);
          LatestAscends(broker.hist, kind, align.value, o, lastStep);
        }
      }
      status, firstOrdinal := MapStep(first);
      if status != Success {
        return;
      }
      var lastOrdinal;
      status, lastOrdinal := MapStep(lastStep);
      endOrdinal := lastOrdinal + 1;
    }

    /** Where the step `first + cnt` lies in the fetched range. */
    method BatchSlot(first: nat, cnt: nat) returns (slot: int)
      requires Ready()
      modifies cursor
      ensures Ready()
      ensures !Aligned() ==> slot == cnt
      ensures Aligned() && InBatch(broker, align.value, first, first + cnt + 1) ==>
                slot == SlotOf(broker.hist, kind, align.value, first, cnt)
    {
      hide Good, CountsBatch, Latest, Count, Segment.IsRetained, StreamBroker.AnswersByRow;
      if !Aligned() {
        return cnt;
      }
      var status, firstOrdinal := MapStep(first);
      if status != Success {
        return cnt;
      }
      var ordinal: int;
      status, ordinal := MapStep(first + cnt);
      if status != Success {
        return cnt;
      }
      slot := ordinal - firstOrdinal;
    }
  }

  /** Slots stay inside the fetched range and never go back. */
  lemma {:induction false} SlotsAscendInRange(h: seq<Step>, kind: nat, refKind: nat, first: nat, last: nat, i: nat, j: nat)
    requires first + i <= first + j < last <= Count(h, refKind)
    requires Latest(h, kind, refKind, first).Some?
    ensures 0 <= SlotOf(h, kind, refKind, first, i) <= SlotOf(h, kind, refKind, first, j)
                <= SlotOf(h, kind, refKind, first, last - 1 - first)
    ensures Latest(h, kind, refKind, last - 1) ==
              Some(Latest(h, kind, refKind, first).value + SlotOf(h, kind, refKind, first, last - 1 - first))
  {
    hide Latest;
    LatestAscends(h, kind, refKind, first, first + i);
    LatestAscends(h, kind, refKind, first + i, first + j);
    LatestAscends(h, kind, refKind, first + j, last - 1);
  }

  /** Only references of the current batch are answered so. For a carried row, the rows of the other
      kinds lie by kind and not by time: the nearest row gives the right answer exactly when the other
      kind is the same, or comes first and ended before the reference, or comes later and began after it. */
  lemma {:induction false} CarriedReference(rows: seq<Row>, h: seq<Step>, at: seq<nat>, carried: nat, start: nat, kinds: nat,
                         kind: nat, ref: nat, found: Option<nat>)
    requires Describes(rows, h, at) && Covers(rows, h, at, carried, start, kinds)
    requires ref < carried && Nearest(rows, kind, ref, found)
    ensures Count(h[..at[ref] + 1], kind) == (if found.Some? then rows[found.value].ordinal + 1 else 0) <==>
            if kind < rows[ref].Kind() then forall q :: at[ref] < q < start ==> h[q].kind != kind
            else kind == rows[ref].Kind() || forall q :: 0 <= q <= at[ref] ==> h[q].kind != kind
  {
    hide Count;
    var end := at[ref] + 1;
    CountMonotone(h, end, start, kind);
    if kind <= rows[ref].Kind() {
      CarriedCounts(rows, h, at, carried, start, kinds, kind, found);
    }
    if kind < rows[ref].Kind() {
      CountSame(h, end, start, kind);
    } else if kind == rows[ref].Kind() {
      assert found == Some(ref);
      CountGap(h, end, start, kind);
    } else {
      assert found.None?;
      CountSame(h, 0, end, kind);
    }
  }

  /** A file of one step of kind 1 between two of kind 0. */
  function ThreeSteps(): File {
    [Unit(Some(0), 1, 0, 5, false), Unit(Some(1), 1, 0, 6, false), Unit(Some(0), 1, 0, 7, false)]
  }

  lemma ParseThree()
    ensures Parse(ThreeSteps(), 1, 0) == [Step(0, 5, 0), Step(1, 6, 1), Step(0, 7, 2)]
  {
    var f := ThreeSteps();
    assert Parse(f, 1, 3) == [];
    assert Parse(f, 1, 2) == [Step(0, 7, 2)];
    assert Parse(f, 1, 1) == [Step(1, 6, 1)] + Parse(f, 1, 2);
    assert Parse(f, 1, 0) == [Step(0, 5, 0)] + Parse(f, 1, 1);
  }

  function ThreeIndexed(): seq<Step> {
    [Step(0, 5, 0), Step(1, 6, 1), Step(0, 7, 2)]
  }

  /** The carried row of kind 0 is that of the last step, and comes first. */
  lemma AnswersWithLast(b: StreamBroker, answer: Option<nat>)
    requires b.Valid() && b.indexEpoch > 0 && b.kinds == 2 && b.hist == ThreeIndexed() && b.start == 3
    requires b.AnswersByRow(0, 1, 0, answer)
    ensures answer == Some(1)
  {
    hide Linked, Numbered, CountsBatch, Count;
    var h, rows := ThreeIndexed(), b.Rows().rows;
    var ref: nat, found :| ref < b.numRows && b.HoldsNth(ref, 1, 0) && b.NearestBefore(0, ref, found)
      && answer == b.OrdinalAt(found);
    var zero := CarriedRow(rows, h, b.at, b.carried, 3, 2, 2);
    assert found == Some(zero);
    assert HoldsStep(rows[zero], h, b.at[zero]);
    ThreeCounts();
  }

  lemma {:induction false} CountOfThree(a: Step, b: Step, c: Step, k: nat)
    ensures var n, m, l := if a.kind == k then 1 else 0, if b.kind == k then 1 else 0, if c.kind == k then 1 else 0;
            Count([a], k) == n && Count([a, b], k) == n + m && Count([a, b, c], k) == n + m + l
  {
    hide Count;
    CountNone(k);
    CountPush([], a, k);
    CountPush([a], b, k);
    CountPush([a, b], c, k);
    assert [] + [a] == [a] && [a] + [b] == [a, b] && [a, b] + [c] == [a, b, c];
  }

  lemma {:induction false} ThreeCounts()
    ensures var h := ThreeIndexed(); IsNth(h, 0, 1, 2) && IsNth(h, 1, 0, 1) && Count(h, 1) == 1 && Retained(h, 3, 1, 0)
  {
    hide Count;
    var h := ThreeIndexed();
    CountOfThree(h[0], h[1], h[2], 0);
    CountOfThree(h[0], h[1], h[2], 1);
    assert h[..1] == [h[0]];
    assert h[..2] == [h[0], h[1]];
    assert h == [h[0], h[1], h[2]];
    assert h[..3] == h;
  }

  lemma CountNone(k: nat)
    ensures Count([], k) == 0
  {
  }

  lemma {:induction false} LatestOfThree()
    ensures Count(ThreeIndexed(), 1) == 1 && Latest(ThreeIndexed(), 0, 1, 0) == Some(0)
  {
    hide Count;
    var h := ThreeIndexed();
    ThreeCounts();
    CountOfThree(h[0], h[1], h[2], 0);
    assert h[..2] == [h[0], h[1]];
    NthUnique(ThreeIndexed(), 1, 0, 1, Position(ThreeIndexed(), 1, 0));
  }

  /** The broker is asked for the step of kind 0 that precedes the carried step of kind 1, and answers with the one
      that follows it. */
  method CarriedReferenceGoesWrong() returns (status: IOStatus, ordinal: nat)
    ensures status == Success && ordinal == 1
    ensures var h := Parse(ThreeSteps(), 1, 0); Count(h, 1) == 1 && Latest(h, 0, 1, 0) == Some(0)
  {
    hide Good, CountsBatch, Parse, Latest, IsNth, NewInFile, StreamBroker.Indexed, StreamBroker.AnswersByRow, Count,
      Retained;
    ParseThree();
    ThreeCounts();
    LatestOfThree();
    var b := new StreamBroker(2, 1, 4, 8, ThreeSteps());
    ghost var h, p := b.hist, b.pos;
    status := b.GenericIndex();
    OneCallIsEnough(b, h, p, status);
    h, p := b.hist, b.pos;
    status := b.GenericIndex();
    OneCallIsEnough(b, h, p, status);
    var cursor := new SegmentCursor(2);
    status, ordinal := b.Preceding(0, 1, 0, cursor);
    AnswersWithLast(b, if status == Success then Some(ordinal) else None);
  }

  lemma {:induction false} CountSame(h: seq<Step>, a: nat, b: nat, k: nat)
    requires a <= b <= |h|
    ensures Count(h[..a], k) == Count(h[..b], k) <==> forall q :: a <= q < b ==> h[q].kind != k
  {
    if forall q :: a <= q < b ==> h[q].kind != k {
      CountGap(h, a, b, k);
    } else {
      var q: nat :| a <= q < b && h[q].kind == k;
      CountMonotone(h, a, q, k);
      CountMonotone(h, q, b, k);
    }
  }

  /** A carried row's ordinal tells how many steps of its kind the earlier batches had. */
  lemma {:induction false} CarriedCounts(rows: seq<Row>, h: seq<Step>, at: seq<nat>, carried: nat, start: nat, kinds: nat,
        kind: nat, found: Option<nat>)
    requires Describes(rows, h, at) && Covers(rows, h, at, carried, start, kinds)
    requires found.Some? ==> found.value < carried && rows[found.value].Kind() == kind
    requires found.None? ==> forall i :: 0 <= i < carried && i < |rows| ==> rows[i].Kind() != kind
    ensures Count(h[..start], kind) == if found.Some? then rows[found.value].ordinal + 1 else 0
  {
    match found
    case Some(i) =>
      assert HoldsStep(rows[i], h, at[i]);
      assert h[..at[i] + 1] == h[..at[i]] + [h[at[i]]];
      CountPush(h[..at[i]], h[at[i]], kind);
      CountGap(h, at[i] + 1, start, kind);
    case None =>
      forall q | 0 <= q < start
        ensures h[q].kind != kind
      {
        var i := CarriedRow(rows, h, at, carried, start, kinds, q);
      }
      CountGap(h, 0, start, kind);
  }
}
