/** Reading the payloads of consecutive steps of a kind: in one read when the steps end to end fit the buffer,
    otherwise step by step along the list of their kind. */
module PayloadRanges {
  import opened Common
  import opened StepTable
  import opened StreamBrokers

  /** Where a step's payload is. */
  datatype Region = Region(stream: nat, offset: nat, length: nat)

  /** The steps of kind k with the ordinals from `first` on, as the whole history has them. */
  ghost predicate IsRange(h: seq<Step>, k: nat, first: nat, steps: seq<Step>) {
    forall i :: 0 <= i < |steps| ==> IsNthStep(h, k, first + i, steps[i])
  }

  ghost predicate IsNthStep(h: seq<Step>, k: nat, o: nat, step: Step) {
    exists p: nat :: IsNth(h, k, o, p) && h[p] == step
  }

  function RegionsOf(steps: seq<Step>, region: Step -> Region): (r: seq<Region>)
    ensures |r| == |steps| && forall i :: 0 <= i < |steps| ==> r[i] == region(steps[i])
  {
    seq(|steps|, i requires 0 <= i < |steps| => region(steps[i]))
  }

  function Total(regions: seq<Region>): nat {
    if regions == [] then 0 else Total(regions[..|regions| - 1]) + regions[|regions| - 1].length
  }

  /** From the start of the first region to the end of the last, if that is in one stream. */
  function Span(first: Region, last: Region): Option<Region> {
    if first.stream == last.stream && last.offset >= first.offset
    then Some(Region(first.stream, first.offset, last.offset + last.length - first.offset))
    else None
  }

  /** What is read into a buffer of some size, or nothing when it cannot hold the steps. */
  function Reads(regions: seq<Region>, bufSize: nat): Option<seq<Region>>
    requires regions != []
  {
    var span := Span(regions[0], regions[|regions| - 1]);
    if span.Some? && span.value.length <= bufSize then Some([span.value])
    else if Total(regions) <= bufSize then Some(regions)
    else None
  }

  /** From the start of the first payload to the end of the last, in one stream, there is no more than fits the
      buffer; or the payloads together are no more than that. */
  predicate FitsBuffer(regions: seq<Region>, bufSize: nat)
    requires regions != []
  {
    var first, last := regions[0], regions[|regions| - 1];
    || (first.stream == last.stream && first.offset <= last.offset && last.offset + last.length <= first.offset + bufSize)
    || Total(regions) <= bufSize
  }

  /** Something is read exactly when the payloads fit the buffer in one of these ways: as the one span, if that fits,
      and otherwise one by one. */
  lemma ReadsExactly(bufSize: nat)
    ensures forall regions :: regions != [] ==>
              && (Reads(regions, bufSize).Some? <==> FitsBuffer(regions, bufSize))
              && (Total(regions) <= bufSize && !OneRead(regions, bufSize) ==> Reads(regions, bufSize) == Some(regions))
  {
    hide Total;
  }

  lemma {:induction false} TotalGrows(regions: seq<Region>, n: nat)
    requires n <= |regions|
    ensures Total(regions[..n]) <= Total(regions)
  {
    if n < |regions| {
      TotalGrows(regions[..|regions| - 1], n);
      assert regions[..|regions| - 1][..n] == regions[..n];
    } else {
      assert regions[..n] == regions;
    }
  }

  lemma TotalNone()
    ensures Total([]) == 0
  {
  }

  lemma TotalNext(regions: seq<Region>, r: Region)
    ensures Total(regions + [r]) == Total(regions) + r.length
  {
    assert (regions + [r])[..|regions|] == regions;
  }

  /** What is read for the steps with the ordinals first to first + count - 1, into a buffer of bufSize bytes. */
  method FetchRange(broker: StreamBroker, region: Step -> Region, k: nat, first: nat, count: nat, hint: nat, bufSize: nat)
    returns (status: IOStatus, fetched: seq<Region>, ghost steps: seq<Step>)
    requires broker.Valid() && k < broker.kinds && count > 0
    ensures status in {Success, AllRequestedRead, NoOffsetInData, PayloadTruncatedError}
    ensures status == AllRequestedRead <==>
              || first >= Count(broker.hist, k)
              || (broker.start <= |broker.hist| && Retained(broker.hist, broker.start, k, first)
                  && first + count > Count(broker.hist, k))
    ensures status == NoOffsetInData <==>
              broker.start <= |broker.hist| && first < Count(broker.hist, k) && !Retained(broker.hist, broker.start, k, first)
    ensures status == Success || status == PayloadTruncatedError ==>
              |steps| == count && IsRange(broker.hist, k, first, steps)
    ensures status == Success ==> Reads(RegionsOf(steps, region), bufSize) == Some(fetched)
    ensures status == Success ==> FitsBuffer(RegionsOf(steps, region), bufSize)
    ensures status == PayloadTruncatedError ==> !FitsBuffer(RegionsOf(steps, region), bufSize)
  {
    ReadsExactly(bufSize);
    hide Total, Count, Good, CountsBatch, IsNth, FitsBuffer;
    fetched, steps := [], [];
    broker.BatchBegin();
    var firstRow, lastRow;
    status, firstRow := broker.FindRow(k, first, hint);
    if status != Success {
      return;
    }
    status, lastRow := broker.FindRow(k, first + count - 1, firstRow);
    if status != Success {
      StaysRetained(broker.hist, broker.start, k, first, first + count - 1);
      return;
    }
    var firstRegion, lastRegion := region(broker.rows[firstRow].step), region(broker.rows[lastRow].step);
    steps := StepsFrom(broker.hist, k, first, count);
    HeldStep(broker, k, first, firstRow, steps[0]);
    HeldStep(broker, k, first + count - 1, lastRow, steps[count - 1]);
    ghost var regions := RegionsOf(steps, region);
    var span := Span(firstRegion, lastRegion);
    if span.Some? && span.value.length <= bufSize {
      fetched := [span.value];
      return;
    }
    status, fetched := ReadSteps(broker, region, k, first, count, firstRow, bufSize, steps);
  }

  /** Read step by step, along the list of the kind, while the steps fit. */
  method ReadSteps(broker: StreamBroker, region: Step -> Region, k: nat, first: nat, count: nat, firstRow: nat,
        bufSize: nat, ghost steps: seq<Step>)
    returns (status: IOStatus, fetched: seq<Region>)
    requires broker.Valid() && broker.indexEpoch > 0 && broker.HoldsNth(firstRow, k, first)
    requires |steps| == count && IsRange(broker.hist, k, first, steps) && first + count <= Count(broker.hist, k)
    ensures var regions := RegionsOf(steps, region);
            if Total(regions) <= bufSize then status == Success && fetched == regions else status == PayloadTruncatedError
  {
    hide Total, Count, Good, CountsBatch, IsNth, StreamBroker.Valid, StreamBroker.HoldsNth;
    ghost var regions := RegionsOf(steps, region);
    fetched := [];
    var total := 0;
    var r: Option<nat> := Some(firstRow);
    TotalNone();
    RowsFit(broker);
    for s := 0 to count
      invariant fetched == regions[..s] && total == Total(fetched) <= bufSize
      invariant s < count ==> r.Some? && broker.HoldsNth(r.value, k, first + s)
    {
      HeldStep(broker, k, first + s, r.value, steps[s]);
      HeldNext(broker, k, first + s, r.value);
      var next := region(broker.rows[r.value].step);
      TotalNext(fetched, next);
      assert regions[..s + 1] == regions[..s] + [next];
      if total + next.length > bufSize {
        TotalGrows(regions, s + 1);
        return PayloadTruncatedError, fetched;
      }
      fetched := fetched + [next];
      total := total + next.length;
      r := broker.rows[r.value].next;
    }
    assert regions[..count] == regions;
    status := Success;
  }

  lemma {:induction false} StepsFrom(h: seq<Step>, k: nat, first: nat, count: nat) returns (steps: seq<Step>)
    requires first + count <= Count(h, k)
    ensures |steps| == count && IsRange(h, k, first, steps)
  {
    steps := [];
    for i := 0 to count
      invariant |steps| == i && IsRange(h, k, first, steps)
    {
      NthExists(h, k, first + i);
      var p: nat :| IsNth(h, k, first + i, p);
      assert IsNthStep(h, k, first + i, h[p]);
      steps := steps + [h[p]];
    }
  }

  /** The row of an ordinal holds the step that the history has there. */
  lemma HeldStep(broker: StreamBroker, k: nat, o: nat, r: nat, step: Step)
    requires broker.Valid() && broker.indexEpoch > 0 && broker.HoldsNth(r, k, o) && IsNthStep(broker.hist, k, o, step)
    ensures r < broker.numRows <= broker.rows.Length && broker.rows[r].step == step
  {
    var p: nat :| IsNth(broker.hist, k, o, p) && broker.hist[p] == step;
    NthUnique(broker.hist, k, o, p, broker.at[r]);
  }

  lemma RowsFit(broker: StreamBroker)
    requires broker.Valid()
    ensures broker.numRows <= broker.rows.Length
  {
  }

  lemma HeldNext(broker: StreamBroker, k: nat, o: nat, r: nat)
    requires broker.Valid() && broker.indexEpoch > 0 && broker.HoldsNth(r, k, o)
    ensures r < broker.numRows <= broker.rows.Length
    ensures match broker.rows[r].next
            case Some(n) => broker.HoldsNth(n, k, o + 1)
            case None => o + 1 == Count(broker.hist, k)
  {
    var t := broker.Rows();
    NextOfKind(t, broker.hist, broker.at, broker.carried, broker.start, broker.kinds, r);
    if t.rows[r].next.Some? {
      NextOfKind(t, broker.hist, broker.at, broker.carried, broker.start, broker.kinds, t.rows[r].next.value);
    }
  }

  lemma StaysRetained(h: seq<Step>, start: nat, k: nat, o: nat, p: nat)
    requires start <= |h| && Retained(h, start, k, o) && o <= p
    ensures Retained(h, start, k, p) <==> p < Count(h, k)
  {
  }

  predicate Within(r: Region, whole: Region) {
    r.stream == whole.stream && whole.offset <= r.offset && r.offset + r.length <= whole.offset + whole.length
  }

  ghost predicate HoldsAll(fetched: seq<Region>, regions: seq<Region>) {
    forall i :: 0 <= i < |regions| ==> exists j :: 0 <= j < |fetched| && Within(regions[i], fetched[j])
  }

  predicate OneRead(regions: seq<Region>, bufSize: nat)
    requires regions != []
  {
    var span := Span(regions[0], regions[|regions| - 1]);
    span.Some? && span.value.length <= bufSize
  }

  /** The payload is in the stream of the first one, starts no earlier, and ends no later than the last one. */
  predicate Between(regions: seq<Region>, i: nat)
    requires i < |regions|
  {
    var first, last := regions[0], regions[|regions| - 1];
    && regions[i].stream == first.stream && first.offset <= regions[i].offset
    && regions[i].offset + regions[i].length <= last.offset + last.length
  }

  /** What was read holds every step exactly when, for a read in one span, each payload lies between the first and
      the last: the code looks at those two only. */
  lemma ReadsHoldAll(regions: seq<Region>, bufSize: nat)
    requires regions != [] && Reads(regions, bufSize).Some?
    ensures HoldsAll(Reads(regions, bufSize).value, regions) <==>
              (OneRead(regions, bufSize) ==> forall i :: 0 <= i < |regions| ==> Between(regions, i))
  {
    if !OneRead(regions, bufSize) {
      forall i | 0 <= i < |regions|
        ensures exists j :: 0 <= j < |regions| && Within(regions[i], regions[j])
      {
        assert Within(regions[i], regions[i]);
      }
    } else {
      var fetched := Reads(regions, bufSize).value;
      assert forall i :: 0 <= i < |regions| ==> (Within(regions[i], fetched[0]) <==> Between(regions, i));
      if HoldsAll(fetched, regions) {
        forall i | 0 <= i < |regions|
          ensures Between(regions, i)
        {
          var j :| 0 <= j < |fetched| && Within(regions[i], fetched[j]);
        }
      } else {
        var i :| 0 <= i < |regions| && !exists j :: 0 <= j < |fetched| && Within(regions[i], fetched[j]);
        assert !Within(regions[i], fetched[0]);
      }
    }
  }

  // ----- Where a payload is in the buffer

  /** The bytes of each stream. */
  type Bytes = seq<seq<bv8>>

  predicate InData(data: Bytes, r: Region) {
    r.stream < |data| && r.offset + r.length <= |data[r.stream]|
  }

  function BytesOf(data: Bytes, r: Region): (s: seq<bv8>)
    requires InData(data, r)
    ensures |s| == r.length
  {
    data[r.stream][r.offset..r.offset + r.length]
  }

  ghost predicate AllInData(data: Bytes, regions: seq<Region>) {
    forall i :: 0 <= i < |regions| ==> InData(data, regions[i])
  }

  /** The buffer after the reads, one behind the other. */
  ghost function BufferOf(data: Bytes, fetched: seq<Region>): (s: seq<bv8>)
    requires AllInData(data, fetched)
    ensures |s| == Total(fetched)
  {
    if fetched == [] then []
    else BufferOf(data, fetched[..|fetched| - 1]) + BytesOf(data, fetched[|fetched| - 1])
  }

  /** Where the i-th payload begins in it: as far behind the first one as in the stream, or behind those before. */
  function PlaceOf(regions: seq<Region>, bufSize: nat, i: nat): int
    requires i < |regions|
  {
    if OneRead(regions, bufSize) then regions[i].offset - regions[0].offset else Total(regions[..i])
  }

  lemma {:induction false} BufferAt(data: Bytes, regions: seq<Region>, i: nat)
    requires AllInData(data, regions) && i < |regions|
    ensures var from := Total(regions[..i]);
            && from + regions[i].length <= Total(regions)
            && BufferOf(data, regions)[from..from + regions[i].length] == BytesOf(data, regions[i])
  {
    var n := |regions| - 1;
    var init := regions[..n];
    if i < n {
      assert init[..i] == regions[..i];
      BufferAt(data, init, i);
      var from := Total(regions[..i]);
      assert BufferOf(data, regions)[from..from + regions[i].length]
          == BufferOf(data, init)[from..from + regions[i].length];
    }
  }

  lemma OneReadBuffer(data: Bytes, r: Region)
    requires InData(data, r)
    ensures BufferOf(data, [r]) == BytesOf(data, r)
  {
    assert [r][..0] == [];
    assert BufferOf(data, []) == [];
    assert [] + BytesOf(data, r) == BytesOf(data, r);
  }

  lemma SliceOfSlice(all: seq<bv8>, from: nat, length: nat, place: nat, part: nat)
    requires from + length <= |all| && place + part <= length
    ensures all[from..from + length][place..place + part] == all[from + place..from + place + part]
  {
    var whole := all[from..from + length];
    var got := whole[place..place + part];
    assert |got| == part;
    forall k | 0 <= k < part
      ensures got[k] == all[from + place..from + place + part][k]
    {
      assert got[k] == whole[place + k] == all[from + place + k];
    }
  }

  /** The buffer is large enough, and each payload that lies between the first and the last is in its place. */
  lemma PayloadInPlace(data: Bytes, regions: seq<Region>, bufSize: nat, i: nat)
    requires regions != [] && Reads(regions, bufSize).Some? && AllInData(data, regions) && i < |regions|
    requires OneRead(regions, bufSize) ==> Between(regions, i)
    ensures AllInData(data, Reads(regions, bufSize).value)
    ensures var buffer, place := BufferOf(data, Reads(regions, bufSize).value), PlaceOf(regions, bufSize, i);
            && 0 <= place <= place + regions[i].length <= |buffer| <= bufSize
            && buffer[place..place + regions[i].length] == BytesOf(data, regions[i])
  {
    var fetched := Reads(regions, bufSize).value;
    if OneRead(regions, bufSize) {
      OneReadBuffer(data, fetched[0]);
      var all := data[fetched[0].stream];
      SliceOfSlice(all, regions[0].offset, fetched[0].length, regions[i].offset - regions[0].offset, regions[i].length);
    } else {
      BufferAt(data, regions, i);
    }
  }

  // ----- A payload that is missed

  function ThreeUnits(): File {
    [Unit(Some(0), 1, 0, 5, false), Unit(Some(0), 1, 0, 6, false), Unit(Some(0), 1, 0, 7, false)]
  }

  function ThreeIndexed(): seq<Step> {
    [Step(0, 5, 0), Step(0, 6, 1), Step(0, 7, 2)]
  }

  /** The payloads are in one stream, the second one behind the third. */
  function OutOfOrder(step: Step): Region {
    Region(0, if step.offset == 1 then 100 else 2 * step.offset, 4)
  }

  /** The three steps are fetched with success, in one read that the second payload is not in. */
  method SpanMisses() returns (status: IOStatus, fetched: seq<Region>)
    ensures Parse(ThreeUnits(), 1, 0) == ThreeIndexed()
    ensures status == Success && fetched == [Region(0, 0, 8)]
    ensures !HoldsAll(fetched, RegionsOf(ThreeIndexed(), OutOfOrder))
  {
    hide Good, CountsBatch, Parse, Count, Total, NewInFile, Retained, IsRange, HoldsAll, StreamBroker.Indexed;
    ParseThree();
    var b := new StreamBroker(1, 1, 4, 8, ThreeUnits());
    ghost var h, p := b.hist, b.pos;
    status := b.GenericIndex();
    OneCallIsEnough(b, h, p, status);
    ghost var steps;
    status, fetched, steps := FetchRange(b, OutOfOrder, 0, 0, 3, 0, 16);
    ThreeFetched(steps);
    assert b.start == 0 && b.hist == ThreeIndexed();
    assert steps == ThreeIndexed();
    assert Reads(RegionsOf(steps, OutOfOrder), 16) == Some([Region(0, 0, 8)]);
    assert !HoldsAll(fetched, RegionsOf(ThreeIndexed(), OutOfOrder)) by {
      ReadsHoldAll(RegionsOf(ThreeIndexed(), OutOfOrder), 16);
      assert !Between(RegionsOf(ThreeIndexed(), OutOfOrder), 1);
    }
  }

  /** A payload of another stream in between is missed too. */
  lemma SpanMissesStream()
    ensures var regions := [Region(0, 0, 4), Region(1, 0, 4), Region(0, 4, 4)];
            Reads(regions, 16) == Some([Region(0, 0, 8)]) && !HoldsAll([Region(0, 0, 8)], regions)
  {
    var regions := [Region(0, 0, 4), Region(1, 0, 4), Region(0, 4, 4)];
    assert !Between(regions, 1);
    ReadsHoldAll(regions, 16);
  }

  lemma ParseThree()
    ensures Parse(ThreeUnits(), 1, 0) == ThreeIndexed()
  {
    var f := ThreeUnits();
    assert Parse(f, 1, 3) == [];
    assert Parse(f, 1, 2) == [Step(0, 7, 2)];
    assert Parse(f, 1, 1) == [Step(0, 6, 1)] + Parse(f, 1, 2);
    assert Parse(f, 1, 0) == [Step(0, 5, 0)] + Parse(f, 1, 1);
  }

  /** All three are retained, and the range of all three is they. */
  lemma {:induction false} ThreeFetched(steps: seq<Step>)
    ensures var h := ThreeIndexed();
            && Count(h, 0) == 3 && Retained(h, 0, 0, 0) && Retained(h, 0, 0, 2)
            && (|steps| == 3 && IsRange(h, 0, 0, steps) ==> steps == h)
  {
    var h := ThreeIndexed();
    CountSteps(h, 0);
    CountSteps(h, 1);
    CountSteps(h, 2);
    CountSteps(h, 3);
    assert h[..3] == h;
    hide Count;
    if |steps| == 3 && IsRange(h, 0, 0, steps) {
      forall i | 0 <= i < 3
        ensures steps[i] == h[i]
      {
        assert IsNthStep(h, 0, i, steps[i]);
        var p: nat :| IsNth(h, 0, i, p) && h[p] == steps[i];
        CountSteps(h, p);
      }
    }
  }

  /** A history of one kind has as many steps of it as it is long. */
  lemma {:induction false} CountSteps(h: seq<Step>, n: nat)
    requires n <= |h| && forall i :: 0 <= i < |h| ==> h[i].kind == 0
    ensures Count(h[..n], 0) == n
  {
    if n > 0 {
      CountSteps(h, n - 1);
      assert h[..n][..n - 1] == h[..n - 1];
    }
  }

  /** Payloads in one stream that follow each other are all read. */
  lemma {:induction false} InOrderIsHeld(regions: seq<Region>, bufSize: nat)
    requires regions != [] && Reads(regions, bufSize).Some?
    requires forall i :: 0 < i < |regions| ==>
               regions[i].stream == regions[i - 1].stream
                   && regions[i].offset >= regions[i - 1].offset + regions[i - 1].length
    ensures HoldsAll(Reads(regions, bufSize).value, regions)
  {
    forall i | 0 <= i < |regions|
      ensures Between(regions, i)
    {
      Follows(regions, 0, i);
      Follows(regions, i, |regions| - 1);
    }
    ReadsHoldAll(regions, bufSize);
  }

  lemma {:induction false} Follows(regions: seq<Region>, i: nat, j: nat)
    requires i <= j < |regions|
    requires forall n :: 0 < n < |regions| ==>
               regions[n].stream == regions[n - 1].stream
                   && regions[n].offset >= regions[n - 1].offset + regions[n - 1].length
    ensures regions[i].stream == regions[j].stream && regions[i].offset <= regions[j].offset
    ensures regions[i].offset + regions[i].length <= regions[j].offset + regions[j].length
    decreases j - i
  {
    if i < j {
      Follows(regions, i, j - 1);
    }
  }
}
